/**
 * The visualization's options as the host hands them to `updateAsync`, and the
 * measure field metadata the tooltip and legend read.
 *
 * A string option the user left unset reaches the code as `undefined` or `""`;
 * both are falsy in JavaScript, so both are modelled as the empty string.
 */
module Settings {
  datatype Config = Config(
    fillOpacity: real,
    heatmapGridlines: bool,
    showGridlinesOnBlankRegions: bool,
    noDataGridlineColor: string,
    showRegionNameInTooltip: bool,
    regionNameColorMatchesHeatmap: bool,
    showFullMeasureName: bool,
    colorScale: string,
    reverseColors: bool)

  /** The first measure of the query: its full label and its short label. */
  datatype MeasureField = MeasureField(fullLabel: string, shortLabel: string)

  /** The declared default of the `color_scale` option. */
  const DefaultColorScale: string := "#EB8230, #EB8C00, #FFB600"

  /**
   * The label shown in the tooltip and above the legend: one of the measure's two
   * labels, the full one exactly when `show_full_measure_name` is on.
   */
  function MeasureLabel(config: Config, measure: MeasureField): (shown: string)
    ensures shown == measure.fullLabel || shown == measure.shortLabel
    ensures config.showFullMeasureName ==> shown == measure.fullLabel
    ensures !config.showFullMeasureName ==> shown == measure.shortLabel
  {
    if config.showFullMeasureName then measure.fullLabel else measure.shortLabel
  }
}
