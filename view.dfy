/**
 * One refresh of the visualization (`updateAsync`): the state the visualization
 * object keeps between refreshes is the drawn region layer and the legend, both
 * replaced wholesale, while the tooltips written onto the shared features persist.
 */
module View {
  import opened Wrappers
  import opened Settings
  import opened Rows
  import opened Colors
  import opened Regions
  import opened Styling

  /**
   * One drawn region: its feature, its style, and whether `onEachFeature` gave it a
   * tooltip and click handler (it does so when the feature's `tooltipContent` is truthy
   * right after the style callback ran).
   */
  datatype LayerEntry = LayerEntry(feature: Feature, style: PathStyle, interactive: bool)

  /** What the legend is drawn from: the measure label, the colour list and the scale's domain. */
  datatype Legend = Legend(caption: string, colors: seq<string>, minValue: Extreme, maxValue: Extreme)

  /** `chroma.scale(colors).domain([minValue, maxValue])`, taken as given. */
  type ScaleBuilder = (seq<string>, Extreme, Extreme) -> (int -> string)

  /** The style callback: returns the region's style and, when it has a value, writes its tooltip. */
  method ApplyStyle(f: Feature, countryData: map<string, int>, config: Config, measure: MeasureField,
                    scale: int -> string, format: int -> string) returns (style: PathStyle)
    modifies f
    ensures style == StyleFor(f, countryData, config, scale)
    ensures f.tooltipContent == TooltipAfterRefresh(old(f.tooltipContent), f, countryData, config, measure, scale, format)
  {
    style := StyleFor(f, countryData, config, scale);
    match Lookup(countryData, f) {
      case Some(v) =>
        f.tooltipContent := TooltipHtml(f, v, config, measure, scale, format);
      case None =>
    }
  }

  /**
   * The style callback with the intended rule: a region without a value has its
   * tooltip cleared, so `onEachFeature` makes it interactive exactly when it has data.
   */
  method ApplyStyleCleared(f: Feature, countryData: map<string, int>, config: Config, measure: MeasureField,
                           scale: int -> string, format: int -> string) returns (style: PathStyle)
    modifies f
    ensures style == StyleFor(f, countryData, config, scale)
    ensures f.tooltipContent == ClearedTooltip(f, countryData, config, measure, scale, format)
    ensures f.tooltipContent != "" <==> Mentioned(f, countryData.Keys)
  {
    style := StyleFor(f, countryData, config, scale);
    match Lookup(countryData, f) {
      case Some(v) =>
        f.tooltipContent := TooltipHtml(f, v, config, measure, scale, format);
      case None =>
        f.tooltipContent := "";
    }
    ClearedTooltipIffData(f, countryData, config, measure, scale, format);
  }

  /**
   * Leaflet's `addData` over the kept features, in order: the style callback runs
   * on each, then `onEachFeature` tests the tooltip it may have written.
   */
  method StyleLayer(kept: seq<Feature>, countryData: map<string, int>, config: Config, measure: MeasureField,
                    scale: int -> string, format: int -> string) returns (entries: seq<LayerEntry>)
    modifies kept
    ensures |entries| == |kept|
    ensures forall k :: 0 <= k < |kept| ==>
      kept[k].tooltipContent
        == TooltipAfterRefresh(old(kept[k].tooltipContent), kept[k], countryData, config, measure, scale, format)
    ensures forall k :: 0 <= k < |kept| ==>
      entries[k] == LayerEntry(kept[k], StyleFor(kept[k], countryData, config, scale), kept[k].tooltipContent != "")
  {
    entries := [];
    var i := 0;
    while i < |kept|
      invariant 0 <= i <= |kept| && |entries| == i
      invariant forall k :: 0 <= k < |kept| ==>
        || kept[k].tooltipContent == old(kept[k].tooltipContent)
        || kept[k].tooltipContent
             == TooltipAfterRefresh(old(kept[k].tooltipContent), kept[k], countryData, config, measure, scale, format)
      invariant forall k :: 0 <= k < i ==>
        kept[k].tooltipContent
          == TooltipAfterRefresh(old(kept[k].tooltipContent), kept[k], countryData, config, measure, scale, format)
      invariant forall k :: 0 <= k < i ==>
        entries[k] == LayerEntry(kept[k], StyleFor(kept[k], countryData, config, scale),
          TooltipAfterRefresh(old(kept[k].tooltipContent), kept[k], countryData, config, measure, scale, format) != "")
    {
      var f := kept[i];
      TooltipAfterRefreshIdempotent(old(f.tooltipContent), f, countryData, config, measure, scale, format);
      var style := ApplyStyle(f, countryData, config, measure, scale, format);
      entries := entries + [LayerEntry(f, style, f.tooltipContent != "")];
      i := i + 1;
    }
  }

  class HeatmapView {
    /** `this.options.color_scale.default`, the declared default of the colour option. */
    const colorScaleDefault: string
    /**
     * The features of the bundled world GeoJSON. They are one module-level import, so
     * every refresh sees the same objects and the tooltips written on them persist.
     */
    const features: seq<Feature>
    /** `this.geojsonLayer`; empty before the first refresh. */
    var layer: seq<LayerEntry>
    /** `this.legend`. */
    var legend: Option<Legend>

    constructor (features: seq<Feature>)
      ensures colorScaleDefault == DefaultColorScale && this.features == features
      ensures layer == [] && legend == None
    {
      colorScaleDefault := DefaultColorScale;
      this.features := features;
      layer := [];
      legend := None;
    }

    /**
     * `updateAsync`: collects the countries, filters the features, scans
     * the rows, parses the colours, styles every kept feature in order (writing the
     * tooltips of those with a value), and replaces the layer and the legend.
     */
    method Update(rows: seq<Row>, config: Config, measure: MeasureField, chroma: ScaleBuilder, format: int -> string)
      modifies this, features
      ensures var countryData := CountryValues(rows);
        var colors := ColorList(ColorSource(config.colorScale, colorScaleDefault), config.reverseColors);
        var scale := chroma(colors, MinValue(rows), MaxValue(rows));
        var kept := KeptFeatures(features, Countries(rows), config.showGridlinesOnBlankRegions);
        && |layer| == |kept|
        && (forall k :: 0 <= k < |kept| ==>
              layer[k] == LayerEntry(kept[k], StyleFor(kept[k], countryData, config, scale), kept[k].tooltipContent != ""))
        && (forall j :: 0 <= j < |features| ==>
              features[j].tooltipContent
                == TooltipAfterRefresh(old(features[j].tooltipContent), features[j], countryData, config, measure, scale, format))
        && legend == Some(Legend(MeasureLabel(config, measure), colors, MinValue(rows), MaxValue(rows)))
    {
      var countriesInData := CollectCountries(rows);
      var kept := KeptFeatures(features, countriesInData, config.showGridlinesOnBlankRegions);
      var countryData, minValue, maxValue := ScanRows(rows);
      var colors := ParseColors(config.colorScale, colorScaleDefault, config.reverseColors);
      var scale := chroma(colors, minValue, maxValue);

      CountryValuesKeys(rows);
      forall j | 0 <= j < |features| && features[j] !in kept
        ensures Lookup(countryData, features[j]) == None
      {
        LookupFindsMentioned(countryData, features[j]);
      }

      var entries := StyleLayer(kept, countryData, config, measure, scale, format);
      forall j | 0 <= j < |features|
        ensures features[j].tooltipContent
          == TooltipAfterRefresh(old(features[j].tooltipContent), features[j], countryData, config, measure, scale, format)
      {
        if features[j] in kept {
          var k :| 0 <= k < |kept| && kept[k] == features[j];
        }
      }
      layer := entries;
      legend := Some(Legend(MeasureLabel(config, measure), colors, minValue, maxValue));
    }
  }

  /**
   * Two refreshes over the same two features with gridlines on blank regions: France
   * has a value in the first and none in the second, yet after the second it still
   * carries the first refresh's tooltip, is drawn with a tooltip and click handler,
   * and a click asks the host to toggle an absent key.
   */
  method StaleTooltipScenario(config: Config, measure: MeasureField, chroma: ScaleBuilder, format: int -> string)
    returns (france: Feature, view: HeatmapView)
    requires config.showGridlinesOnBlankRegions
    ensures Lookup(CountryValues([Row("Spain", 3)]), france) == None
    ensures |view.layer| == 2 && view.layer[0].feature == france && view.layer[0].interactive
    ensures france.tooltipContent != ""
    ensures OnClick(france, CountryValues([Row("Spain", 3)]), true) == Toggle(None)
  {
    france := new Feature("France", None);
    var spain := new Feature("Spain", None);
    view := new HeatmapView([france, spain]);
    var first := [Row("France", 5)];
    assert CountryValues(first) == map["France" := 5] by {
      assert first[..0] == [];
    }
    view.Update(first, config, measure, chroma, format);
    assert france.tooltipContent != "" by {
      assert view.features[0] == france;
    }
    var second := [Row("Spain", 3)];
    assert CountryValues(second) == map["Spain" := 3] by {
      assert second[..0] == [];
    }
    view.Update(second, config, measure, chroma, format);
    assert view.features[0] == france;
  }
}
