/**
 * What a refresh decides for each drawn region: its path style, the tooltip HTML
 * written onto the feature, and the crossfilter key a click on it toggles.
 *
 * The colour scale built by the colour library is an opaque function from a
 * measure value to a colour string, and `toLocaleString` is an opaque formatter.
 */
module Styling {
  import opened Wrappers
  import opened Settings
  import opened Regions

  /** Leaflet's `weight`: a number, or the string `'2'` the blank-region branch writes. */
  datatype Weight = Px(n: nat) | PxText(text: string)

  /** The style object handed back to Leaflet; `fillOpacity` is absent on blank regions. */
  datatype PathStyle = PathStyle(fillColor: string, color: string, weight: Weight, fillOpacity: Option<real>)

  const Transparent: string := "transparent"
  const FallbackGridlineColor: string := "#ccc"

  /** The `style` callback without its tooltip write: one of three style records. */
  function StyleFor(f: Feature, countryData: map<string, int>, config: Config, scale: int -> string): (s: PathStyle)
    ensures s.fillOpacity.Some? <==> Mentioned(f, countryData.Keys)
    ensures s.fillColor == Transparent || Mentioned(f, countryData.Keys)
  {
    match Lookup(countryData, f)
    case Some(v) =>
      PathStyle(scale(v), scale(v), if config.heatmapGridlines then Px(2) else Px(0), Some(config.fillOpacity))
    case None =>
      if config.showGridlinesOnBlankRegions then
        var stroke := if config.noDataGridlineColor != "" then config.noDataGridlineColor else FallbackGridlineColor;
        PathStyle(Transparent, stroke, PxText("2"), None)
      else
        PathStyle(Transparent, Transparent, Px(0), None)
  }

  /** A region whose primary name is in the table is coloured by that name's value, even when its alias is also there. */
  lemma StyleByName(f: Feature, countryData: map<string, int>, config: Config, scale: int -> string)
    requires f.name in countryData
    ensures var s := StyleFor(f, countryData, config, scale);
      && s.fillColor == s.color == scale(countryData[f.name])
      && s.weight == (if config.heatmapGridlines then Px(2) else Px(0))
      && s.fillOpacity == Some(config.fillOpacity)
  {
  }

  /** A region found only by its alias is coloured by the alias's value. */
  lemma StyleByAlias(f: Feature, countryData: map<string, int>, config: Config, scale: int -> string)
    requires f.name !in countryData && f.name2.Some? && f.name2.value in countryData
    ensures var s := StyleFor(f, countryData, config, scale);
      && s.fillColor == s.color == scale(countryData[f.name2.value])
      && s.weight == (if config.heatmapGridlines then Px(2) else Px(0))
      && s.fillOpacity == Some(config.fillOpacity)
  {
  }

  /**
   * A region found under neither name is unfilled; its outline is the no-data gridline
   * colour (`#ccc` when that option is empty) at weight `'2'` when gridlines on blank
   * regions are on, and invisible otherwise.
   */
  lemma StyleBlank(f: Feature, countryData: map<string, int>, config: Config, scale: int -> string)
    requires !Mentioned(f, countryData.Keys)
    ensures var s := StyleFor(f, countryData, config, scale);
      && s.fillColor == Transparent && s.fillOpacity == None
      && (config.showGridlinesOnBlankRegions ==>
            s.weight == PxText("2")
            && s.color == (if config.noDataGridlineColor == "" then FallbackGridlineColor else config.noDataGridlineColor))
      && (!config.showGridlinesOnBlankRegions ==> s.weight == Px(0) && s.color == Transparent)
  {
  }

  const RegionParagraphOpen: string := "<p class=\"tooltip-region\" style=\"color: "
  const ValueParagraphOpen: string := "<p class=\"tooltip-value-label\">"

  /** The region-name paragraph of the tooltip. */
  function RegionParagraph(color: string, name: string): string
  {
    RegionParagraphOpen + color + "\">" + name + "</p>"
  }

  /** The measure label and value paragraphs of the tooltip. */
  function ValueParagraphs(measureLabel: string, text: string): string
  {
    ValueParagraphOpen + measureLabel + "</p><p class=\"tooltip-value\">" + text + "</p>"
  }

  /** The tooltip HTML the `style` callback builds for a region showing `value`; never empty, so always truthy. */
  function TooltipHtml(f: Feature, value: int, config: Config, measure: MeasureField,
                       scale: int -> string, format: int -> string): (html: string)
    ensures html != []
  {
    var regionColor := if config.regionNameColorMatchesHeatmap then scale(value) else "";
    var region := if config.showRegionNameInTooltip then RegionParagraph(regionColor, f.name) else "";
    region + ValueParagraphs(MeasureLabel(config, measure), format(value))
  }

  /**
   * The tooltip opens with a region paragraph exactly when `show_region_name_in_tooltip`
   * is on; that paragraph names the primary name (even for a region found by its alias),
   * coloured like the region when `region_name_color_matches_heatmap` is on.
   */
  lemma TooltipRegionLine(f: Feature, value: int, config: Config, measure: MeasureField,
                          scale: int -> string, format: int -> string)
    ensures var html := TooltipHtml(f, value, config, measure, scale, format);
      && (config.showRegionNameInTooltip <==> RegionParagraphOpen <= html)
      && (config.showRegionNameInTooltip ==>
            RegionParagraph(if config.regionNameColorMatchesHeatmap then scale(value) else "", f.name) <= html)
  {
    var html := TooltipHtml(f, value, config, measure, scale, format);
    var tail := ValueParagraphs(MeasureLabel(config, measure), format(value));
    if config.showRegionNameInTooltip {
      var region := RegionParagraph(if config.regionNameColorMatchesHeatmap then scale(value) else "", f.name);
      assert html == region + tail;
      assert region <= html;
      assert region == RegionParagraphOpen + region[|RegionParagraphOpen|..];
      assert RegionParagraphOpen <= region;
    } else {
      assert html == tail;
      OpeningsDiffer(tail);
    }
  }

  /** A tooltip without the region paragraph cannot be taken for one with it. */
  lemma OpeningsDiffer(tail: string)
    requires ValueParagraphOpen <= tail
    ensures !(RegionParagraphOpen <= tail)
  {
    assert ValueParagraphOpen[18] == 'v' && RegionParagraphOpen[18] == 'r';
    assert tail[18] == ValueParagraphOpen[18];
  }

  /**
   * The tooltip always ends with the full measure label when `show_full_measure_name`
   * is on and the short one otherwise, followed by the formatted value.
   */
  lemma TooltipValueLine(f: Feature, value: int, config: Config, measure: MeasureField,
                         scale: int -> string, format: int -> string)
    ensures var html := TooltipHtml(f, value, config, measure, scale, format);
      var shown := if config.showFullMeasureName then measure.fullLabel else measure.shortLabel;
      var tail := ValueParagraphs(shown, format(value));
      |tail| <= |html| && html[|html| - |tail|..] == tail
  {
  }

  /**
   * The `style` callback's tooltip write as written: a region with a value gets fresh
   * tooltip HTML, a region without one keeps whatever an earlier refresh left on the
   * shared feature. So the tooltip is empty only when there is no value and was none.
   */
  function TooltipAfterRefresh(previous: string, f: Feature, countryData: map<string, int>, config: Config,
                               measure: MeasureField, scale: int -> string, format: int -> string): (tooltip: string)
    ensures tooltip != "" <==> Mentioned(f, countryData.Keys) || previous != ""
    ensures !Mentioned(f, countryData.Keys) ==> tooltip == previous
  {
    match Lookup(countryData, f)
    case Some(v) => TooltipHtml(f, v, config, measure, scale, format)
    case None => previous
  }

  /** Rewriting the tooltip twice in one refresh is the same as once. */
  lemma TooltipAfterRefreshIdempotent(previous: string, f: Feature, countryData: map<string, int>, config: Config,
                                      measure: MeasureField, scale: int -> string, format: int -> string)
    ensures var once := TooltipAfterRefresh(previous, f, countryData, config, measure, scale, format);
      TooltipAfterRefresh(once, f, countryData, config, measure, scale, format) == once
  {
  }

  /** As written, a region without a value whose tooltip an earlier refresh set keeps a truthy tooltip. */
  lemma StaleTooltipSurvives(previous: string, f: Feature, countryData: map<string, int>, config: Config,
                             measure: MeasureField, scale: int -> string, format: int -> string)
    requires !Mentioned(f, countryData.Keys) && previous != ""
    ensures TooltipAfterRefresh(previous, f, countryData, config, measure, scale, format) == previous != ""
  {
  }

  /** The intended rule: a region without a value has its tooltip cleared. */
  function ClearedTooltip(f: Feature, countryData: map<string, int>, config: Config,
                          measure: MeasureField, scale: int -> string, format: int -> string): (tooltip: string)
    ensures tooltip != "" ==> Mentioned(f, countryData.Keys)
  {
    match Lookup(countryData, f)
    case Some(v) => TooltipHtml(f, v, config, measure, scale, format)
    case None => ""
  }

  /** Under the intended rule a region has a tooltip, and so a tooltip and click handler, exactly when it has a value. */
  lemma ClearedTooltipIffData(f: Feature, countryData: map<string, int>, config: Config,
                              measure: MeasureField, scale: int -> string, format: int -> string)
    ensures ClearedTooltip(f, countryData, config, measure, scale, format) != "" <==> Mentioned(f, countryData.Keys)
    ensures Mentioned(f, countryData.Keys) ==>
      ClearedTooltip(f, countryData, config, measure, scale, format)
        == TooltipAfterRefresh("", f, countryData, config, measure, scale, format)
  {
  }

  /**
   * The click handler's key: the name if it is a key of the table, else the alias
   * (possibly absent). Any key it gives is one of the feature's own names.
   */
  function ClickKey(f: Feature, countryData: map<string, int>): (key: Option<string>)
    ensures key.None? <==> f.name !in countryData && f.name2.None?
    ensures key.Some? ==> key.value == f.name || f.name2 == Some(key.value)
  {
    if f.name in countryData then Some(f.name) else f.name2
  }

  /** What a click asks of the host: nothing, or a crossfilter toggle on the key. */
  datatype ClickOutcome = NoToggle | Toggle(key: Option<string>)

  /** The click handler: the toggle fires only when the host has crossfilter enabled. */
  function OnClick(f: Feature, countryData: map<string, int>, crossfilterEnabled: bool): (outcome: ClickOutcome)
    ensures outcome.Toggle? <==> crossfilterEnabled
  {
    if crossfilterEnabled then Toggle(ClickKey(f, countryData)) else NoToggle
  }

  /**
   * For a region with a value, the clicked key is a key of the table holding exactly
   * the value that coloured the region; for a region without one it is the alias,
   * which is not a key of the table.
   */
  lemma ClickKeyAgreesWithLookup(f: Feature, countryData: map<string, int>)
    ensures Lookup(countryData, f).Some? ==>
      var key := ClickKey(f, countryData);
      key.Some? && key.value in countryData && Lookup(countryData, f) == Some(countryData[key.value])
    ensures Lookup(countryData, f).None? ==>
      ClickKey(f, countryData) == f.name2 && (f.name2.None? || f.name2.value !in countryData)
  {
  }
}
