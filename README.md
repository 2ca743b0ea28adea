# custom-heatmap in Dafny

This is a model of the refresh path of the custom heatmap visualization (`updateAsync` in
`src/custom-heatmap.js`). One refresh does the following:

- collects the countries that the query rows mention;
- keeps the world GeoJSON regions it will draw (all of them, or only the mentioned ones);
- builds the country → value table and the running minimum and maximum;
- turns the `color_scale` option into a colour list;
- styles every drawn region and writes its tooltip HTML onto the shared feature object;
- gives each region with a tooltip a click handler that toggles a crossfilter key, and a
  mousemove handler that places the tooltip next to the pointer.

Layout, one module per file:

| file | module | what it holds |
|---|---|---|
| `wrappers.dfy` | `Wrappers` | `Option` |
| `settings.dfy` | `Settings` | the options record, the measure labels, the declared default colour string |
| `text.dfy` | `Text` | `String.prototype.trim`, `split(",")` (with its inverse `Join`), `reverse` as a value |
| `rows.dfy` | `Rows` | the two passes over the rows, as loops proved against recursive definitions |
| `colors.dfy` | `Colors` | the colour list, and the parsing method that reverses an array in place |
| `regions.dfy` | `Regions` | the `Feature` class (`tooltipContent` is mutable), the filter, the name/alias lookup |
| `styling.dfy` | `Styling` | the style record, the tooltip HTML, the click key |
| `placement.dfy` | `Placement` | the tooltip position arithmetic |
| `view.dfy` | `View` | the visualization object: its layer and legend, and `Update`, which runs one refresh |

Conventions:

- JavaScript's `Infinity` and `-Infinity` sentinels are the `Extreme` datatype.
- A falsy string option (`undefined` or `""`) is the empty string.
- A missing `name2` is `None`.

## Model

| member | source | states |
|---|---|---|
| Rows.CollectCountries | src/custom-heatmap.js:133-137 | The set holds a country exactly when some row names it. |
| Rows.ScanRows | src/custom-heatmap.js:149-158 | The loop yields the last-write-wins table and the running minimum and maximum, starting from ±Infinity. |
| Rows.MinValue | src/custom-heatmap.js:150-156 | The minimum is never -Infinity. It stays +Infinity exactly when there are no rows. |
| Rows.MaxValue | src/custom-heatmap.js:151-157 | The maximum is never +Infinity. It stays -Infinity exactly when there are no rows. |
| Rows.ExtremaBoundEveryRow | src/custom-heatmap.js:150-158 | With at least one row, both extrema are finite and bracket every row's value, overwritten rows included. |
| Rows.ExtremaAttained | src/custom-heatmap.js:150-158 | With at least one row, the minimum and the maximum are each the value of some row. |
| Rows.CountryValuesKeys | src/custom-heatmap.js:149-155 | The table's keys are exactly the countries the rows mention. |
| Rows.LastRowWins | src/custom-heatmap.js:152-155 | A country's entry is the value of the last row that names it. |
| Rows.LegendDomainMayExceedDisplayedValues | src/custom-heatmap.js:149-166 | Two rows for one country show that the scale domain can include a value the table no longer holds. |
| Settings.MeasureLabel | src/custom-heatmap.js:190 | The shown label is one of the measure's two labels: the full one exactly when `show_full_measure_name` is on, the short one otherwise. |
| Regions.Feature.constructor | src/custom-heatmap.js:4 | A GeoJSON feature starts with its name, its alias and no tooltip. |
| Regions.FilterMentioned | src/custom-heatmap.js:145 | The filter keeps only features mentioned under their name or alias, and keeps every such feature. |
| Regions.FilterConcat | src/custom-heatmap.js:145 | The filter keeps the original order: filtering a concatenation gives the concatenation of the filtered parts. |
| Regions.FilterKeepsAll | src/custom-heatmap.js:145 | The filter returns the list unchanged exactly when every feature in it is mentioned. |
| Regions.KeptFeatures | src/custom-heatmap.js:143-146 | With blank-region gridlines on, every feature is drawn. Otherwise only mentioned features are drawn. Either way, no mentioned feature is dropped and nothing outside the input is added. |
| Regions.Lookup | src/custom-heatmap.js:170-173 | Any value found is one the table holds. When the primary name is a key, its entry is the value. |
| Regions.LookupFindsMentioned | src/custom-heatmap.js:170-175 | A region has a value exactly when its name or its alias is a key. The name wins when both are keys. |
| Styling.StyleFor | src/custom-heatmap.js:169-210 | A fill opacity is set exactly when the region has a value. Otherwise the fill is transparent. |
| Styling.StyleByName | src/custom-heatmap.js:170-183 | A region found by name takes the scale colour of that value for both fill and stroke, with weight 2 or 0 and the configured opacity. |
| Styling.StyleByAlias | src/custom-heatmap.js:170-183 | A region found only by its alias is coloured by the alias's value. |
| Styling.StyleBlank | src/custom-heatmap.js:197-209 | A region without a value is unfilled. With blank-region gridlines on, it gets the no-data colour (`#ccc` when that option is empty) at weight `'2'`. Otherwise its outline is invisible. |
| Styling.TooltipHtml | src/custom-heatmap.js:185-191 | The tooltip of a region with data is never empty, so it is always truthy. |
| Styling.TooltipRegionLine | src/custom-heatmap.js:186-189 | The tooltip opens with the region paragraph exactly when the option asks for it. That paragraph names the primary name, coloured like the region when the matching option is on. |
| Styling.TooltipValueLine | src/custom-heatmap.js:190-191 | The tooltip ends with the full or the short measure label, as the option chooses, followed by the formatted value. |
| Styling.TooltipAfterRefresh | src/custom-heatmap.js:170-192 | As written, a region's tooltip is non-empty exactly when the region has a value or already had a tooltip. A region without a value keeps its tooltip unchanged. |
| Styling.TooltipAfterRefreshIdempotent | src/custom-heatmap.js:170-192 | Rewriting a region's tooltip twice in one refresh gives the same result as once. |
| Styling.StaleTooltipSurvives | src/custom-heatmap.js:177-195 | As written, a region without a value keeps an earlier refresh's non-empty tooltip. |
| Styling.ClearedTooltip | src/custom-heatmap.js:224-225 | Under the intended rule, a region has a non-empty tooltip only when it has a value. |
| Styling.ClearedTooltipIffData | src/custom-heatmap.js:224-225 | Under the intended rule, a region has a tooltip exactly when it has a value. That tooltip is the same one the code writes. |
| Styling.OnClick | src/custom-heatmap.js:269-273 | A click asks for a crossfilter toggle exactly when crossfilter is enabled. |
| Styling.ClickKey | src/custom-heatmap.js:264 | The key is absent exactly when the name is not a table key and there is no alias. Any key given is one of the feature's own names. |
| Styling.ClickKeyAgreesWithLookup | src/custom-heatmap.js:264 | For a region with a value, the clicked key is a table key holding the value that coloured the region. Otherwise the key is the alias, which is not a table key. |
| Placement.PlaceTooltip | src/custom-heatmap.js:237-249 | The top is 20 px above the pointer. The tooltip flips left exactly when it would pass the window's right edge. Unflipped, it fits within the window. Flipped, it ends 20 px left of the pointer. |
| Placement.TooltipClearsPointer | src/custom-heatmap.js:237-246 | The tooltip always lies at least 20 px to one side of the pointer. |
| Placement.FlipIsMonotone | src/custom-heatmap.js:241 | Moving the pointer right never un-flips the tooltip. |
| Text.Trim | src/custom-heatmap.js:162 | A trimmed colour has no whitespace or line terminator at either end. |
| Text.TrimIsInfix | src/custom-heatmap.js:162 | Trimming removes only a whitespace run at the front and one at the back. |
| Text.Split | src/custom-heatmap.js:162 | Splitting gives one more piece than there are commas, and no piece contains a comma. |
| Text.JoinSplit | src/custom-heatmap.js:162 | Joining the pieces of a split with the separator gives back the original text. |
| Text.SplitJoin | src/custom-heatmap.js:162 | Splitting a join of separator-free pieces gives back the pieces. |
| Text.ReverseReverse | src/custom-heatmap.js:164 | Reversing twice gives back the list. |
| Colors.ColorSource | src/custom-heatmap.js:161 | A non-empty option is used as is. Otherwise the declared default is used. The text is empty only when both are empty. |
| Colors.TrimAll | src/custom-heatmap.js:162 | There is one trimmed piece per piece, with no whitespace at either end. |
| Colors.ColorList | src/custom-heatmap.js:162-165 | There is one colour per comma-separated piece, none with whitespace at either end. |
| Colors.ReverseInPlace | src/custom-heatmap.js:163-165 | After `reverse()`, the array holds the reverse of its old contents. |
| Colors.NewColorArray | src/custom-heatmap.js:162 | `map` allocates a fresh array holding the trimmed pieces. |
| Colors.ParseColors | src/custom-heatmap.js:161-165 | The method falls back to the default, splits, trims and optionally reverses in place. Its result is the colour list of the resolved option text. |
| Colors.ColorCount | src/custom-heatmap.js:162 | There is one colour per comma-separated piece. |
| Colors.ColorsAreTrimmedPieces | src/custom-heatmap.js:162 | Colour `k` is piece `k` without its surrounding whitespace. It holds no comma. |
| Colors.ReversedColors | src/custom-heatmap.js:163-165 | With `reverse_colors` on, the list is the exact reverse of the unreversed one. |
| Colors.ThreeColors | src/custom-heatmap.js:162-165 | Three clean colours written with ", " between them parse back to themselves, in order or reversed. |
| Colors.DefaultColors | src/custom-heatmap.js:93 | The declared default gives `#EB8230`, `#EB8C00`, `#FFB600`, or that list reversed. |
| View.ApplyStyle | src/custom-heatmap.js:169-195 | The style callback returns the region's style. It rewrites the tooltip of a region with data and leaves other regions' tooltips alone. |
| View.ApplyStyleCleared | src/custom-heatmap.js:224-225 | The corrected style callback: a region's tooltip is non-empty exactly when the region has a value. |
| View.StyleLayer | src/custom-heatmap.js:221-225 | Each kept region is styled in order. Each layer entry carries that region's style and is interactive exactly when the region's tooltip is truthy afterwards. |
| View.HeatmapView.constructor | src/custom-heatmap.js:128 | The visualization starts with no layer and no legend. It holds the one shared list of GeoJSON features that every refresh draws from. |
| View.HeatmapView.Update | src/custom-heatmap.js:131-292 | After one refresh, the layer is the styled kept regions in order, and every shared feature's tooltip follows the as-written rule. The legend holds the measure label, the colour list and the domain of the rows. |
| View.StaleTooltipScenario | src/custom-heatmap.js:185-225 | Refreshing with [France 5] and then [Spain 3], with blank-region gridlines on, leaves France without a value but interactive. Clicking it toggles an absent key. |

## Left out

- Leaflet, the DOM and the Looker host:
  - map creation and zoom settings;
  - layer and control removal;
  - tooltip element creation, visibility, `preventDefault` and `stopPropagation`;
  - `console.log`;
  - the `toggleCrossfilter` call itself, which the model reduces to the key it would be passed.
- The option metadata, except the default colour string.
- The legend's DOM: the gradient and the rounded min and max labels. The model keeps what the legend is drawn from.
- The colour library is a parameter `chroma(colors, min, max)` returning an opaque scale. Its colour interpolation, `.hex()` and invalid-colour handling are not modelled.
- `toLocaleString` is an opaque `format` parameter.
- Rows are taken already reduced to (country, integer value).
  - Non-numeric, null, NaN and fractional measures are not modelled.
  - JavaScript comparisons involving them are not modelled.
- Keys inherited from `Object.prototype` are not modelled. A region named like one (`constructor`) would be found by the code's `in` test and its plain-object lookup.
- The lookup of an absent `name2` (`countryData[undefined]`) is modelled as "no value". The model does not capture the entry a row with the country `"undefined"` would create.
- `pageX`, `pageY` and the widths are integers; fractional pixel values are not modelled.
- Features whose geometry Leaflet skips are not modelled. The model treats every kept feature as added to the layer.
- The GeoJSON file's contents are not part of this model. The features are taken as given, each with a name and an optional alias.
- View.HeatmapView.Update: follows the code as written, so it keeps stale tooltips. The corrected rule is given by `Styling.ClearedTooltip` and `View.ApplyStyleCleared`.

## Findings

| source | as written | input that shows it | evidently intended | confidence | as-written member | corrected member |
|---|---|---|---|---|---|---|
| src/custom-heatmap.js:192 | The style callback writes `tooltipContent` onto the shared, module-level feature only when the region has a value and never clears it. `onEachFeature` then gives a tooltip and a click handler to every feature whose `tooltipContent` is truthy. | Turn `show_gridlines_on_blank_regions` on, refresh with the rows [France 5], then refresh with [Spain 3]. France keeps the first refresh's tooltip and click handler, and a click toggles the key `name2` (absent). | As the comment at line 224 says, only a region with data gets a tooltip: a region without a value has its tooltip cleared. | medium, not executed | View.StaleTooltipScenario | View.ApplyStyleCleared |
