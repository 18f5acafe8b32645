# Histogram renderers of Superset, modelled in Dafny

This project models the data-shaping logic of Superset's two D3 histogram
visualisations and proves properties about it.

- `histogram.js` is the single-configuration renderer. It uses one bin count
  for all series. It can normalise counts to fractions of the series length.
  Its x-domain spans every value.
- `histogram_2.js` is the multi-configuration renderer. It takes a bin count
  and an opacity per series, or a single value broadcast to all series. Form
  fields can override the x-domain, and values outside the domain are dropped
  before binning. Each series gets a legend swatch whose clicks hide and show
  that series' bars.

Numbers are Dafny `real`s. JavaScript `undefined` (from `d3.min`/`d3.max` on
nothing) and `NaN` (from `Number(...)` on a non-number) are written `None`.
`d3.scale.linear` is the affine map of `D3.Linear`. Its single-point domain
sends every value to the start of the range.

`d3.layout.histogram` is not part of this model: a render receives it as a
function `hist` from a list of values and a bin count to the bins, and
applies it to each series' values (in `histogram_2.js`, to the values inside
the domain). The
colour-scheme lookup is a parameter `colorOf`, and the plot width and height
are plain numbers.

Modules:

- `D3` (`d3.dfy`): `d3.min`, `d3.max`, their accessor forms, and the linear scale.
- `Js` (`js.dfy`): the `Number(v) || fallback` idiom.
- `Geometry` (`geometry.dfy`): series, bins, rectangles, concatenation in
  series order, and the shared y scale.
- `Histogram` (`histogram.dfy`): the single-configuration renderer.
- `Histogram2` (`histogram2.dfy`): the multi-configuration renderer.
- `Legend` (`legend.dfy`): the `legend_clicked` handler and the swatch click handler.

Three facts about the code shape the model:

- The code keeps no VISIBLE/HIDDEN flag per key. A swatch click dispatches
  `legend_clicked` and then sets the swatch's own fill-opacity o to 1 - o.
  The bars change only through the dispatched handler (`Legend.SwatchClick`).
- The handler reads the fill-opacity of the first bar of the key. When no bar
  has that key, the read throws before the swatch is updated, so nothing
  changes.
- The code does not reject a bin count of 0 or per-series lists of the wrong
  length. `parseEntry` passes any list through unchanged
  (`Histogram2.ParseEntry`). A `link_length` of 0 falls back to 10
  (`Histogram.NumBins`).

## Model

| member | source | states |
|---|---|---|
| `Js.NumberOr` | superset/assets/visualizations/histogram.js:127 | a non-zero number override is kept; 0 or a non-number gives the fallback |
| `Js.ZeroOverrideFallsBack` | superset/assets/visualizations/histogram_2.js:45-46 | an override of 0, like a non-number, yields the data bound |
| `D3.Min` | superset/assets/visualizations/histogram.js:39 | `d3.min` is undefined exactly on an empty array, and otherwise an element no larger than any other |
| `D3.Max` | superset/assets/visualizations/histogram.js:38 | `d3.max` is undefined exactly on an empty array, and otherwise an element no smaller than any other |
| `D3.Defined` | superset/assets/visualizations/histogram.js:38-39 | the accessor forms look at exactly the defined per-series results |
| `D3.MinAtMostMax` | superset/assets/visualizations/histogram_2.js:55 | the minimum of the left edges never exceeds their maximum |
| `D3.LinearEndpoints` | superset/assets/visualizations/histogram.js:40-41 | the scale sends the domain bounds to the range bounds |
| `D3.LinearDifference` | superset/assets/visualizations/histogram.js:48 | the difference of two scaled values is their difference times the slope |
| `D3.LinearMonotone` | superset/assets/visualizations/histogram_2.js:55 | an increasing scale keeps the order of the bin edges |
| `D3.LinearWithin` | superset/assets/visualizations/histogram.js:59-60 | a value inside the domain lands between the range bounds, in either orientation |
| `Geometry.Flatten` | superset/assets/visualizations/histogram.js:55 | concatenating the per-series lists gives as many elements as they hold together |
| `Geometry.FlattenPieceAt` | superset/assets/visualizations/histogram.js:44-56 | after the concatenation, series i's list occupies the slice that begins after the lists of the earlier series |
| `Geometry.FlattenAlong` | superset/assets/visualizations/histogram_2.js:51-59 | the concatenated bars hold each series' bars at the offset of that series' bins |
| `Geometry.FlattenContains` | superset/assets/visualizations/histogram_2.js:41-44 | a value is in the concatenation exactly when some piece holds it |
| `Geometry.InAllValues` | superset/assets/visualizations/histogram_2.js:42-44 | `allData` holds exactly the values of the series |
| `Geometry.BarHeightProportional` | superset/assets/visualizations/histogram_2.js:62-63 | bar height is the count's share of the largest count times the plot height, and 0 when the largest count is 0 |
| `Geometry.BarHeightWithin` | superset/assets/visualizations/histogram.js:95 | a count between 0 and the largest count gives a height between 0 and the plot height |
| `Geometry.TallestBarFillsPlot` | superset/assets/visualizations/histogram.js:59-60 | the bar of the largest count spans the whole plot height |
| `Geometry.Place` | superset/assets/visualizations/histogram.js:92-95 | a rectangle sits at x of the bin's left edge and y of its count, its top plus its height is the baseline, and its width is the bar's width |
| `Geometry.SharedYScale` | superset/assets/visualizations/histogram_2.js:62-63 | the y scale runs from 0 to the largest count of any bar of any series, onto [height, 0] |
| `Geometry.Rects` | superset/assets/visualizations/histogram.js:92-95 | there is one rectangle per bar, at x of the bin's left edge and y of its count, with the bar's width, standing on the baseline, as tall as the baseline minus y of the count |
| `Geometry.RectWithinPlot` | superset/assets/visualizations/histogram.js:59-60 | on the shared y scale, a bar with a non-negative count stands between the baseline and the top of the plot |
| `Histogram.NumBins` | superset/assets/visualizations/histogram.js:127 | the bin count is the `link_length` override when it is a non-zero number and 10 otherwise, so it is never 0 |
| `Histogram.NumTicks` | superset/assets/visualizations/histogram.js:22-23 | the tick count is at most 20 and at most the bin count, and it equals one of them |
| `Histogram.MinOfMins` | superset/assets/visualizations/histogram.js:39 | the minimum over series of their minima is the minimum of all values, and is undefined exactly when there are none |
| `Histogram.MaxOfMaxes` | superset/assets/visualizations/histogram.js:38 | the maximum over series of their maxima is the maximum of all values, and is undefined exactly when there are none |
| `Histogram.XDomain` | superset/assets/visualizations/histogram.js:38-40 | the x-domain is the least and the greatest of all values, and undefined exactly when no series has a value |
| `Histogram.ValuesWithinDomain` | superset/assets/visualizations/histogram.js:38-40 | every value of every series lies inside the x-domain |
| `Histogram.BarWidth` | superset/assets/visualizations/histogram.js:48 | the bar width is never negative, is at least one bin's pixel width less 1, and equals one of those two |
| `Histogram.BarWidthPixels` | superset/assets/visualizations/histogram.js:48 | on an x scale of a given plot width, the bar width is dx's share of the domain in pixels less 1, clamped at 0; it is 0 for a single-point domain |
| `Histogram.Normalize` | superset/assets/visualizations/histogram.js:51-54 | normalising keeps each bin's x and dx, and its count times the series length gives back the raw count |
| `Histogram.NormalizedIsFraction` | superset/assets/visualizations/histogram.js:52-53 | a count between 0 and the series length becomes a fraction between 0 and 1 |
| `Histogram.SeriesBars` | superset/assets/visualizations/histogram.js:45-55 | each bar of a series keeps its bin (or its normalised bin) and gains the series' key, colour and shared width |
| `Histogram.PerSeries` | superset/assets/visualizations/histogram.js:45-56 | there is one bar list per series, as long as that series' bins |
| `Histogram.Layout` | superset/assets/visualizations/histogram.js:44-56 | the bars are the per-series bar lists laid end to end in series order |
| `Histogram.LayoutNonEmpty` | superset/assets/visualizations/histogram.js:44-56 | with at least one series there is at least one bar |
| `Histogram.SeriesCountNonNegative` | superset/assets/visualizations/histogram.js:51-55 | a bar has a non-negative count when its bin has one, whether or not the counts are normalised |
| `Histogram.LayoutCountsNonNegative` | superset/assets/visualizations/histogram.js:44-56 | every laid-out bar has a non-negative count when every bin does |
| `Histogram.Plot` | superset/assets/visualizations/histogram.js:44-95 | the chart drawn from given bins has the laid-out bars, y from [0, largest count] onto [height, 0], and one rectangle per bar, each standing on the baseline |
| `Histogram.Draw` | superset/assets/visualizations/histogram.js:22-95 | a render exists exactly when some series has a value; it has the capped tick count, x over the data range onto [0, width], the bars laid out from the layout of each series' values, y from [0, largest count] onto [height, 0], and one rectangle per bar |
| `Histogram.DrawCoversValues` | superset/assets/visualizations/histogram.js:38-41 | every value of every series produces a render whose x-domain contains that value |
| `Histogram.DrawBarsWithinPlot` | superset/assets/visualizations/histogram.js:59-95 | when some series has a value and the layout's counts are non-negative, every bar of the render has a height between 0 and the plot height, normalised or not |
| `Histogram2.ParseEntry` | superset/assets/visualizations/histogram_2.js:154-162 | a single value is repeated once per series; any other list is returned unchanged, whatever its length |
| `Histogram2.ParseEntryIdempotent` | superset/assets/visualizations/histogram_2.js:157-161 | parsing an already parsed entry changes nothing |
| `Histogram2.ParseEntryAligned` | superset/assets/visualizations/histogram_2.js:164-166 | a broadcast value, or a list with one entry per series, gives series i its entry |
| `Histogram2.DomainMin` | superset/assets/visualizations/histogram_2.js:45 | the lower bound is `xmin` when that is a non-zero number, and otherwise the minimum of all values (undefined when there are none) |
| `Histogram2.DomainMax` | superset/assets/visualizations/histogram_2.js:46 | the upper bound is `xmax` when that is a non-zero number, and otherwise the maximum of all values (undefined when there are none) |
| `Histogram2.InDomain` | superset/assets/visualizations/histogram_2.js:54 | the kept values are exactly the input values in the closed domain, no more of them than the input |
| `Histogram2.InDomainAppend` | superset/assets/visualizations/histogram_2.js:54 | the filter keeps the input order: filtering a concatenation concatenates the filtered parts |
| `Histogram2.InDomainSingle` | superset/assets/visualizations/histogram_2.js:54 | a single value is kept exactly when min <= v <= max |
| `Histogram2.InDomainKeepsAll` | superset/assets/visualizations/histogram_2.js:54 | values already inside the domain all survive, in order |
| `Histogram2.NoOverrideKeepsAll` | superset/assets/visualizations/histogram_2.js:45-54 | without overrides no value of any series is dropped |
| `Histogram2.Spread` | superset/assets/visualizations/histogram_2.js:55 | the spread is the difference of two left edges and no two left edges lie further apart, so it is the largest edge less the smallest; it is never negative |
| `Histogram2.Share` | superset/assets/visualizations/histogram_2.js:55 | nine tenths of the spread divided by the bin count, multiplied back, gives nine tenths of the spread; it is non-negative for a positive bin count |
| `Histogram2.BarWidth` | superset/assets/visualizations/histogram_2.js:55 | the bar width is nine tenths of the spread of the bins' left edges divided by the bin count, and non-negative whenever the bin count is positive |
| `Histogram2.BarWidthAscending` | superset/assets/visualizations/histogram_2.js:55 | for ordered bins on an increasing scale, the width is nine tenths of the first-to-last left-edge distance per bin |
| `Histogram2.SeriesBars` | superset/assets/visualizations/histogram_2.js:52-58 | each bar keeps its bin unchanged and gains the series' key, colour, shared width and opacity |
| `Histogram2.PerSeries` | superset/assets/visualizations/histogram_2.js:52-59 | there is one bar list per series, as long as that series' bins |
| `Histogram2.Layout` | superset/assets/visualizations/histogram_2.js:51-59 | the bars are the per-series bar lists laid end to end in series order |
| `Histogram2.LayoutCountsNonNegative` | superset/assets/visualizations/histogram_2.js:51-59 | every laid-out bar has a non-negative count when every bin does |
| `Histogram2.Plot` | superset/assets/visualizations/histogram_2.js:51-101 | the chart drawn from given bins has the laid-out bars, y from [0, largest count] onto [height, 0], and one rectangle per bar, each standing on the baseline |
| `Histogram2.Draw` | superset/assets/visualizations/histogram_2.js:40-101 | a render has x over the (possibly overridden) domain onto [0, width], the bars laid out from the layout of each series' values inside that domain, y from [0, largest count] onto [height, 0], and one rectangle per bar; it exists exactly when there is a series and either some value or both bounds are overridden by non-zero numbers |
| `Histogram2.DrawBinsEveryValue` | superset/assets/visualizations/histogram_2.js:45-54 | without overrides, the layout of every series in a render is handed all of that series' values |
| `Histogram2.DrawBarsWithinPlot` | superset/assets/visualizations/histogram_2.js:62-101 | when a render exists and the layout's counts are non-negative, every bar of the render has a height between 0 and the plot height |
| `Legend.Drawn` | superset/assets/visualizations/histogram_2.js:103 | every bar is first drawn at its own series' opacity, so every key shows |
| `Legend.FirstOf` | superset/assets/visualizations/histogram_2.js:126-128 | the bar whose style is read is the first one of the key; there is none exactly when no bar has the key |
| `Legend.FirstOfSameBars` | superset/assets/visualizations/histogram_2.js:126-128 | which bar is read depends on the keys only, not on the current fills |
| `Legend.LegendClicked` | superset/assets/visualizations/histogram_2.js:125-130 | bars of other keys are unchanged; if the first bar of the key is at 0, all bars of the key return to their own opacity, and otherwise all go to 0; a key with no bar changes nothing |
| `Legend.LegendClickedFlips` | superset/assets/visualizations/histogram_2.js:128-129 | a shown key becomes hidden and a hidden key becomes shown |
| `Legend.LegendClickedTwice` | superset/assets/visualizations/histogram_2.js:125-130 | two dispatches for a key that is uniformly shown or hidden restore every bar |
| `Legend.SwatchClick` | superset/assets/visualizations/histogram_2.js:145-149 | the bars change as `legend_clicked` changes them; the swatch goes from o to 1 - o; other swatches keep their opacity; a key with no bar changes nothing |
| `Legend.SwatchClickTwice` | superset/assets/visualizations/histogram_2.js:145-149 | two clicks on a swatch restore both the swatch and the bars |
| `Legend.ClicksAlternate` | superset/assets/visualizations/histogram_2.js:145-149 | after an even number of clicks the chart is as it was; after an odd number it is as after one click |
| `Legend.DrawnThenClicked` | superset/assets/visualizations/histogram_2.js:103-149 | on a freshly drawn chart, after n swatch clicks the key shows and its swatch is at o when n is even; the key is hidden and its swatch is at 1 - o when n is odd; other keys' bars and swatches are untouched |

## Left out

- SVG and DOM construction, CSS, margins, background rectangles, axes, tick
  formatting and the x-axis label. These are rendering side effects. The
  tick caps of `histogram_2.js` (20 and 10) only feed the axes.
- The nvd3 legend layout and `getColorFromScheme`. These are foreign
  libraries; colour is the parameter `colorOf`.
- The internals of `d3.layout.histogram`. It is the parameter `hist`, so
  nothing is claimed about bin counts or their sum. The renders take as a
  premise that it gives at least one bin, whatever the values, at each bin
  count the render asks for (`Geometry.YieldsBins`); d3's own layout does so
  for every count of at least 1. The bar-height lemmas take non-negative counts
  (`Geometry.CountsNonNegative`) as a premise about its output.
- `JSON.parse` in `parseEntry`. Only the already parsed list is modelled.
- `console.log` in `parseEntry`.
- The `.style("opacity", opacity)` array assignment on the swatches
  (`histogram_2.js` line 144). Swatches start from a given fill-opacity map.
- IEEE floating point: rounding, infinities, and NaN propagating through
  arithmetic. Numbers are reals.
- `d3.scale.linear` dividing by a zero-width domain. The model sends every value
  to the start of the range.
- Selection of bars by CSS class across the whole document, and the escaping
  of keys that are not valid class names. Bars are selected by key equality.
- The clamping of fill-opacity to [0, 1] by the browser.
- Histogram.Draw: requires the layout to give at least one bin at the
  render's bin count, and a non-empty series wherever counts are normalised. The code would otherwise read `b[0]` of an empty list or divide
  by a zero length. When no series has a value, the render is `None`, and
  nothing is said about what the browser draws.
- Histogram2.Draw: requires a non-zero bin count for every series, a layout
  that gives at least one bin at each series' bin count, and a bin count and
  an opacity entry for each series. The code would otherwise read past the end of the lists or
  divide by 0. When a domain
  bound is undefined, the render is `None`, and nothing is said about what the
  browser draws.
- Legend.SwatchClick: requires the clicked key to have a swatch. Every swatch in
  the code is bound to a series key.
