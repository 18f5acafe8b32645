/**
 * The multi-configuration renderer: a bin count and an opacity per series
 * (or one of each broadcast to all), an x-domain that form overrides may
 * replace, values outside the domain dropped before binning, and bars that
 * carry their series' opacity for the legend to toggle.
 *
 * As in the single-configuration renderer, `d3.layout.histogram` is a
 * function `hist` given to the render, and `binned[i]` is what it returned
 * for the values handed to it for series i.
 */
module Histogram2 {
  import opened Js
  import opened D3
  import opened Geometry

  /** A bin as drawn: the histogram bin plus its series' colour, bar width, key and opacity. */
  datatype Bar = Bar(bin: Bin, color: Color, width: real, key: Key, opacity: real)

  /** What one render lays out: both scales, the bars and their rectangles. */
  datatype Chart = Chart(x: Linear, y: Linear, bars: seq<Bar>, rects: seq<Rect>)

  // ---------------------------------------------------------------------------
  // Configuration
  // ---------------------------------------------------------------------------

  /**
   * `parseEntry` after its JSON decoding: a single value is repeated once per
   * series, any other list passes through as it is, whatever its length.
   */
  function ParseEntry<T>(parsed: seq<T>, numSeries: nat): (r: seq<T>)
    ensures |parsed| == 1 ==> |r| == numSeries && forall j :: 0 <= j < |r| ==> r[j] == parsed[0]
    ensures |parsed| != 1 ==> r == parsed
  {
    if |parsed| == 1 then
      var v := parsed[0];
      seq(numSeries, _ => v)
    else parsed
  }

  /** Parsing an already parsed entry again changes nothing. */
  lemma ParseEntryIdempotent<T>(parsed: seq<T>, numSeries: nat)
    ensures ParseEntry(ParseEntry(parsed, numSeries), numSeries) == ParseEntry(parsed, numSeries)
  {
    if |parsed| == 1 && numSeries == 1 {
      assert ParseEntry(parsed, numSeries) == parsed;
    }
  }

  /** A broadcast value or a list with one entry per series gives entry i to series i. */
  lemma ParseEntryAligned<T>(parsed: seq<T>, numSeries: nat, i: int)
    requires |parsed| == 1 || |parsed| == numSeries
    requires 0 <= i < numSeries
    ensures |ParseEntry(parsed, numSeries)| == numSeries
    ensures ParseEntry(parsed, numSeries)[i] == if |parsed| == 1 then parsed[0] else parsed[i]
  {
  }

  // ---------------------------------------------------------------------------
  // x-domain
  // ---------------------------------------------------------------------------

  /** The lower domain bound: the xmin form field when it reads as a non-zero number, else the least value of all series. */
  function DomainMin(xmin: Option<real>, data: seq<Series>): (r: Option<real>)
    ensures Js.Truthy(xmin) ==> r == xmin
    ensures !Js.Truthy(xmin) ==> (r.None? <==> |AllValues(data)| == 0)
    ensures !Js.Truthy(xmin) && r.Some? ==> IsMinOf(r.value, AllValues(data))
  {
    Js.NumberOr(xmin, Min(AllValues(data)))
  }

  /** The upper domain bound: the xmax form field when it reads as a non-zero number, else the greatest value of all series. */
  function DomainMax(xmax: Option<real>, data: seq<Series>): (r: Option<real>)
    ensures Js.Truthy(xmax) ==> r == xmax
    ensures !Js.Truthy(xmax) ==> (r.None? <==> |AllValues(data)| == 0)
    ensures !Js.Truthy(xmax) && r.Some? ==> IsMaxOf(r.value, AllValues(data))
  {
    Js.NumberOr(xmax, Max(AllValues(data)))
  }

  // ---------------------------------------------------------------------------
  // Values handed to binning
  // ---------------------------------------------------------------------------

  /** The values inside the closed domain [lo, hi], in their original order. */
  function InDomain(values: seq<real>, lo: real, hi: real): (r: seq<real>)
    ensures |r| <= |values|
    ensures forall j :: 0 <= j < |r| ==> lo <= r[j] <= hi
    ensures forall v :: v in r <==> v in values && lo <= v <= hi
  {
    if |values| == 0 then []
    else
      var rest := InDomain(values[..|values| - 1], lo, hi);
      var v := values[|values| - 1];
      if lo <= v && v <= hi then rest + [v] else rest
  }

  /** Filtering a concatenation filters each part and keeps their order. */
  lemma {:induction false} InDomainAppend(a: seq<real>, b: seq<real>, lo: real, hi: real)
    ensures InDomain(a + b, lo, hi) == InDomain(a, lo, hi) + InDomain(b, lo, hi)
  {
    if |b| == 0 {
      assert a + b == a;
    } else {
      var n := |b|;
      assert (a + b)[..|a + b| - 1] == a + b[..n - 1];
      InDomainAppend(a, b[..n - 1], lo, hi);
    }
  }

  /** A single value is kept exactly when it lies in the closed domain. */
  lemma InDomainSingle(v: real, lo: real, hi: real)
    ensures InDomain([v], lo, hi) == if lo <= v <= hi then [v] else []
  {
  }

  /** Values already inside the domain all survive, in order. */
  lemma {:induction false} InDomainKeepsAll(values: seq<real>, lo: real, hi: real)
    requires forall j :: 0 <= j < |values| ==> lo <= values[j] <= hi
    ensures InDomain(values, lo, hi) == values
  {
    if |values| > 0 {
      var n := |values|;
      InDomainKeepsAll(values[..n - 1], lo, hi);
      assert values[..n - 1] + [values[n - 1]] == values;
    }
  }

  /** The values of series i that are handed to `d3.layout.histogram`. */
  function BinInput(data: seq<Series>, i: int, lo: real, hi: real): seq<real>
    requires 0 <= i < |data|
  {
    InDomain(data[i].values, lo, hi)
  }

  /** Without overrides the domain is the data's own range, so no value is dropped. */
  lemma NoOverrideKeepsAll(xmin: Option<real>, xmax: Option<real>, data: seq<Series>, i: int)
    requires !Js.Truthy(xmin) && !Js.Truthy(xmax)
    requires 0 <= i < |data|
    requires |AllValues(data)| > 0
    ensures BinInput(data, i, DomainMin(xmin, data).value, DomainMax(xmax, data).value) == data[i].values
  {
    var lo := DomainMin(xmin, data).value;
    var hi := DomainMax(xmax, data).value;
    var all := AllValues(data);
    forall j | 0 <= j < |data[i].values|
      ensures lo <= data[i].values[j] <= hi
    {
      InAllValues(data, data[i].values[j]);
      var k :| 0 <= k < |all| && all[k] == data[i].values[j];
    }
    InDomainKeepsAll(data[i].values, lo, hi);
  }

  // ---------------------------------------------------------------------------
  // Bins of one series
  // ---------------------------------------------------------------------------

  /** The pixel positions of the bins' left edges on the x scale. */
  function Lefts(x: Linear, b: seq<Bin>): (r: seq<real>)
    ensures |r| == |b|
  {
    seq(|b|, j requires 0 <= j < |b| => x.Apply(b[j].x))
  }

  /**
   * The largest left edge less the smallest one: how far apart the outermost
   * left edges lie. It is the difference of two edges, and no two edges lie
   * further apart.
   */
  function Spread(lefts: seq<real>): (r: real)
    requires |lefts| > 0
    ensures r >= 0.0
    ensures exists j, k :: 0 <= j < |lefts| && 0 <= k < |lefts| && r == lefts[j] - lefts[k]
    ensures forall j, k :: 0 <= j < |lefts| && 0 <= k < |lefts| ==> lefts[j] - lefts[k] <= r
  {
    MinAtMostMax(lefts);
    var hi := Max(lefts).value;
    var lo := Min(lefts).value;
    var j :| 0 <= j < |lefts| && lefts[j] == hi;
    var k :| 0 <= k < |lefts| && lefts[k] == lo;
    hi - lo
  }

  /** Nine tenths of a spread, shared out over n bins. */
  function Share(spread: real, n: real): (w: real)
    requires n != 0.0
    ensures w * n == 0.9 * spread
    ensures spread >= 0.0 && n > 0.0 ==> w >= 0.0
  {
    0.9 * spread / n
  }

  /**
   * The bar width of one series: nine tenths of the pixel distance between
   * the outermost left edges, divided by the series' bin count.
   */
  function BarWidth(x: Linear, b: seq<Bin>, numBins: real): (w: real)
    requires |b| > 0 && numBins != 0.0
    ensures w == 0.9 * Spread(Lefts(x, b)) / numBins
    ensures numBins > 0.0 ==> w >= 0.0
  {
    var spread := Spread(Lefts(x, b));
    Share(spread, numBins)
  }

  /** Bins ordered by their left edge, as `d3.layout.histogram` lays them out. */
  predicate Ascending(b: seq<Bin>)
  {
    forall j, k :: 0 <= j <= k < |b| ==> b[j].x <= b[k].x
  }

  /**
   * With bins in ascending order on an increasing scale, the width is nine
   * tenths of the distance from the first to the last left edge, per bin.
   */
  lemma BarWidthAscending(x: Linear, b: seq<Bin>, numBins: real)
    requires |b| > 0 && numBins != 0.0
    requires Ascending(b)
    requires x.d0 < x.d1 && x.r0 <= x.r1
    ensures BarWidth(x, b, numBins) == 0.9 * (x.Apply(b[|b| - 1].x) - x.Apply(b[0].x)) / numBins
  {
    var ls := Lefts(x, b);
    var n := |b|;
    forall j | 0 <= j < n
      ensures ls[0] <= ls[j] <= ls[n - 1]
    {
      LinearMonotone(x, b[0].x, b[j].x);
      LinearMonotone(x, b[j].x, b[n - 1].x);
    }
    assert IsMinOf(ls[0], ls);
    assert IsMaxOf(ls[n - 1], ls);
    ExtremaUnique(ls, ls[0], Min(ls).value);
    ExtremaUnique(ls, ls[n - 1], Max(ls).value);
  }

  /**
   * The bars of one series: its bins unchanged, each tagged with the
   * series' colour, bar width, key and opacity.
   */
  function SeriesBars(d: Series, b: seq<Bin>, x: Linear, numBins: real, opacity: real, colorOf: Key -> Color): (r: seq<Bar>)
    requires |b| > 0 && numBins != 0.0
    ensures |r| == |b|
    ensures forall j :: 0 <= j < |b| ==>
      && r[j].bin == b[j]
      && r[j].key == d.key
      && r[j].color == colorOf(d.key)
      && r[j].width == BarWidth(x, b, numBins)
      && r[j].opacity == opacity
  {
    var w := BarWidth(x, b, numBins);
    seq(|b|, j requires 0 <= j < |b| => Bar(b[j], colorOf(d.key), w, d.key, opacity))
  }

  // ---------------------------------------------------------------------------
  // All series
  // ---------------------------------------------------------------------------

  /** What the per-series steps need: a non-empty bin list, a non-zero bin count and an opacity per series. */
  predicate WellBinned(data: seq<Series>, binned: seq<seq<Bin>>, numBins: seq<real>, opacity: seq<real>)
  {
    && |binned| == |data|
    && |numBins| >= |data|
    && |opacity| >= |data|
    && (forall i :: 0 <= i < |binned| ==> |binned[i]| > 0)
    && (forall i :: 0 <= i < |data| ==> numBins[i] != 0.0)
  }

  /** The bars of each series, in series order. */
  function PerSeries(data: seq<Series>, binned: seq<seq<Bin>>, numBins: seq<real>, opacity: seq<real>,
                     x: Linear, colorOf: Key -> Color): (r: seq<seq<Bar>>)
    requires WellBinned(data, binned, numBins, opacity)
    ensures |r| == |binned|
    ensures forall i :: 0 <= i < |r| ==> |r[i]| == |binned[i]|
    ensures forall i :: 0 <= i < |r| ==>
      r[i] == SeriesBars(data[i], binned[i], x, numBins[i], opacity[i], colorOf)
  {
    seq(|data|, i requires 0 <= i < |data| =>
      SeriesBars(data[i], binned[i], x, numBins[i], opacity[i], colorOf))
  }

  /** The bars of all series, each series' bars appended in series order. */
  function Layout(data: seq<Series>, binned: seq<seq<Bin>>, numBins: seq<real>, opacity: seq<real>,
                  x: Linear, colorOf: Key -> Color): (r: seq<Bar>)
    requires WellBinned(data, binned, numBins, opacity)
    ensures LaidOut(r, binned, PerSeries(data, binned, numBins, opacity, x, colorOf))
  {
    var per := PerSeries(data, binned, numBins, opacity, x, colorOf);
    FlattenAlong(per, binned);
    Flatten(per)
  }

  /** The bins of the bars, in order. */
  function Bins(bars: seq<Bar>): seq<Bin>
  {
    seq(|bars|, k requires 0 <= k < |bars| => bars[k].bin)
  }

  /** The widths of the bars, in order. */
  function Widths(bars: seq<Bar>): seq<real>
  {
    seq(|bars|, k requires 0 <= k < |bars| => bars[k].width)
  }


  /** A bin count and an opacity for every series, and no bin count of 0. */
  predicate Configured(data: seq<Series>, numBins: seq<real>, opacity: seq<real>)
  {
    && |numBins| >= |data|
    && |opacity| >= |data|
    && (forall i :: 0 <= i < |data| ==> numBins[i] != 0.0)
  }

  /** The bins of each series: the layout applied to the series' values inside [lo, hi], with its own bin count. */
  function Binned(data: seq<Series>, hist: (seq<real>, real) -> seq<Bin>, numBins: seq<real>, lo: real, hi: real): (r: seq<seq<Bin>>)
    requires |numBins| >= |data|
    ensures |r| == |data|
    ensures forall i :: 0 <= i < |data| ==> r[i] == hist(BinInput(data, i, lo, hi), numBins[i])
  {
    seq(|data|, i requires 0 <= i < |data| => hist(BinInput(data, i, lo, hi), numBins[i]))
  }

  /** A layout that yields bins for a non-zero bin count gives every series a bin list the bar steps accept. */
  lemma BinnedWell(data: seq<Series>, hist: (seq<real>, real) -> seq<Bin>, numBins: seq<real>, opacity: seq<real>, lo: real, hi: real)
    requires Configured(data, numBins, opacity) && forall i :: 0 <= i < |data| ==> YieldsBins(hist, numBins[i])
    ensures WellBinned(data, Binned(data, hist, numBins, lo, hi), numBins, opacity)
  {
    var binned: seq<seq<Bin>> := Binned(data, hist, numBins, lo, hi);
    forall i | 0 <= i < |binned|
      ensures |binned[i]| > 0
    {
      assert binned[i] == hist(BinInput(data, i, lo, hi), numBins[i]);
    }
  }

  /** A layout of non-negative counts gives every series non-negative counts. */
  lemma BinnedCountsNonNegative(data: seq<Series>, hist: (seq<real>, real) -> seq<Bin>, numBins: seq<real>, lo: real, hi: real)
    requires |numBins| >= |data|
    requires CountsNonNegative(hist)
    ensures NonNegativeCounts(Binned(data, hist, numBins, lo, hi))
  {
    var binned: seq<seq<Bin>> := Binned(data, hist, numBins, lo, hi);
    forall i: int, j: int | 0 <= i < |binned| && 0 <= j < |binned[i]|
      ensures binned[i][j].y >= 0.0
    {
      var vs := BinInput(data, i, lo, hi);
      var n := numBins[i];
      assert binned[i] == hist(vs, n);
      assert CountsNonNegative(hist);
      assert hist(vs, n)[j].y >= 0.0;
    }
  }

  /**
   * The chart drawn from bins already computed: the bars of all series on the
   * given x scale, the y scale shared by all of them, and one rectangle per bar.
   */
  function Plot(data: seq<Series>, binned: seq<seq<Bin>>, numBins: seq<real>, opacity: seq<real>,
                x: Linear, height: real, colorOf: Key -> Color): (c: Chart)
    requires WellBinned(data, binned, numBins, opacity) && |data| > 0
    ensures c.x == x
    ensures c.bars == Layout(data, binned, numBins, opacity, x, colorOf)
    ensures c.y.d0 == 0.0 && IsMaxOf(c.y.d1, Counts(Bins(c.bars)))
    ensures c.y.r0 == height && c.y.r1 == 0.0
    ensures c.rects == Rects(c.x, c.y, Bins(c.bars), Widths(c.bars))
    ensures |c.rects| == |c.bars| > 0
    ensures forall k :: 0 <= k < |c.rects| ==> c.rects[k].y + c.rects[k].height == height
  {
    var bars := Layout(data, binned, numBins, opacity, x, colorOf);
    StartBound(binned, 0);
    var y := SharedYScale(Bins(bars), height);
    var rects := Rects(x, y, Bins(bars), Widths(bars));
    Chart(x, y, bars, rects)
  }

  /**
   * The render: the x scale over the (possibly overridden) domain, the bars
   * of all series binned by `hist` from their in-domain values, the y scale
   * shared by all of them, and one rectangle per bar. Undefined when a
   * domain bound is undefined or there is no series.
   */
  function Draw(data: seq<Series>, hist: (seq<real>, real) -> seq<Bin>, numBins: seq<real>, opacity: seq<real>,
                xmin: Option<real>, xmax: Option<real>, width: real, height: real,
                colorOf: Key -> Color): (r: Option<Chart>)
    requires Configured(data, numBins, opacity) && forall i :: 0 <= i < |data| ==> YieldsBins(hist, numBins[i])
    ensures r.Some? <==> |data| > 0 && (|AllValues(data)| > 0 || (Js.Truthy(xmin) && Js.Truthy(xmax)))
    ensures r.Some? ==> DomainMin(xmin, data) == Some(r.value.x.d0) && DomainMax(xmax, data) == Some(r.value.x.d1)
    ensures r.Some? ==> r.value.x.r0 == 0.0 && r.value.x.r1 == width
    ensures r.Some? ==> WellBinned(data, Binned(data, hist, numBins, r.value.x.d0, r.value.x.d1), numBins, opacity)
    ensures r.Some? ==> r.value.bars == Layout(data, Binned(data, hist, numBins, r.value.x.d0, r.value.x.d1), numBins, opacity, r.value.x, colorOf)
    ensures r.Some? ==> r.value.y.d0 == 0.0 && IsMaxOf(r.value.y.d1, Counts(Bins(r.value.bars)))
    ensures r.Some? ==> r.value.y.r0 == height && r.value.y.r1 == 0.0
    ensures r.Some? ==> r.value.rects == Rects(r.value.x, r.value.y, Bins(r.value.bars), Widths(r.value.bars))
    ensures r.Some? ==> |r.value.rects| == |r.value.bars| > 0
  {
    var lo := DomainMin(xmin, data);
    var hi := DomainMax(xmax, data);
    if lo.None? || hi.None? || |data| == 0 then None
    else
      BinnedWell(data, hist, numBins, opacity, lo.value, hi.value);
      var binned := Binned(data, hist, numBins, lo.value, hi.value);
      Some(Plot(data, binned, numBins, opacity, XScale(lo.value, hi.value, width), height, colorOf))
  }

  /** Without overrides, the layout of every series is handed all of that series' values. */
  lemma DrawBinsEveryValue(data: seq<Series>, hist: (seq<real>, real) -> seq<Bin>, numBins: seq<real>, opacity: seq<real>,
                           xmin: Option<real>, xmax: Option<real>, width: real, height: real,
                           colorOf: Key -> Color, i: int)
    requires Configured(data, numBins, opacity) && forall i :: 0 <= i < |data| ==> YieldsBins(hist, numBins[i])
    requires !Js.Truthy(xmin) && !Js.Truthy(xmax)
    requires 0 <= i < |data| && |AllValues(data)| > 0
    ensures var c := Draw(data, hist, numBins, opacity, xmin, xmax, width, height, colorOf).value;
      Binned(data, hist, numBins, c.x.d0, c.x.d1)[i] == hist(data[i].values, numBins[i])
  {
    NoOverrideKeepsAll(xmin, xmax, data, i);
  }

  /** The bars of a layout of non-negative counts have non-negative counts. */
  lemma LayoutCountsNonNegative(data: seq<Series>, binned: seq<seq<Bin>>, numBins: seq<real>, opacity: seq<real>,
                                x: Linear, colorOf: Key -> Color, k: int)
    requires WellBinned(data, binned, numBins, opacity)
    requires NonNegativeCounts(binned)
    requires 0 <= k < Total(binned)
    ensures k < |Layout(data, binned, numBins, opacity, x, colorOf)|
    ensures Layout(data, binned, numBins, opacity, x, colorOf)[k].bin.y >= 0.0
  {
    var bars := Layout(data, binned, numBins, opacity, x, colorOf);
    assert |bars| == Total(binned);
    var per := PerSeries(data, binned, numBins, opacity, x, colorOf);
    assert bars == Flatten(per);
    var bar := bars[k];
    FlattenContains(per, bar);
    var i :| 0 <= i < |per| && bar in per[i];
    var j :| 0 <= j < |per[i]| && per[i][j] == bar;
  }

  /**
   * The shared y scale: with the non-negative counts of d3's histogram layout
   * and a non-negative plot height, every bar stands between the baseline
   * and the top of the plot.
   */
  lemma DrawBarsWithinPlot(data: seq<Series>, hist: (seq<real>, real) -> seq<Bin>, numBins: seq<real>, opacity: seq<real>,
                           xmin: Option<real>, xmax: Option<real>, width: real, height: real,
                           colorOf: Key -> Color, k: int)
    requires Configured(data, numBins, opacity) && forall i :: 0 <= i < |data| ==> YieldsBins(hist, numBins[i])
    requires CountsNonNegative(hist)
    requires |data| > 0 && (|AllValues(data)| > 0 || (Js.Truthy(xmin) && Js.Truthy(xmax)))
    requires height >= 0.0
    requires 0 <= k < Total(Binned(data, hist, numBins, DomainMin(xmin, data).value, DomainMax(xmax, data).value))
    ensures var c := Draw(data, hist, numBins, opacity, xmin, xmax, width, height, colorOf).value;
      k < |c.rects| && 0.0 <= c.rects[k].height <= height
  {
    var c := Draw(data, hist, numBins, opacity, xmin, xmax, width, height, colorOf).value;
    var binned: seq<seq<Bin>> := Binned(data, hist, numBins, c.x.d0, c.x.d1);
    BinnedWell(data, hist, numBins, opacity, c.x.d0, c.x.d1);
    BinnedCountsNonNegative(data, hist, numBins, c.x.d0, c.x.d1);
    LayoutCountsNonNegative(data, binned, numBins, opacity, c.x, colorOf, k);
    assert Bins(c.bars)[k] == c.bars[k].bin;
    RectWithinPlot(c.x, c.y, Bins(c.bars), Widths(c.bars), k);
  }
}
