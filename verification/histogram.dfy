/**
 * The single-configuration renderer: one bin count shared by every series,
 * optional normalisation of counts to fractions of the series length, and an
 * x-domain spanning every value of every series.
 *
 * The bins themselves come from `d3.layout.histogram`, whose code is not part
 * of this model: the render takes it as a function `hist`, and `binned[i]`
 * is what it returned for series i.
 */
module Histogram {
  import opened Js
  import opened D3
  import opened Geometry

  /** Upper bound on the number of axis ticks. */
  const MaxTicks: real := 20.0

  /** Bin count used when the link_length form field is missing, 0 or not a number. */
  const DefaultBins: real := 10.0

  /** A bin as drawn: the histogram bin plus its series' colour, bar width and key. */
  datatype Bar = Bar(bin: Bin, color: Color, width: real, key: Key)

  /** What one render lays out: the tick count, both scales, the bars and their rectangles. */
  datatype Chart = Chart(numTicks: real, x: Linear, y: Linear, bars: seq<Bar>, rects: seq<Rect>)

  // ---------------------------------------------------------------------------
  // Configuration
  // ---------------------------------------------------------------------------

  /** The bin count: the link_length form field when it reads as a non-zero number, 10 otherwise. */
  function NumBins(linkLength: Option<real>): (r: real)
    ensures r != 0.0
    ensures Js.Truthy(linkLength) ==> r == linkLength.value
    ensures !Js.Truthy(linkLength) ==> r == DefaultBins
  {
    Js.NumberOr(linkLength, Some(DefaultBins)).value
  }

  /** The axis tick count: the smaller of the tick cap and the bin count. */
  function NumTicks(numBins: real): (r: real)
    ensures r <= MaxTicks && r <= numBins
    ensures r == MaxTicks || r == numBins
  {
    Min([MaxTicks, numBins]).value
  }

  // ---------------------------------------------------------------------------
  // x-domain
  // ---------------------------------------------------------------------------

  /** The minimum of each series' values, undefined for an empty series. */
  function SeriesMins(data: seq<Series>): seq<Option<real>>
  {
    seq(|data|, i requires 0 <= i < |data| => Min(data[i].values))
  }

  /** The maximum of each series' values, undefined for an empty series. */
  function SeriesMaxes(data: seq<Series>): seq<Option<real>>
  {
    seq(|data|, i requires 0 <= i < |data| => Max(data[i].values))
  }

  /**
   * The minimum over the series of each series' minimum: `d3.min` with an
   * accessor skips the empty series. It is the minimum of all values taken
   * together.
   */
  lemma MinOfMins(data: seq<Series>)
    ensures Min(Defined(SeriesMins(data))).None? <==> |AllValues(data)| == 0
    ensures Min(Defined(SeriesMins(data))).Some? ==>
      IsMinOf(Min(Defined(SeriesMins(data))).value, AllValues(data))
  {
    var mins := SeriesMins(data);
    var all := AllValues(data);
    if |all| > 0 {
      var v := all[0];
      InAllValues(data, v);
      var i :| 0 <= i < |data| && v in data[i].values;
      assert mins[i] == Some(Min(data[i].values).value);
      assert Min(data[i].values).value in Defined(mins);
    }
    var m := Min(Defined(mins));
    if m.Some? {
      assert Some(m.value) in mins;
      var i :| 0 <= i < |mins| && mins[i] == Some(m.value);
      InAllValues(data, m.value);
      forall k | 0 <= k < |all|
        ensures m.value <= all[k]
      {
        InAllValues(data, all[k]);
        var h :| 0 <= h < |data| && all[k] in data[h].values;
        assert mins[h] == Some(Min(data[h].values).value);
        assert Min(data[h].values).value in Defined(mins);
      }
    }
  }

  /** The maximum over the series of each series' maximum is the maximum of all values. */
  lemma MaxOfMaxes(data: seq<Series>)
    ensures Max(Defined(SeriesMaxes(data))).None? <==> |AllValues(data)| == 0
    ensures Max(Defined(SeriesMaxes(data))).Some? ==>
      IsMaxOf(Max(Defined(SeriesMaxes(data))).value, AllValues(data))
  {
    var maxes := SeriesMaxes(data);
    var all := AllValues(data);
    if |all| > 0 {
      var v := all[0];
      InAllValues(data, v);
      var i :| 0 <= i < |data| && v in data[i].values;
      assert maxes[i] == Some(Max(data[i].values).value);
      assert Max(data[i].values).value in Defined(maxes);
    }
    var m := Max(Defined(maxes));
    if m.Some? {
      assert Some(m.value) in maxes;
      var i :| 0 <= i < |maxes| && maxes[i] == Some(m.value);
      InAllValues(data, m.value);
      forall k | 0 <= k < |all|
        ensures all[k] <= m.value
      {
        InAllValues(data, all[k]);
        var h :| 0 <= h < |data| && all[k] in data[h].values;
        assert maxes[h] == Some(Max(data[h].values).value);
        assert Max(data[h].values).value in Defined(maxes);
      }
    }
  }

  /**
   * The x-domain: the smallest of the series' minima and the largest of their
   * maxima, that is the least and the greatest of all values; undefined when
   * no series has a value.
   */
  function XDomain(data: seq<Series>): (r: Option<(real, real)>)
    ensures r.None? <==> |AllValues(data)| == 0
    ensures r.Some? ==> IsMinOf(r.value.0, AllValues(data)) && IsMaxOf(r.value.1, AllValues(data))
  {
    MinOfMins(data);
    MaxOfMaxes(data);
    var lo := Min(Defined(SeriesMins(data)));
    var hi := Max(Defined(SeriesMaxes(data)));
    if lo.None? || hi.None? then None else Some((lo.value, hi.value))
  }

  /** Every value of every series lies inside the x-domain. */
  lemma ValuesWithinDomain(data: seq<Series>, i: int, j: int)
    requires 0 <= i < |data| && 0 <= j < |data[i].values|
    ensures XDomain(data).Some?
    ensures XDomain(data).value.0 <= data[i].values[j] <= XDomain(data).value.1
  {
    var v := data[i].values[j];
    InAllValues(data, v);
    var all := AllValues(data);
    var k :| 0 <= k < |all| && all[k] == v;
  }

  // ---------------------------------------------------------------------------
  // Bins of one series
  // ---------------------------------------------------------------------------

  /** The pixel width of the first bin's dx less a 1px gap, or 0 when that is negative. */
  function BarWidth(x: Linear, b: seq<Bin>): (w: real)
    requires |b| > 0
    ensures w >= 0.0
    ensures w >= x.Apply(b[0].dx) - x.Apply(0.0) - 1.0
    ensures w == 0.0 || w == x.Apply(b[0].dx) - x.Apply(0.0) - 1.0
  {
    Max([x.Apply(b[0].dx) - x.Apply(0.0) - 1.0, 0.0]).value
  }

  /**
   * On the x scale of a plot of the given width, the bar width is the first
   * bin's share of the domain in pixels less one; a single-point domain gives
   * zero-width bars.
   */
  lemma BarWidthPixels(lo: real, hi: real, width: real, b: seq<Bin>)
    requires |b| > 0
    ensures lo == hi ==> BarWidth(XScale(lo, hi, width), b) == 0.0
    ensures lo != hi ==>
      var span := b[0].dx / (hi - lo) * width - 1.0;
      BarWidth(XScale(lo, hi, width), b) == if span > 0.0 then span else 0.0
  {
    if lo != hi {
      LinearDifference(XScale(lo, hi, width), b[0].dx, 0.0);
    }
  }

  /** Each bin with its count divided by the series length: counts become fractions. */
  function Normalize(b: seq<Bin>, total: nat): (r: seq<Bin>)
    requires total > 0
    ensures |r| == |b|
    ensures forall j :: 0 <= j < |b| ==>
      r[j].x == b[j].x && r[j].dx == b[j].dx && r[j].y * (total as real) == b[j].y
  {
    seq(|b|, j requires 0 <= j < |b| => b[j].(y := b[j].y / total as real))
  }

  /** A count between 0 and the series length becomes a fraction between 0 and 1. */
  lemma NormalizedIsFraction(b: seq<Bin>, total: nat, j: int)
    requires total > 0
    requires 0 <= j < |b|
    requires 0.0 <= b[j].y <= total as real
    ensures 0.0 <= Normalize(b, total)[j].y <= 1.0
  {
    FractionBounds(b[j].y, total as real);
  }

  /**
   * The bars of one series: its bins, normalised when asked, each tagged with
   * the series' colour, the series' bar width and the series' key.
   */
  function SeriesBars(d: Series, b: seq<Bin>, x: Linear, normalized: bool, colorOf: Key -> Color): (r: seq<Bar>)
    requires |b| > 0
    requires normalized ==> |d.values| > 0
    ensures |r| == |b|
    ensures forall j :: 0 <= j < |b| ==>
      && r[j].key == d.key
      && r[j].color == colorOf(d.key)
      && r[j].width == BarWidth(x, b)
      && r[j].bin.x == b[j].x
      && r[j].bin.dx == b[j].dx
      && (normalized ==> r[j].bin.y * (|d.values| as real) == b[j].y)
      && (!normalized ==> r[j].bin == b[j])
  {
    var counts := if normalized then Normalize(b, |d.values|) else b;
    var w := BarWidth(x, b);
    seq(|counts|, j requires 0 <= j < |counts| => Bar(counts[j], colorOf(d.key), w, d.key))
  }

  // ---------------------------------------------------------------------------
  // All series
  // ---------------------------------------------------------------------------

  /** The preconditions the per-series steps need: one non-empty bin list per series. */
  predicate WellBinned(data: seq<Series>, binned: seq<seq<Bin>>, normalized: bool)
  {
    && |binned| == |data|
    && (forall i :: 0 <= i < |binned| ==> |binned[i]| > 0)
    && (normalized ==> forall i :: 0 <= i < |data| ==> |data[i].values| > 0)
  }

  /** The bars of each series, in series order. */
  function PerSeries(data: seq<Series>, binned: seq<seq<Bin>>, x: Linear, normalized: bool, colorOf: Key -> Color): (r: seq<seq<Bar>>)
    requires WellBinned(data, binned, normalized)
    ensures |r| == |binned|
    ensures forall i :: 0 <= i < |r| ==> |r[i]| == |binned[i]|
    ensures forall i :: 0 <= i < |r| ==> r[i] == SeriesBars(data[i], binned[i], x, normalized, colorOf)
  {
    seq(|data|, i requires 0 <= i < |data| => SeriesBars(data[i], binned[i], x, normalized, colorOf))
  }

  /** The bars of all series, each series' bars appended in series order. */
  function Layout(data: seq<Series>, binned: seq<seq<Bin>>, x: Linear, normalized: bool, colorOf: Key -> Color): (r: seq<Bar>)
    requires WellBinned(data, binned, normalized)
    ensures LaidOut(r, binned, PerSeries(data, binned, x, normalized, colorOf))
  {
    var per := PerSeries(data, binned, x, normalized, colorOf);
    FlattenAlong(per, binned);
    Flatten(per)
  }

  /** The bins of the bars, in order. */
  function Bins(bars: seq<Bar>): seq<Bin>
  {
    seq(|bars|, k requires 0 <= k < |bars| => bars[k].bin)
  }

  /** The widths of the bars, in order. */
  function Widths(bars: seq<Bar>): seq<real>
  {
    seq(|bars|, k requires 0 <= k < |bars| => bars[k].width)
  }

  /** There is at least one bar when there is at least one series. */
  lemma LayoutNonEmpty(data: seq<Series>, binned: seq<seq<Bin>>, x: Linear, normalized: bool, colorOf: Key -> Color)
    requires WellBinned(data, binned, normalized)
    requires |data| > 0
    ensures |Layout(data, binned, x, normalized, colorOf)| > 0
  {
    StartBound(binned, 0);
  }


  /** The bins of each series: the layout applied to all of the series' values, with the shared bin count. */
  function Binned(data: seq<Series>, hist: (seq<real>, real) -> seq<Bin>, numBins: real): (r: seq<seq<Bin>>)
    ensures |r| == |data|
    ensures forall i :: 0 <= i < |data| ==> r[i] == hist(data[i].values, numBins)
  {
    seq(|data|, i requires 0 <= i < |data| => hist(data[i].values, numBins))
  }

  /** A layout that yields bins for a non-zero bin count gives every series a bin list the bar steps accept. */
  lemma BinnedWell(data: seq<Series>, hist: (seq<real>, real) -> seq<Bin>, numBins: real, normalized: bool)
    requires YieldsBins(hist, numBins)
    requires normalized ==> forall i :: 0 <= i < |data| ==> |data[i].values| > 0
    ensures WellBinned(data, Binned(data, hist, numBins), normalized)
  {
    var binned: seq<seq<Bin>> := Binned(data, hist, numBins);
    forall i | 0 <= i < |binned|
      ensures |binned[i]| > 0
    {
      assert binned[i] == hist(data[i].values, numBins);
    }
  }

  /** A layout of non-negative counts gives every series non-negative counts. */
  lemma BinnedCountsNonNegative(data: seq<Series>, hist: (seq<real>, real) -> seq<Bin>, numBins: real)
    requires CountsNonNegative(hist)
    ensures NonNegativeCounts(Binned(data, hist, numBins))
  {
    var binned: seq<seq<Bin>> := Binned(data, hist, numBins);
    forall i: int, j: int | 0 <= i < |binned| && 0 <= j < |binned[i]|
      ensures binned[i][j].y >= 0.0
    {
      assert binned[i] == hist(data[i].values, numBins);
    }
  }

  /**
   * The chart drawn from bins already computed: the bars of all series on the
   * given x scale, the y scale shared by all of them, and one rectangle per bar.
   */
  function Plot(data: seq<Series>, binned: seq<seq<Bin>>, numTicks: real, x: Linear, normalized: bool,
                height: real, colorOf: Key -> Color): (c: Chart)
    requires WellBinned(data, binned, normalized) && |data| > 0
    ensures c.numTicks == numTicks && c.x == x
    ensures c.bars == Layout(data, binned, x, normalized, colorOf)
    ensures c.y.d0 == 0.0 && IsMaxOf(c.y.d1, Counts(Bins(c.bars)))
    ensures c.y.r0 == height && c.y.r1 == 0.0
    ensures c.rects == Rects(c.x, c.y, Bins(c.bars), Widths(c.bars))
    ensures |c.rects| == |c.bars| > 0
    ensures forall k :: 0 <= k < |c.rects| ==> c.rects[k].y + c.rects[k].height == height
  {
    var bars := Layout(data, binned, x, normalized, colorOf);
    LayoutNonEmpty(data, binned, x, normalized, colorOf);
    var y := SharedYScale(Bins(bars), height);
    var rects := Rects(x, y, Bins(bars), Widths(bars));
    Chart(numTicks, x, y, bars, rects)
  }

  /**
   * The render: ticks, the x scale over all values, the bars of all series
   * binned by `hist`, the y scale shared by all of them, and one rectangle
   * per bar. Undefined when no series has a value.
   */
  function Draw(data: seq<Series>, hist: (seq<real>, real) -> seq<Bin>, numBins: real, normalized: bool,
                width: real, height: real, colorOf: Key -> Color): (r: Option<Chart>)
    requires YieldsBins(hist, numBins)
    requires normalized ==> forall i :: 0 <= i < |data| ==> |data[i].values| > 0
    ensures WellBinned(data, Binned(data, hist, numBins), normalized)
    ensures r.None? <==> |AllValues(data)| == 0
    ensures r.Some? ==> r.value.numTicks == NumTicks(numBins)
    ensures r.Some? ==> Some((r.value.x.d0, r.value.x.d1)) == XDomain(data) && r.value.x.r0 == 0.0 && r.value.x.r1 == width
    ensures r.Some? ==> r.value.bars == Layout(data, Binned(data, hist, numBins), r.value.x, normalized, colorOf)
    ensures r.Some? ==> r.value.y.d0 == 0.0 && IsMaxOf(r.value.y.d1, Counts(Bins(r.value.bars)))
    ensures r.Some? ==> r.value.y.r0 == height && r.value.y.r1 == 0.0
    ensures r.Some? ==> r.value.rects == Rects(r.value.x, r.value.y, Bins(r.value.bars), Widths(r.value.bars))
    ensures r.Some? ==> |r.value.rects| == |r.value.bars| > 0
  {
    BinnedWell(data, hist, numBins, normalized);
    match XDomain(data)
    case None => None
    case Some((lo, hi)) =>
      assert |data| > 0 by {
        InAllValues(data, AllValues(data)[0]);
      }
      Some(Plot(data, Binned(data, hist, numBins), NumTicks(numBins), XScale(lo, hi, width), normalized, height, colorOf))
  }

  /** The x scale of a render spans every value of every series. */
  lemma DrawCoversValues(data: seq<Series>, hist: (seq<real>, real) -> seq<Bin>, numBins: real, normalized: bool,
                         width: real, height: real, colorOf: Key -> Color, i: int, j: int)
    requires YieldsBins(hist, numBins)
    requires normalized ==> forall i :: 0 <= i < |data| ==> |data[i].values| > 0
    requires 0 <= i < |data| && 0 <= j < |data[i].values|
    ensures Draw(data, hist, numBins, normalized, width, height, colorOf).Some?
    ensures var c := Draw(data, hist, numBins, normalized, width, height, colorOf).value;
      c.x.d0 <= data[i].values[j] <= c.x.d1
  {
    InAllValues(data, data[i].values[j]);
    ValuesWithinDomain(data, i, j);
  }

  /** The bars of a layout of non-negative counts have non-negative counts, normalised or not. */
  lemma LayoutCountsNonNegative(data: seq<Series>, binned: seq<seq<Bin>>, x: Linear, normalized: bool,
                                colorOf: Key -> Color, k: int)
    requires WellBinned(data, binned, normalized)
    requires NonNegativeCounts(binned)
    requires 0 <= k < Total(binned)
    ensures k < |Layout(data, binned, x, normalized, colorOf)|
    ensures Layout(data, binned, x, normalized, colorOf)[k].bin.y >= 0.0
  {
    var bars := Layout(data, binned, x, normalized, colorOf);
    assert |bars| == Total(binned);
    var per := PerSeries(data, binned, x, normalized, colorOf);
    assert bars == Flatten(per);
    var bar := bars[k];
    FlattenContains(per, bar);
    var i :| 0 <= i < |per| && bar in per[i];
    var j :| 0 <= j < |per[i]| && per[i][j] == bar;
    SeriesCountNonNegative(data[i], binned[i], x, normalized, colorOf, j);
  }

  /** A bar of a series has a non-negative count when its bin has one, normalised or not. */
  lemma SeriesCountNonNegative(d: Series, b: seq<Bin>, x: Linear, normalized: bool, colorOf: Key -> Color, j: int)
    requires |b| > 0
    requires normalized ==> |d.values| > 0
    requires 0 <= j < |b| && b[j].y >= 0.0
    ensures SeriesBars(d, b, x, normalized, colorOf)[j].bin.y >= 0.0
  {
    if normalized {
      PositiveShare(SeriesBars(d, b, x, normalized, colorOf)[j].bin.y, |d.values| as real);
    }
  }

  /**
   * The shared y scale: with the non-negative counts of d3's histogram layout
   * and a non-negative plot height, every bar stands between the baseline
   * and the top of the plot, normalised or not.
   */
  lemma DrawBarsWithinPlot(data: seq<Series>, hist: (seq<real>, real) -> seq<Bin>, numBins: real, normalized: bool,
                           width: real, height: real, colorOf: Key -> Color, k: int)
    requires YieldsBins(hist, numBins)
    requires normalized ==> forall i :: 0 <= i < |data| ==> |data[i].values| > 0
    requires CountsNonNegative(hist)
    requires |AllValues(data)| > 0
    requires height >= 0.0
    requires 0 <= k < Total(Binned(data, hist, numBins))
    ensures var c := Draw(data, hist, numBins, normalized, width, height, colorOf).value;
      k < |c.rects| && 0.0 <= c.rects[k].height <= height
  {
    var c := Draw(data, hist, numBins, normalized, width, height, colorOf).value;
    var binned: seq<seq<Bin>> := Binned(data, hist, numBins);
    BinnedCountsNonNegative(data, hist, numBins);
    LayoutCountsNonNegative(data, binned, c.x, normalized, colorOf, k);
    assert Bins(c.bars)[k] == c.bars[k].bin;
    RectWithinPlot(c.x, c.y, Bins(c.bars), Widths(c.bars), k);
  }

  /** A quantity that gives a non-negative amount when multiplied by a positive number is non-negative. */
  lemma PositiveShare(q: real, n: real)
    requires n > 0.0 && q * n >= 0.0
    ensures q >= 0.0
  {
  }
}
