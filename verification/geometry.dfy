/**
 * What the two renderers share: the input series, the bins d3's histogram
 * layout hands back, the concatenation of per-series bar lists in series
 * order, and the vertical scale that turns a bin's count into a bar standing
 * on the x axis.
 */
module Geometry {
  import opened D3

  /** A series key; it also becomes the CSS class of the series' bars. */
  type Key = string

  /** A fill colour, as returned by the colour-scheme lookup; opaque here. */
  type Color = string

  /** One series of the payload: a key and its raw values. */
  datatype Series = Series(key: Key, values: seq<real>)

  /**
   * One bin of `d3.layout.histogram`: left edge x and width dx in data
   * units, and the count y.
   */
  datatype Bin = Bin(x: real, dx: real, y: real)

  /** Every count `d3.layout.histogram` handed back is non-negative. */
  predicate NonNegativeCounts(binned: seq<seq<Bin>>)
  {
    forall i, j :: 0 <= i < |binned| && 0 <= j < |binned[i]| ==> binned[i][j].y >= 0.0
  }

  /**
   * `d3.layout.histogram().bins(n)` applied to a list of values stands for a
   * function `hist` of the values and n; its code is not part of this model.
   * The renderers need from it at least one bin at each bin count they ask
   * for, whatever the values.
   */
  ghost predicate YieldsBins(hist: (seq<real>, real) -> seq<Bin>, n: real)
  {
    forall vs: seq<real> :: |hist(vs, n)| > 0
  }

  /** A layout whose counts are never negative, as counts of values are. */
  ghost predicate CountsNonNegative(hist: (seq<real>, real) -> seq<Bin>)
  {
    forall vs: seq<real>, n: real, j :: 0 <= j < |hist(vs, n)| ==> hist(vs, n)[j].y >= 0.0
  }

  /** The rectangle drawn for one bar, in plot pixels (y grows downwards). */
  datatype Rect = Rect(x: real, y: real, width: real, height: real)

  // ---------------------------------------------------------------------------
  // Concatenation in series order
  // ---------------------------------------------------------------------------

  /** Total number of elements of all the pieces. */
  function Total<T>(ss: seq<seq<T>>): nat
  {
    if |ss| == 0 then 0 else Total(ss[..|ss| - 1]) + |ss[|ss| - 1]|
  }

  /** Position in the concatenation at which piece i begins. */
  function Start<T>(ss: seq<seq<T>>, i: int): nat
    requires 0 <= i <= |ss|
  {
    Total(ss[..i])
  }

  /** The pieces joined end to end in order, as repeated concatenation onto an empty list builds them. */
  function Flatten<T>(ss: seq<seq<T>>): (r: seq<T>)
    ensures |r| == Total(ss)
  {
    if |ss| == 0 then [] else Flatten(ss[..|ss| - 1]) + ss[|ss| - 1]
  }

  /** Piece i ends no later than the concatenation does. */
  lemma {:induction false} StartBound<T>(ss: seq<seq<T>>, i: int)
    requires 0 <= i < |ss|
    ensures Start(ss, i) + |ss[i]| <= Total(ss)
  {
    var n := |ss|;
    assert ss[..n] == ss;
    if i == n - 1 {
      assert ss[..i + 1][..i] == ss[..i];
    } else {
      var p := ss[..n - 1];
      assert p[..i] == ss[..i];
      StartBound(p, i);
    }
  }

  /** Piece i occupies the slice of the concatenation that begins at Start(ss, i). */
  lemma {:induction false} FlattenPieceAt<T>(ss: seq<seq<T>>, i: int)
    requires 0 <= i < |ss|
    ensures Start(ss, i) + |ss[i]| <= |Flatten(ss)|
    ensures Flatten(ss)[Start(ss, i)..Start(ss, i) + |ss[i]|] == ss[i]
  {
    var n := |ss|;
    var p := ss[..n - 1];
    StartBound(ss, i);
    assert Flatten(ss) == Flatten(p) + ss[n - 1];
    if i < n - 1 {
      assert p[..i] == ss[..i];
      assert p[i] == ss[i];
      FlattenPieceAt(p, i);
      SliceOfFront(Flatten(p), ss[n - 1], Start(ss, i), Start(ss, i) + |ss[i]|);
    } else {
      assert ss[..i] == p;
      SliceOfBack(Flatten(p), ss[n - 1]);
    }
  }

  /** A slice inside the front part of a concatenation is a slice of that part. */
  lemma SliceOfFront<T>(a: seq<T>, b: seq<T>, lo: int, hi: int)
    requires 0 <= lo <= hi <= |a|
    ensures (a + b)[lo..hi] == a[lo..hi]
  {
  }

  /** The back part of a concatenation is the slice that follows the front part. */
  lemma SliceOfBack<T>(a: seq<T>, b: seq<T>)
    ensures (a + b)[|a|..|a| + |b|] == b
  {
  }

  /**
   * r is the pieces laid end to end along shape: piece i occupies the slice
   * of r that begins where the first i pieces of shape end, and is as long
   * as shape[i].
   */
  predicate LaidOut<T(==), U>(r: seq<T>, shape: seq<seq<U>>, pieces: seq<seq<T>>)
  {
    && |pieces| == |shape|
    && |r| == Total(shape)
    && forall i :: 0 <= i < |pieces| ==>
      Start(shape, i) + |shape[i]| <= |r| && r[Start(shape, i)..Start(shape, i) + |shape[i]|] == pieces[i]
  }

  /** Concatenating pieces lays them out along any list of pieces of the same lengths. */
  lemma FlattenAlong<T, U>(ss: seq<seq<T>>, shape: seq<seq<U>>)
    requires |ss| == |shape|
    requires forall i :: 0 <= i < |ss| ==> |ss[i]| == |shape[i]|
    ensures LaidOut(Flatten(ss), shape, ss)
  {
    SameShape(ss, shape);
    forall i | 0 <= i < |ss|
      ensures Start(shape, i) + |shape[i]| <= |Flatten(ss)| && Flatten(ss)[Start(shape, i)..Start(shape, i) + |shape[i]|] == ss[i]
    {
      FlattenPieceAt(ss, i);
    }
  }

  /** The concatenation holds exactly the elements of its pieces. */
  lemma {:induction false} FlattenContains<T>(ss: seq<seq<T>>, x: T)
    ensures x in Flatten(ss) <==> exists i :: 0 <= i < |ss| && x in ss[i]
  {
    if |ss| > 0 {
      var n := |ss|;
      var p := ss[..n - 1];
      FlattenContains(p, x);
      if x in Flatten(ss) {
        if x !in ss[n - 1] {
          assert x in Flatten(p);
          var i :| 0 <= i < |p| && x in p[i];
          assert p[i] == ss[i];
        }
      } else {
        forall i | 0 <= i < n
          ensures x !in ss[i]
        {
          if i < n - 1 {
            assert p[i] == ss[i];
          }
        }
      }
    }
  }

  /** Two lists of pieces with the same piece lengths have the same piece offsets. */
  lemma {:induction false} SameShape<T, U>(a: seq<seq<T>>, b: seq<seq<U>>)
    requires |a| == |b|
    requires forall i :: 0 <= i < |a| ==> |a[i]| == |b[i]|
    ensures Total(a) == Total(b)
    ensures forall i :: 0 <= i <= |a| ==> Start(a, i) == Start(b, i)
  {
    if |a| > 0 {
      var n := |a|;
      SameShape(a[..n - 1], b[..n - 1]);
      assert a[..n] == a && b[..n] == b;
      assert Total(a) == Total(b);
      forall i | 0 <= i <= n
        ensures Start(a, i) == Start(b, i)
      {
        if i < n {
          assert Start(a[..n - 1], i) == Start(b[..n - 1], i);
          assert a[..n - 1][..i] == a[..i];
          assert b[..n - 1][..i] == b[..i];
        } else {
          assert a[..i] == a && b[..i] == b;
        }
      }
    }
  }

  /** The value lists of the series, in payload order. */
  function ValueLists(data: seq<Series>): (r: seq<seq<real>>)
    ensures |r| == |data|
    ensures forall i :: 0 <= i < |data| ==> r[i] == data[i].values
  {
    seq(|data|, i requires 0 <= i < |data| => data[i].values)
  }

  /** Every value of every series, series after series. */
  function AllValues(data: seq<Series>): seq<real>
  {
    Flatten(ValueLists(data))
  }

  /** A value occurs among all values exactly when some series holds it. */
  lemma InAllValues(data: seq<Series>, v: real)
    ensures v in AllValues(data) <==> exists i :: 0 <= i < |data| && v in data[i].values
  {
    FlattenContains(ValueLists(data), v);
  }

  // ---------------------------------------------------------------------------
  // Scales and bar height
  // ---------------------------------------------------------------------------

  /** The horizontal scale: the x-domain [lo, hi] stretched over the plot width from the left edge. */
  function XScale(lo: real, hi: real, width: real): Linear
  {
    Linear(lo, hi, 0.0, width)
  }

  /** The vertical scale: counts from 0 to maxY, with count 0 on the baseline `height` and maxY at the top. */
  function YScale(height: real, maxY: real): Linear
  {
    Linear(0.0, maxY, height, 0.0)
  }

  /** The counts of the bins, in order: what `d3.max` over the bars' counts looks at. */
  function Counts(bins: seq<Bin>): seq<real>
  {
    seq(|bins|, k requires 0 <= k < |bins| => bins[k].y)
  }

  /**
   * One vertical scale shared by the bars of every series: from 0 to the
   * largest count of any bar, onto the plot height down to 0.
   */
  function SharedYScale(bins: seq<Bin>, height: real): (ys: Linear)
    requires |bins| > 0
    ensures ys.d0 == 0.0 && IsMaxOf(ys.d1, Counts(bins))
    ensures ys.r0 == height && ys.r1 == 0.0
  {
    YScale(height, Max(Counts(bins)).value)
  }

  /** The baseline less the scaled count: how far a bar of that count rises above the baseline. */
  function BarHeight(height: real, maxY: real, count: real): real
  {
    var ys := YScale(height, maxY);
    ys.r0 - ys.Apply(count)
  }

  /** Bar height is the count as a share of the largest count, times the plot height. */
  lemma BarHeightProportional(height: real, maxY: real, count: real)
    ensures maxY != 0.0 ==> BarHeight(height, maxY, count) == count / maxY * height
    ensures maxY == 0.0 ==> BarHeight(height, maxY, count) == 0.0
  {
  }

  /** A count between 0 and the largest count gives a bar between 0 and the plot height. */
  lemma BarHeightWithin(height: real, maxY: real, count: real)
    requires height >= 0.0
    requires 0.0 <= count <= maxY
    ensures 0.0 <= BarHeight(height, maxY, count) <= height
  {
    LinearWithin(YScale(height, maxY), count);
  }

  /** The tallest bar spans the whole plot height. */
  lemma TallestBarFillsPlot(height: real, maxY: real)
    requires maxY != 0.0
    ensures BarHeight(height, maxY, maxY) == height
  {
  }

  /**
   * The rectangle for a bin: left edge at x(bin.x), top at y(bin.y), height
   * measured down to the baseline y.range()[0].
   */
  function Place(xs: Linear, ys: Linear, bin: Bin, width: real): (r: Rect)
    ensures r.x == xs.Apply(bin.x) && r.y == ys.Apply(bin.y)
    ensures r.y + r.height == ys.r0
    ensures r.width == width
  {
    Rect(xs.Apply(bin.x), ys.Apply(bin.y), width, ys.r0 - ys.Apply(bin.y))
  }

  /** One rectangle per bar, given each bar's bin and width, each standing on the baseline of the y scale. */
  function Rects(xs: Linear, ys: Linear, bins: seq<Bin>, widths: seq<real>): (r: seq<Rect>)
    requires |widths| == |bins|
    ensures |r| == |bins|
    ensures forall k :: 0 <= k < |r| ==> r[k].x == xs.Apply(bins[k].x) && r[k].width == widths[k]
    ensures forall k :: 0 <= k < |r| ==> r[k].y == ys.Apply(bins[k].y)
    ensures forall k :: 0 <= k < |r| ==> r[k].y + r[k].height == ys.r0
    ensures forall k :: 0 <= k < |r| ==> r[k].height == ys.r0 - ys.Apply(bins[k].y)
  {
    seq(|bins|, k requires 0 <= k < |bins| => Place(xs, ys, bins[k], widths[k]))
  }

  /**
   * On a y scale from [0, largest count] onto [height, 0] with a non-negative
   * height, the rectangle of a bin with a non-negative count stands between
   * the baseline and the top of the plot.
   */
  lemma RectWithinPlot(xs: Linear, ys: Linear, bins: seq<Bin>, widths: seq<real>, k: int)
    requires |widths| == |bins|
    requires ys.d0 == 0.0 && ys.r1 == 0.0 && ys.r0 >= 0.0
    requires IsMaxOf(ys.d1, Counts(bins))
    requires 0 <= k < |bins| && bins[k].y >= 0.0
    ensures 0.0 <= Rects(xs, ys, bins, widths)[k].height <= ys.r0
  {
    assert Counts(bins)[k] == bins[k].y;
    assert ys == YScale(ys.r0, ys.d1);
    BarHeightWithin(ys.r0, ys.d1, bins[k].y);
  }
}
