/**
 * The legend interaction of the multi-configuration renderer. The
 * `legend_clicked` handler hides every bar of one series or gives each back
 * its own opacity, deciding from the fill-opacity of the first such bar. A
 * click on a legend swatch dispatches that handler and then flips the
 * swatch's own fill-opacity o to 1 - o. The swatch opacity is kept apart from
 * the bars' opacity: nothing ties one to the other.
 */
module Legend {
  import opened Js
  import opened Geometry
  import Histogram2

  /**
   * A drawn bar as the handlers see it: its class (the series key), the
   * opacity bound to it (`d.opacity`), and its current fill-opacity style.
   */
  datatype BarStyle = BarStyle(key: Key, opacity: real, fill: real)

  /** The interactive state of a drawn chart: its bars and the fill-opacity of each legend swatch. */
  datatype View = View(bars: seq<BarStyle>, swatches: map<Key, real>)

  /** Every bar of key k shows at its own opacity. */
  predicate Shown(bars: seq<BarStyle>, k: Key)
  {
    forall j :: 0 <= j < |bars| && bars[j].key == k ==> bars[j].fill == bars[j].opacity
  }

  /** Every bar of key k is fully transparent. */
  predicate Hidden(bars: seq<BarStyle>, k: Key)
  {
    forall j :: 0 <= j < |bars| && bars[j].key == k ==> bars[j].fill == 0.0
  }

  /** The two lists hold the same bars, whatever their current fill. */
  predicate SameBars(a: seq<BarStyle>, b: seq<BarStyle>)
  {
    |a| == |b| && forall j :: 0 <= j < |a| ==> a[j].key == b[j].key && a[j].opacity == b[j].opacity
  }

  /** The bars as first drawn: each at the fill-opacity of its series. */
  function Drawn(bars: seq<Histogram2.Bar>): (r: seq<BarStyle>)
    ensures |r| == |bars|
    ensures forall j :: 0 <= j < |r| ==> r[j].key == bars[j].key && r[j].opacity == bars[j].opacity
    ensures forall k :: Shown(r, k)
  {
    seq(|bars|, j requires 0 <= j < |bars| => BarStyle(bars[j].key, bars[j].opacity, bars[j].opacity))
  }

  /**
   * The position of the first bar of key k: the element whose style
   * the fill-opacity getter of the key's selection reads. None when no bar has that key.
   */
  function FirstOf(bars: seq<BarStyle>, k: Key): (r: Option<nat>)
    ensures r.None? <==> forall j :: 0 <= j < |bars| ==> bars[j].key != k
    ensures r.Some? ==> r.value < |bars| && bars[r.value].key == k
    ensures r.Some? ==> forall j :: 0 <= j < r.value ==> bars[j].key != k
  {
    if |bars| == 0 then None
    else if bars[0].key == k then Some(0)
    else
      match FirstOf(bars[1..], k)
      case None => None
      case Some(i) => Some(i + 1)
  }

  /** Which bar comes first for a key depends only on the keys. */
  lemma FirstOfSameBars(a: seq<BarStyle>, b: seq<BarStyle>, k: Key)
    requires SameBars(a, b)
    ensures FirstOf(a, k) == FirstOf(b, k)
  {
  }

  /**
   * The `legend_clicked` handler for key k: if the first bar of k is
   * at fill-opacity 0, every bar of k gets back its own opacity, otherwise
   * every bar of k goes to 0. When no bar has key k the style getter throws
   * before any bar changes.
   */
  function LegendClicked(bars: seq<BarStyle>, k: Key): (r: seq<BarStyle>)
    ensures SameBars(r, bars)
    ensures forall j :: 0 <= j < |bars| && bars[j].key != k ==> r[j] == bars[j]
    ensures FirstOf(bars, k).None? ==> r == bars
    ensures FirstOf(bars, k).Some? && bars[FirstOf(bars, k).value].fill == 0.0 ==> Shown(r, k)
    ensures FirstOf(bars, k).Some? && bars[FirstOf(bars, k).value].fill != 0.0 ==> Hidden(r, k)
  {
    match FirstOf(bars, k)
    case None => bars
    case Some(i) =>
      var prev := bars[i].fill;
      seq(|bars|, j requires 0 <= j < |bars| =>
        if bars[j].key == k then bars[j].(fill := if prev == 0.0 then bars[j].opacity else 0.0)
        else bars[j])
  }

  /** A key whose first bar has a non-zero opacity of its own, so that showing it is visible. */
  predicate Toggleable(bars: seq<BarStyle>, k: Key)
  {
    FirstOf(bars, k).Some? && bars[FirstOf(bars, k).value].opacity != 0.0
  }

  /** Hiding a shown key and showing a hidden one. */
  lemma LegendClickedFlips(bars: seq<BarStyle>, k: Key)
    requires Toggleable(bars, k)
    ensures Shown(bars, k) ==> Hidden(LegendClicked(bars, k), k)
    ensures Hidden(bars, k) ==> Shown(LegendClicked(bars, k), k)
  {
  }

  /** Two dispatches for the same key restore every bar of a uniformly shown or hidden key. */
  lemma LegendClickedTwice(bars: seq<BarStyle>, k: Key)
    requires Toggleable(bars, k)
    requires Shown(bars, k) || Hidden(bars, k)
    ensures LegendClicked(LegendClicked(bars, k), k) == bars
  {
    var once := LegendClicked(bars, k);
    var twice := LegendClicked(once, k);
    FirstOfSameBars(once, bars, k);
    var i := FirstOf(bars, k).value;
    forall j | 0 <= j < |bars|
      ensures twice[j] == bars[j]
    {
      if bars[j].key == k {
        assert once[i].key == k;
      }
    }
  }

  /**
   * The click handler of a legend swatch for key k: dispatches
   * `legend_clicked(k)` and then sets the swatch's fill-opacity o to 1 - o.
   * When the dispatch throws (no bar of k) the swatch keeps its opacity too.
   */
  function SwatchClick(v: View, k: Key): (r: View)
    requires k in v.swatches
    ensures r.bars == LegendClicked(v.bars, k)
    ensures r.swatches.Keys == v.swatches.Keys
    ensures forall other :: other in v.swatches && other != k ==> r.swatches[other] == v.swatches[other]
    ensures FirstOf(v.bars, k).Some? ==> r.swatches[k] == 1.0 - v.swatches[k]
    ensures FirstOf(v.bars, k).None? ==> r == v
  {
    if FirstOf(v.bars, k).None? then v
    else View(LegendClicked(v.bars, k), v.swatches[k := 1.0 - v.swatches[k]])
  }

  /** Two clicks on the same swatch restore the swatch and every bar of a uniformly shown or hidden key. */
  lemma SwatchClickTwice(v: View, k: Key)
    requires k in v.swatches
    requires Toggleable(v.bars, k)
    requires Shown(v.bars, k) || Hidden(v.bars, k)
    ensures SwatchClick(SwatchClick(v, k), k) == v
  {
    var once := SwatchClick(v, k);
    FirstOfSameBars(once.bars, v.bars, k);
    var twice := SwatchClick(once, k);
    LegendClickedTwice(v.bars, k);
    assert twice.bars == v.bars;
    RestoreEntry(once.swatches, v.swatches, k);
  }

  /** Writing back the entry a map had elsewhere restores that map. */
  lemma RestoreEntry(m: map<Key, real>, orig: map<Key, real>, k: Key)
    requires m.Keys == orig.Keys && k in orig
    requires forall other :: other in orig && other != k ==> m[other] == orig[other]
    ensures m[k := orig[k]] == orig
  {
  }

  /** f applied n times to x. */
  function Iterate<S>(f: S -> S, x: S, n: nat): S
  {
    if n == 0 then x else f(Iterate(f, x, n - 1))
  }

  /** A function that undoes itself at x alternates between x and f(x). */
  lemma {:induction false} IterateInvolution<S>(f: S -> S, x: S, n: nat)
    requires f(f(x)) == x
    ensures n % 2 == 0 ==> Iterate(f, x, n) == x
    ensures n % 2 == 1 ==> Iterate(f, x, n) == f(x)
  {
    if n > 0 {
      IterateInvolution(f, x, n - 1);
    }
  }

  /** A click on the swatch of key k; a legend without that swatch offers nothing to click. */
  function ClickOn(k: Key): View -> View
  {
    (v: View) => if k in v.swatches then SwatchClick(v, k) else v
  }

  /** n clicks in a row on the swatch of key k. */
  function Clicks(v: View, k: Key, n: nat): View
  {
    Iterate(ClickOn(k), v, n)
  }

  /**
   * Starting from a state where key k shows or is hidden throughout, clicks
   * alternate: after an even number the state is back where it started,
   * after an odd number it is the state after one click.
   */
  lemma ClicksAlternate(v: View, k: Key, n: nat)
    requires k in v.swatches
    requires Toggleable(v.bars, k)
    requires Shown(v.bars, k) || Hidden(v.bars, k)
    ensures n % 2 == 0 ==> Clicks(v, k, n) == v
    ensures n % 2 == 1 ==> Clicks(v, k, n) == SwatchClick(v, k)
  {
    SwatchClickTwice(v, k);
    IterateInvolution(ClickOn(k), v, n);
  }

  /**
   * The chart as drawn, clicked n times on the swatch of a series whose
   * first bar has a non-zero opacity: after an even number of clicks the
   * series shows and its swatch is back at o, after an odd number it is
   * hidden and its swatch is at 1 - o. Other series are untouched.
   */
  lemma DrawnThenClicked(bars: seq<Histogram2.Bar>, swatches: map<Key, real>, k: Key, n: nat)
    requires k in swatches
    requires Toggleable(Drawn(bars), k)
    ensures var r := Clicks(View(Drawn(bars), swatches), k, n);
      && (n % 2 == 0 ==> Shown(r.bars, k) && r.swatches == swatches)
      && (n % 2 == 1 ==> Hidden(r.bars, k) && r.swatches == swatches[k := 1.0 - swatches[k]])
      && |r.bars| == |bars|
      && (forall j :: 0 <= j < |bars| && bars[j].key != k ==> r.bars[j] == Drawn(bars)[j])
  {
    var v := View(Drawn(bars), swatches);
    ClicksAlternate(v, k, n);
    LegendClickedFlips(v.bars, k);
  }
}
