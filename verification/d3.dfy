/**
 * The d3 primitives the histogram renderers call, stated over `real`:
 * `d3.min` and `d3.max` (undefined on an empty array, written `None`), their
 * accessor forms that skip undefined entries, and `d3.scale.linear` as the
 * affine map from a domain [d0, d1] onto a range [r0, r1].
 */
module D3 {
  import opened Js

  /** m occurs in s and no element of s is smaller. */
  predicate IsMinOf(m: real, s: seq<real>)
  {
    m in s && forall i :: 0 <= i < |s| ==> m <= s[i]
  }

  /** m occurs in s and no element of s is larger. */
  predicate IsMaxOf(m: real, s: seq<real>)
  {
    m in s && forall i :: 0 <= i < |s| ==> s[i] <= m
  }

  /** `d3.min` of an array: a left-to-right scan that keeps the smallest element seen. */
  function Min(s: seq<real>): (r: Option<real>)
    ensures r.None? <==> |s| == 0
    ensures r.Some? ==> IsMinOf(r.value, s)
  {
    if |s| == 0 then None
    else
      var m := Min(s[..|s| - 1]);
      if m.None? || m.value > s[|s| - 1] then Some(s[|s| - 1]) else m
  }

  /** `d3.max` of an array: a left-to-right scan that keeps the largest element seen. */
  function Max(s: seq<real>): (r: Option<real>)
    ensures r.None? <==> |s| == 0
    ensures r.Some? ==> IsMaxOf(r.value, s)
  {
    if |s| == 0 then None
    else
      var m := Max(s[..|s| - 1]);
      if m.None? || m.value < s[|s| - 1] then Some(s[|s| - 1]) else m
  }

  /** The smallest and the largest element of a sequence are the only ones. */
  lemma ExtremaUnique(s: seq<real>, a: real, b: real)
    ensures IsMinOf(a, s) && IsMinOf(b, s) ==> a == b
    ensures IsMaxOf(a, s) && IsMaxOf(b, s) ==> a == b
  {
  }

  /** The minimum of a non-empty sequence never exceeds its maximum. */
  lemma MinAtMostMax(s: seq<real>)
    requires |s| > 0
    ensures Min(s).value <= Max(s).value
  {
    var k :| 0 <= k < |s| && s[k] == Max(s).value;
    assert Min(s).value <= s[k];
  }

  /** The defined entries of s, in order: what the accessor forms of d3.min and d3.max look at. */
  function Defined(s: seq<Option<real>>): (r: seq<real>)
    ensures |r| <= |s|
    ensures forall x :: x in r <==> Some(x) in s
  {
    if |s| == 0 then []
    else if s[|s| - 1].None? then Defined(s[..|s| - 1])
    else Defined(s[..|s| - 1]) + [s[|s| - 1].value]
  }

  /** A `d3.scale.linear` whose domain is [d0, d1] and whose range is [r0, r1]. */
  datatype Linear = Linear(d0: real, d1: real, r0: real, r1: real)
  {
    /**
     * The scale applied to v. A single-point domain sends every value to r0,
     * which is where d3's division by a zero-width domain lands.
     */
    function Apply(v: real): real
    {
      if d0 == d1 then r0 else r0 + (v - d0) / (d1 - d0) * (r1 - r0)
    }
  }

  /** The domain bounds land on the range bounds. */
  lemma LinearEndpoints(s: Linear)
    ensures s.Apply(s.d0) == s.r0
    ensures s.d0 != s.d1 ==> s.Apply(s.d1) == s.r1
  {
  }

  /** Differences are scaled by the constant slope (r1 - r0) / (d1 - d0). */
  lemma LinearDifference(s: Linear, v: real, w: real)
    requires s.d0 != s.d1
    ensures s.Apply(v) - s.Apply(w) == (v - w) / (s.d1 - s.d0) * (s.r1 - s.r0)
  {
    var q := s.d1 - s.d0;
    assert (v - s.d0) / q - (w - s.d0) / q == (v - w) / q;
  }

  /** Over an increasing domain onto an increasing range the scale is monotone. */
  lemma LinearMonotone(s: Linear, v: real, w: real)
    requires s.d0 < s.d1 && s.r0 <= s.r1
    requires v <= w
    ensures s.Apply(v) <= s.Apply(w)
  {
    LinearDifference(s, w, v);
    var q := s.d1 - s.d0;
    assert (w - v) / q >= 0.0;
  }

  /** A value inside the domain is mapped between the two range bounds, in either orientation. */
  lemma LinearWithin(s: Linear, v: real)
    requires s.d0 <= v <= s.d1
    ensures s.r0 <= s.r1 ==> s.r0 <= s.Apply(v) <= s.r1
    ensures s.r1 <= s.r0 ==> s.r1 <= s.Apply(v) <= s.r0
  {
    if s.d0 != s.d1 {
      var q := s.d1 - s.d0;
      var t := (v - s.d0) / q;
      assert t * q == v - s.d0;
      FractionBounds(v - s.d0, q);
      ScaleBounds(t, s.r1 - s.r0);
    }
  }

  /** A part of a positive whole is a fraction in [0, 1]. */
  lemma FractionBounds(p: real, q: real)
    requires 0.0 <= p <= q && q > 0.0
    ensures 0.0 <= p / q <= 1.0
  {
    assert p / q * q == p;
  }

  /** Scaling by a fraction in [0, 1] stays between 0 and the scaled amount. */
  lemma ScaleBounds(t: real, a: real)
    requires 0.0 <= t <= 1.0
    ensures a >= 0.0 ==> 0.0 <= t * a <= a
    ensures a <= 0.0 ==> a <= t * a <= 0.0
  {
    assert a - t * a == (1.0 - t) * a;
  }
}
