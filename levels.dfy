/**
 * The rescaling helpers of audio_to_midi.py: `norm` maps an array linearly so
 * that its minimum goes to `a` and its maximum to `b`; `normalize` divides by
 * the maximum (at least 1e-10); the equalizer levels are the histogram counts
 * of the recent pitches passed through `norm(1, 0.1, ...)`.
 */
module Levels {
  import opened Stats

  /** One value of `norm`: `v` moved from the range [lo, hi] onto the range from `a` to `b`. */
  function Rescale(a: real, b: real, lo: real, hi: real, v: real): real
    requires hi > lo
  {
    (b - a) * ((v - lo) / (hi - lo)) + a
  }

  /** Dividing by a positive `d` and multiplying back gives `x`; the quotient keeps the sign of `x` and is at most 1 when `x <= d`. */
  lemma Quotient(x: real, d: real)
    requires d > 0.0
    ensures x / d * d == x
    ensures 0.0 <= x / d <==> 0.0 <= x
    ensures x <= d ==> x / d <= 1.0
    ensures x == d ==> x / d == 1.0
  {
    var q := x / d;
    assert q * d == x;
    if q < 0.0 {
      assert q * d < 0.0;
    }
    if q > 1.0 {
      assert q * d > d;
    }
  }

  /** `Rescale` sends `lo` to `a`, `hi` to `b`, and is affine in between. */
  lemma RescaleAffine(a: real, b: real, lo: real, hi: real, v: real, w: real)
    requires hi > lo
    ensures Rescale(a, b, lo, hi, lo) == a
    ensures Rescale(a, b, lo, hi, hi) == b
    ensures (Rescale(a, b, lo, hi, v) - Rescale(a, b, lo, hi, w)) * (hi - lo) == (b - a) * (v - w)
  {
    var d := hi - lo;
    var p, q := (v - lo) / d, (w - lo) / d;
    Quotient(v - lo, d);
    Quotient(w - lo, d);
    Quotient(d, d);
    assert (lo - lo) / d == 0.0;
    assert Rescale(a, b, lo, hi, v) - Rescale(a, b, lo, hi, w) == (b - a) * (p - q);
    assert (b - a) * (p - q) * d == (b - a) * (p * d - q * d);
  }

  /** For a value inside [lo, hi], `Rescale` lands between `b` and `a` when `b <= a`. */
  lemma RescaleWithin(a: real, b: real, lo: real, hi: real, v: real)
    requires hi > lo && lo <= v <= hi && b <= a
    ensures b <= Rescale(a, b, lo, hi, v) <= a
  {
    var t := (v - lo) / (hi - lo);
    Quotient(v - lo, hi - lo);
    assert 0.0 <= t <= 1.0;
    assert (b - a) * t >= (b - a) * 1.0;
    assert (b - a) * t <= 0.0;
  }

  /** For `b <= a`, `Rescale` never increases: a larger input gives a smaller or equal output. */
  lemma RescaleAntitone(a: real, b: real, lo: real, hi: real, v: real, w: real)
    requires hi > lo && v <= w && b <= a
    ensures Rescale(a, b, lo, hi, w) <= Rescale(a, b, lo, hi, v)
  {
    RescaleAffine(a, b, lo, hi, w, v);
    var d := hi - lo;
    assert (b - a) * (w - v) <= 0.0;
  }

  /**
   * `norm(a, b, x)`: every minimum of `x` goes to `a` and every maximum to `b`.
   * There is no guard for a flat `x`, so the maximum must exceed the minimum.
   */
  function Norm(a: real, b: real, x: seq<real>): (r: seq<real>)
    requires |x| > 0 && Max(x) > Min(x)
    ensures |r| == |x|
    ensures forall i :: 0 <= i < |x| && x[i] == Min(x) ==> r[i] == a
    ensures forall i :: 0 <= i < |x| && x[i] == Max(x) ==> r[i] == b
  {
    var lo, hi := Min(x), Max(x);
    RescaleAffine(a, b, lo, hi, lo, hi);
    seq(|x|, i requires 0 <= i < |x| => Rescale(a, b, lo, hi, x[i]))
  }

  /** With `b <= a` (the equalizer uses a = 1, b = 0.1) every result of `norm` lies in [b, a]. */
  lemma NormWithin(a: real, b: real, x: seq<real>)
    requires |x| > 0 && Max(x) > Min(x) && b <= a
    ensures forall i :: 0 <= i < |x| ==> b <= Norm(a, b, x)[i] <= a
  {
    var r := Norm(a, b, x);
    forall i | 0 <= i < |x|
      ensures b <= r[i] <= a
    {
      RescaleWithin(a, b, Min(x), Max(x), x[i]);
    }
  }

  /**
   * `normalize(v)`: every element divided by the larger of the maximum and
   * 1e-10. Non-negative inputs land in [0, 1], and when the maximum is at least
   * 1e-10 the largest elements become exactly 1.
   */
  function Normalize(v: seq<real>): (r: seq<real>)
    requires |v| > 0
    ensures |r| == |v|
    ensures forall i :: 0 <= i < |v| ==> (0.0 <= r[i] <==> 0.0 <= v[i])
    ensures forall i :: 0 <= i < |v| ==> r[i] <= 1.0
    ensures Max(v) >= 0.0000000001 ==> forall i :: 0 <= i < |v| && v[i] == Max(v) ==> r[i] == 1.0
  {
    var d := if Max(v) >= 0.0000000001 then Max(v) else 0.0000000001;
    var r := seq(|v|, i requires 0 <= i < |v| => v[i] / d);
    forall i | 0 <= i < |v|
      ensures 0.0 <= r[i] <==> 0.0 <= v[i]
      ensures r[i] <= 1.0
      ensures v[i] == d ==> r[i] == 1.0
    {
      Quotient(v[i], d);
    }
    r
  }

  /** A flat histogram of 100 values over 31 bands is impossible, since 31 does not divide 100. */
  lemma HistogramNotFlat(counts: seq<nat>)
    requires |counts| == 31 && Sum(counts) == 100
    ensures Max(AsReals(counts)) > Min(AsReals(counts))
  {
    if forall i :: 0 <= i < |counts| ==> counts[i] == counts[0] {
      SumConstant(counts, counts[0]);
      assert false;
    }
    var i :| 0 <= i < |counts| && counts[i] != counts[0];
    var x := AsReals(counts);
    assert x[i] != x[0];
    assert Min(x) <= x[i] <= Max(x) && Min(x) <= x[0] <= Max(x);
  }

  /**
   * `get_adjustment_levels` after the histogram: the band levels lie in
   * [0.1, 1]; the bands with the fewest recent pitches get 1 and those with the
   * most get 0.1; a band with more recent pitches never gets a higher level.
   */
  function AdjustmentLevels(counts: seq<nat>): (eq: seq<real>)
    requires |counts| > 0 && Max(AsReals(counts)) > Min(AsReals(counts))
    ensures |eq| == |counts|
    ensures forall i :: 0 <= i < |counts| ==> 0.1 <= eq[i] <= 1.0
    ensures forall i :: 0 <= i < |counts| && counts[i] as real == Min(AsReals(counts)) ==> eq[i] == 1.0
    ensures forall i :: 0 <= i < |counts| && counts[i] as real == Max(AsReals(counts)) ==> eq[i] == 0.1
    ensures forall i, j :: 0 <= i < |counts| && 0 <= j < |counts| && counts[i] <= counts[j] ==> eq[j] <= eq[i]
  {
    var x := AsReals(counts);
    var eq := Norm(1.0, 0.1, x);
    NormWithin(1.0, 0.1, x);
    forall i, j | 0 <= i < |counts| && 0 <= j < |counts| && counts[i] <= counts[j]
      ensures eq[j] <= eq[i]
    {
      RescaleAntitone(1.0, 0.1, Min(x), Max(x), x[i], x[j]);
    }
    eq
  }
}
