/**
 * The band equalizer of audio_to_midi.py: the spectrum is cut into contiguous
 * bands the way numpy's `array_split` cuts an array of n elements into k
 * sections (the first n % k sections one element longer than the others), and
 * every element of band b is multiplied by the band's level `levels[b]`.
 */
module BandEqualizer {

  /** The number of elements in band `b` when `n` elements are split into `k` bands. */
  function BandSize(n: nat, k: nat, b: nat): nat
    requires k > 0
  {
    n / k + (if b < n % k then 1 else 0)
  }

  /** The index of the first element of band `b`; `BandStart(n, k, k)` is one past the last. */
  function BandStart(n: nat, k: nat, b: nat): nat
    requires k > 0
  {
    if b == 0 then 0 else BandStart(n, k, b - 1) + BandSize(n, k, b - 1)
  }

  /** Band `b` starts after `b` bands of `n / k` elements and one extra element for each earlier long band. */
  lemma {:induction false} BandStartClosed(n: nat, k: nat, b: nat)
    requires k > 0
    ensures BandStart(n, k, b) == b * (n / k) + (if b < n % k then b else n % k)
  {
    if b > 0 {
      BandStartClosed(n, k, b - 1);
      assert b * (n / k) == (b - 1) * (n / k) + n / k;
    }
  }

  /** The bands start at index 0 and together end exactly at `n`. */
  lemma BandsCover(n: nat, k: nat)
    requires k > 0
    ensures BandStart(n, k, 0) == 0
    ensures BandStart(n, k, k) == n
  {
    BandStartClosed(n, k, k);
    assert n == k * (n / k) + n % k;
  }

  /** The first `n % k` bands hold one element more than the others. */
  lemma BandSizes(n: nat, k: nat, b: nat)
    requires k > 0 && b < k
    ensures b < n % k ==> BandSize(n, k, b) == n / k + 1
    ensures n % k <= b ==> BandSize(n, k, b) == n / k
  {
  }

  /** Band starts never decrease, so every band lies inside the input. */
  lemma {:induction false} BandStartMonotone(n: nat, k: nat, b: nat, c: nat)
    requires k > 0 && b <= c
    ensures BandStart(n, k, b) <= BandStart(n, k, c)
    decreases c - b
  {
    if b < c {
      BandStartMonotone(n, k, b + 1, c);
    }
  }

  /** Band `b` of `k` bands over `n` elements ends no later than `n`. */
  lemma BandInside(n: nat, k: nat, b: nat)
    requires k > 0 && b < k
    ensures BandStart(n, k, b) + BandSize(n, k, b) <= n
  {
    BandStartMonotone(n, k, b + 1, k);
    BandsCover(n, k);
  }

  /** Every element of `s` multiplied by `c`. */
  function Scale(s: seq<real>, c: real): (r: seq<real>)
    ensures |r| == |s|
    ensures forall i :: 0 <= i < |s| ==> r[i] == s[i] * c
  {
    seq(|s|, i requires 0 <= i < |s| => s[i] * c)
  }

  /** The first `b` bands of the equalized spectrum, each scaled by its level. */
  function EqualizedPrefix(fft: seq<real>, levels: seq<real>, b: nat): (r: seq<real>)
    requires 0 < |levels| && b <= |levels|
    ensures |r| == BandStart(|fft|, |levels|, b)
    decreases b
  {
    if b == 0 then []
    else
      var n, k := |fft|, |levels|;
      BandInside(n, k, b - 1);
      EqualizedPrefix(fft, levels, b - 1)
        + Scale(fft[BandStart(n, k, b - 1)..BandStart(n, k, b)], levels[b - 1])
  }

  /** The whole equalized spectrum: every band scaled by its level. */
  function Equalized(fft: seq<real>, levels: seq<real>): (r: seq<real>)
    requires 0 < |levels|
    ensures |r| == |fft|
  {
    BandsCover(|fft|, |levels|);
    EqualizedPrefix(fft, levels, |levels|)
  }

  /** Adding band `b - 1` to the prefix keeps the elements before it. */
  lemma EqualizedPrefixKeeps(fft: seq<real>, levels: seq<real>, b: nat, j: nat)
    requires 0 < |levels| && 0 < b <= |levels|
    requires j < BandStart(|fft|, |levels|, b - 1)
    ensures j < |EqualizedPrefix(fft, levels, b)|
    ensures EqualizedPrefix(fft, levels, b)[j] == EqualizedPrefix(fft, levels, b - 1)[j]
  {
    BandStartMonotone(|fft|, |levels|, b - 1, b);
  }

  /** Inside band `b - 1`, the prefix of `b` bands holds the input element times that band's level. */
  lemma EqualizedPrefixLast(fft: seq<real>, levels: seq<real>, b: nat, j: nat)
    requires 0 < |levels| && 0 < b <= |levels|
    requires BandStart(|fft|, |levels|, b - 1) <= j < BandStart(|fft|, |levels|, b) && j < |fft|
    ensures j < |EqualizedPrefix(fft, levels, b)|
    ensures EqualizedPrefix(fft, levels, b)[j] == fft[j] * levels[b - 1]
  {
    var n, k := |fft|, |levels|;
    BandInside(n, k, b - 1);
    var lo, hi := BandStart(n, k, b - 1), BandStart(n, k, b);
    assert EqualizedPrefix(fft, levels, b)[j] == Scale(fft[lo..hi], levels[b - 1])[j - lo];
  }

  /** Inside the first `b` bands, element j is the input element times the level of its band. */
  lemma {:induction false} EqualizedPrefixAt(fft: seq<real>, levels: seq<real>, b: nat, c: nat, j: nat)
    requires 0 < |levels| && c < b <= |levels|
    requires BandStart(|fft|, |levels|, c) <= j < BandStart(|fft|, |levels|, c + 1) && j < |fft|
    ensures j < |EqualizedPrefix(fft, levels, b)|
    ensures EqualizedPrefix(fft, levels, b)[j] == fft[j] * levels[c]
    decreases b
  {
    if c < b - 1 {
      BandStartMonotone(|fft|, |levels|, c + 1, b - 1);
      EqualizedPrefixAt(fft, levels, b - 1, c, j);
      EqualizedPrefixKeeps(fft, levels, b, j);
    } else {
      EqualizedPrefixLast(fft, levels, b, j);
    }
  }

  /**
   * The equalized spectrum has the input's length, and element j of band b is
   * the input element j times `levels[b]`.
   */
  lemma EqualizedAt(fft: seq<real>, levels: seq<real>, b: nat, j: nat)
    requires b < |levels|
    requires BandStart(|fft|, |levels|, b) <= j < BandStart(|fft|, |levels|, b + 1) && j < |fft|
    ensures |Equalized(fft, levels)| == |fft|
    ensures Equalized(fft, levels)[j] == fft[j] * levels[b]
  {
    BandsCover(|fft|, |levels|);
    EqualizedPrefixAt(fft, levels, |levels|, b, j);
  }

  /** The index of the band holding element `j`. */
  lemma {:induction false} BandOf(n: nat, k: nat, j: nat) returns (b: nat)
    requires k > 0 && j < n
    ensures b < k && BandStart(n, k, b) <= j < BandStart(n, k, b + 1)
  {
    BandsCover(n, k);
    b := 0;
    while BandStart(n, k, b + 1) <= j
      invariant b < k && BandStart(n, k, b) <= j
      decreases k - b
    {
      if b + 1 == k {
        assert false;
      }
      b := b + 1;
    }
  }

  /** With every level 1 the equalizer returns its input unchanged. */
  lemma EqualizedIdentity(fft: seq<real>, levels: seq<real>)
    requires 0 < |levels|
    requires forall b :: 0 <= b < |levels| ==> levels[b] == 1.0
    ensures Equalized(fft, levels) == fft
  {
    BandsCover(|fft|, |levels|);
    forall j | 0 <= j < |fft|
      ensures Equalized(fft, levels)[j] == fft[j]
    {
      var b := BandOf(|fft|, |levels|, j);
      EqualizedAt(fft, levels, b, j);
    }
  }

  /** Writing the scaled slice `fft[i..i + size]` after a prefix of length `i` extends the prefix by that slice. */
  lemma ScaledSlice(a: seq<real>, fft: seq<real>, level: real, i: nat, size: nat)
    requires i + size <= |a| && i + size <= |fft|
    requires forall t :: i <= t < i + size ==> a[t] == fft[t] * level
    ensures a[..i + size] == a[..i] + Scale(fft[i..i + size], level)
  {
    var r := a[..i] + Scale(fft[i..i + size], level);
    forall t | 0 <= t < i + size
      ensures a[..i + size][t] == r[t]
    {
      if t >= i {
        assert r[t] == Scale(fft[i..i + size], level)[t - i] == fft[t] * level;
      }
    }
  }

  /** `result[i : i + size] = band * level`: the slice is overwritten and the prefix before it kept. */
  method FillBand(result: array<real>, fft: seq<real>, level: real, i: nat, size: nat)
    requires i + size <= result.Length && i + size <= |fft|
    modifies result
    ensures result[..i + size] == old(result[..i]) + Scale(fft[i..i + size], level)
    ensures result[i + size..] == old(result[i + size..])
  {
    forall j | i <= j < i + size {
      result[j] := fft[j] * level;
    }
    ScaledSlice(result[..], fft, level, i, size);
    assert result[..i] == old(result[..i]);
  }

  /**
   * The equalizer as the source runs it: a result array of the input's length
   * is filled band by band, with a running index `i` at the start of the band.
   */
  method Equalizer(fft: seq<real>, levels: seq<real>) returns (result: array<real>)
    requires 0 < |levels|
    ensures result.Length == |fft|
    ensures result[..] == Equalized(fft, levels)
  {
    var n, k := |fft|, |levels|;
    result := new real[n];
    var i := 0;
    var b := 0;
    while b < k
      invariant b <= k
      invariant i == BandStart(n, k, b) && i <= n
      invariant result[..i] == EqualizedPrefix(fft, levels, b)
    {
      var size := BandSize(n, k, b);
      BandInside(n, k, b);
      FillBand(result, fft, levels[b], i, size);
      i := i + size;
      b := b + 1;
    }
    BandsCover(n, k);
    assert result[..] == result[..i];
  }
}
