/**
 * The peak pick of audio_to_midi.py: `freqs[np.argwhere(fft == np.max(fft))[0]]`
 * takes the frequency of the lowest bin that holds the maximum magnitude.
 */
module Peak {

  /** Analysis window W: the spectrum keeps the first W bins of a 2W-sample transform. */
  const Window: nat := 2048
  /** Capture sample rate in Hz. */
  const SampleRate: real := 48000.0

  /** The lowest index holding the maximum of a non-empty sequence. */
  function FirstMaxIndex(s: seq<real>): (k: nat)
    requires |s| > 0
    ensures k < |s|
    ensures forall j :: 0 <= j < |s| ==> s[j] <= s[k]
    ensures forall j :: 0 <= j < k ==> s[j] < s[k]
  {
    if |s| == 1 then 0
    else
      var k := FirstMaxIndex(s[..|s| - 1]);
      assert forall j :: 0 <= j < |s| - 1 ==> s[..|s| - 1][j] == s[j];
      if s[|s| - 1] > s[k] then |s| - 1 else k
  }

  /**
   * The frequency of bin `k`, as `np.fft.fftfreq(2 * W, d = 1 / 48000)` gives it
   * for the first W bins.
   */
  function BinFrequency(k: nat): (f: real)
    requires k < Window
    ensures 0.0 <= f < SampleRate / 2.0
  {
    k as real * SampleRate / (2 * Window) as real
  }

  /** Higher bins have strictly higher frequencies. */
  lemma BinFrequencyIncreasing(k: nat, m: nat)
    requires k < m < Window
    ensures BinFrequency(k) < BinFrequency(m)
  {
  }

  /** The frequency of the strongest bin, the lowest such bin on ties. */
  function PeakFrequency(spectrum: seq<real>): (f: real)
    requires |spectrum| == Window
    ensures exists k ::
              && 0 <= k < Window && f == BinFrequency(k)
              && (forall j :: 0 <= j < Window ==> spectrum[j] <= spectrum[k])
              && (forall j :: 0 <= j < k ==> spectrum[j] < spectrum[k])
  {
    BinFrequency(FirstMaxIndex(spectrum))
  }
}
