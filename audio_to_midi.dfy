/**
 * The per-block controller of audio_to_midi.py. Each captured block arrives as
 * its RMS loudness and its magnitude spectrum; quiet blocks are ignored; loud
 * ones adapt the gain multiplier, equalize the spectrum against the recent
 * pitches, pick the strongest bin, resolve a MIDI note, and emit a note-off for
 * the previous note followed (unless the note resolves to 0) by a note-on whose
 * velocity follows the change in loudness.
 *
 * `Next` is the cycle as a function of the controller state; the class
 * `Controller` runs the same cycle by updating its fields in place.
 */
module AudioToMidi {
  import opened Wrappers
  import opened Stats
  import opened Levels
  import opened BandEqualizer
  import opened Peak

  /** Blocks whose RMS is at or below this do nothing. */
  const SilenceThreshold: real := 0.0005
  /** Number of equalizer bands. */
  const Bands: nat := 31
  /** Capacity of the level history. */
  const LevelHistoryCap: nat := 10
  /** Capacity of the pitch history. */
  const NoteHistoryCap: nat := 100

  /** The two MIDI messages the controller sends. */
  datatype Message = NoteOn(note: int, velocity: int) | NoteOff(note: int, velocity: int)

  /**
   * The loop's variables: the running level, the gain multiplier, the RMS of
   * the last block that sounded a note, the note last resolved (None before the
   * first active block), and the recent pre-clamp levels and detected
   * frequencies, oldest first.
   */
  datatype State = State(
    level: real,
    multiplier: real,
    prevRms: real,
    note: Option<int>,
    prevLevels: seq<real>,
    prevNotes: seq<real>)

  /** The new state after one block, and the messages sent during it, in order. */
  datatype Cycle = Cycle(state: State, sent: seq<Message>)

  /** A block as the loop sees it once its strongest frequency is detected: its RMS and that frequency. */
  datatype Reading = Reading(rms: real, freq: real)

  /** What holds between blocks. */
  predicate Invariant(s: State)
  {
    && 0.0 <= s.level <= 127.0
    && s.multiplier > 0.0
    && (s.note.Some? ==> 0 <= s.note.value <= 127)
    && 1 <= |s.prevLevels| <= LevelHistoryCap
    && |s.prevNotes| == NoteHistoryCap
  }

  /** The state before the first block: level 50, multiplier 2000, and pitches 1, 101, ..., 9901 seeding the history. */
  function Initial(): (s: State)
    ensures Invariant(s)
    ensures s.note == None && s.prevLevels == [s.level]
    ensures forall i :: 0 <= i < |s.prevNotes| ==> s.prevNotes[i] == (1 + 100 * i) as real
  {
    State(50.0, 2000.0, 0.0, None, [50.0], seq(100, i requires 0 <= i < 100 => (1 + 100 * i) as real))
  }

  /**
   * What numpy's `histogram(xs, 31)` promises and the controller relies on:
   * 31 counts that together count every value.
   */
  ghost predicate HistogramOk(histogram: seq<real> -> seq<nat>)
  {
    forall xs: seq<real> :: |histogram(xs)| == Bands && Sum(histogram(xs)) == |xs|
  }

  /** `min(max(n, 0), 127)` on the rounded note number. */
  function ClampNote(n: int): (r: int)
    ensures 0 <= r <= 127
    ensures 0 <= n <= 127 ==> r == n
    ensures n < 0 ==> r == 0
    ensures n > 127 ==> r == 127
  {
    if n < 0 then 0 else if n > 127 then 127 else n
  }

  /** `min(max(level, 0), 127)` on the running level. */
  function ClampLevel(x: real): (r: real)
    ensures 0.0 <= r <= 127.0
    ensures 0.0 <= x <= 127.0 ==> r == x
    ensures x < 0.0 ==> r == 0.0
    ensures x > 127.0 ==> r == 127.0
  {
    if x < 0.0 then 0.0 else if x > 127.0 then 127.0 else x
  }

  /** Python's `int(x)`: truncation toward zero. */
  function Truncate(x: real): (r: int)
    ensures 0.0 <= x ==> 0 <= r && r as real <= x < r as real + 1.0
    ensures x < 0.0 ==> r <= 0 && x <= r as real && r as real - 1.0 < x
  {
    if x >= 0.0 then x.Floor else -((-x).Floor)
  }

  /** The velocity of a clamped level is a MIDI velocity. */
  lemma TruncateLevel(x: real)
    requires 0.0 <= x <= 127.0
    ensures 0 <= Truncate(x) <= 127
  {
  }

  /**
   * Append `x` to a bounded history and drop the oldest entry if the history
   * then exceeds `cap`: the result keeps the newest entries in order, ends with
   * `x`, and never holds more than `cap`.
   */
  function Remember(h: seq<real>, x: real, cap: nat): (r: seq<real>)
    requires 0 < cap && |h| <= cap
    ensures |r| == if |h| < cap then |h| + 1 else cap
    ensures r == (h + [x])[|h| + 1 - |r|..]
    ensures r[|r| - 1] == x
  {
    var a := h + [x];
    if |a| > cap then a[1..] else a
  }

  /**
   * The bang-bang gain rule: up by 1% when every recent level lies strictly
   * inside (0, 127), down by 1% when some recent level lies beyond 0 or 127,
   * and unchanged otherwise (some level exactly at a bound, none beyond).
   */
  function AdjustMultiplier(m: real, levels: seq<real>): (r: real)
    requires |levels| > 0
    ensures (forall i :: 0 <= i < |levels| ==> 0.0 < levels[i] < 127.0) ==> r == m * 1.01
    ensures (exists i :: 0 <= i < |levels| && (levels[i] > 127.0 || levels[i] < 0.0)) ==> r == m * 0.99
    ensures && (forall i :: 0 <= i < |levels| ==> 0.0 <= levels[i] <= 127.0)
            && (exists i :: 0 <= i < |levels| && (levels[i] == 0.0 || levels[i] == 127.0))
            ==> r == m
  {
    if Max(levels) < 127.0 && Min(levels) > 0.0 then m * 1.01
    else if Max(levels) > 127.0 || Min(levels) < 0.0 then m * 0.99
    else m
  }

  /** The equalizer levels for the current pitch history, each in [0.1, 1]. */
  function EqualizerLevels(s: State, histogram: seq<real> -> seq<nat>): (eq: seq<real>)
    requires Invariant(s) && HistogramOk(histogram)
    ensures |eq| == Bands
    ensures forall b :: 0 <= b < Bands ==> 0.1 <= eq[b] <= 1.0
  {
    var counts := histogram(s.prevNotes);
    HistogramNotFlat(counts);
    AdjustmentLevels(counts)
  }

  /** The frequency of the strongest bin of the equalized spectrum. */
  function DetectedFrequency(s: State, spectrum: seq<real>, histogram: seq<real> -> seq<nat>): real
    requires Invariant(s) && |spectrum| == Window && HistogramOk(histogram)
  {
    PeakFrequency(Equalized(spectrum, EqualizerLevels(s, histogram)))
  }

  /** `level + vel`: the level moved by the change in RMS times the multiplier, before clamping. */
  function RawLevel(s: State, rms: real, multiplier: real): real
  {
    s.level + (rms - s.prevRms) * multiplier
  }

  /** The note-off for the previously resolved note, if there is one. */
  function NoteOffFor(note: Option<int>): seq<Message>
  {
    if note.Some? then [NoteOff(note.value, 0)] else []
  }

  /** With a positive multiplier the level rises exactly when the block is louder than the last one, and stays put exactly when it is as loud. */
  lemma RawLevelFollowsLoudness(s: State, rms: real, multiplier: real)
    requires multiplier > 0.0
    ensures RawLevel(s, rms, multiplier) > s.level <==> rms > s.prevRms
    ensures RawLevel(s, rms, multiplier) == s.level <==> rms == s.prevRms
  {
    var d := rms - s.prevRms;
    if d > 0.0 {
      assert d * multiplier > 0.0;
    } else if d < 0.0 {
      assert d * multiplier < 0.0;
    }
  }

  /**
   * An active block whose note resolves to a non-zero `note`: the level moves
   * by the loudness change, the previous note is switched off, the new one is
   * switched on at the clamped level, and both histories take the newest values.
   */
  function Sound(s: State, rms: real, multiplier: real, freq: real, note: int): (c: Cycle)
    requires Invariant(s) && multiplier > 0.0 && 1 <= note <= 127
    ensures Invariant(c.state)
    ensures c.state.level == ClampLevel(RawLevel(s, rms, multiplier))
    ensures c.state.multiplier == multiplier && c.state.prevRms == rms && c.state.note == Some(note)
    ensures c.state.prevLevels == Remember(s.prevLevels, RawLevel(s, rms, multiplier), LevelHistoryCap)
    ensures c.state.prevNotes == Remember(s.prevNotes, freq, NoteHistoryCap)
    ensures c.sent == NoteOffFor(s.note) + [NoteOn(note, Truncate(c.state.level))]
    ensures 0 <= Truncate(c.state.level) <= 127
  {
    var raw := RawLevel(s, rms, multiplier);
    var level := ClampLevel(raw);
    TruncateLevel(level);
    Cycle(
      State(level, multiplier, rms, Some(note),
            Remember(s.prevLevels, raw, LevelHistoryCap),
            Remember(s.prevNotes, freq, NoteHistoryCap)),
      NoteOffFor(s.note) + [NoteOn(note, Truncate(level))])
  }

  /** What a sounding block does to the state does not depend on the gain or note it started from. */
  lemma SoundIgnoresGainAndNote(s: State, t: State, rms: real, multiplier: real, freq: real, note: int)
    requires Invariant(s) && Invariant(t) && multiplier > 0.0 && 1 <= note <= 127
    requires t == s.(multiplier := t.multiplier, note := t.note)
    ensures Sound(t, rms, multiplier, freq, note).state == Sound(s, rms, multiplier, freq, note).state
  {
    assert t.level == s.level && t.prevRms == s.prevRms;
    assert t.prevLevels == s.prevLevels && t.prevNotes == s.prevNotes;
    assert RawLevel(t, rms, multiplier) == RawLevel(s, rms, multiplier);
  }

  /**
   * An active block once its frequency is known. `noteOf` stands for
   * `int(round(freq_to_note(f + 0.000001)))`, the rounded fractional note
   * number of a frequency. The gain adapts, the previous note is switched off
   * first, and a note-on for the new note follows unless the note is 0.
   */
  function Active(s: State, rms: real, freq: real, noteOf: real -> int): (c: Cycle)
    requires Invariant(s)
    ensures Invariant(c.state)
    ensures |c.sent| <= 2
    // every active block adapts the gain and resolves a note, even the note 0
    ensures c.state.multiplier == AdjustMultiplier(s.multiplier, s.prevLevels)
    ensures c.state.note == Some(ClampNote(noteOf(freq)))
    // a note resolving to 0 is a rest: only the gain and the note change
    ensures c.state.note == Some(0) ==>
      && c.sent == NoteOffFor(s.note)
      && c.state == s.(multiplier := c.state.multiplier, note := Some(0))
    // any other note sounds with the level moved by the loudness change
    ensures c.state.note != Some(0) ==>
      c == Sound(s, rms, c.state.multiplier, freq, c.state.note.value)
  {
    var multiplier := AdjustMultiplier(s.multiplier, s.prevLevels);
    var note := ClampNote(noteOf(freq));
    if note != 0 then Sound(s, rms, multiplier, freq, note)
    else Cycle(s.(multiplier := multiplier, note := Some(0)), NoteOffFor(s.note))
  }

  /**
   * The messages of an active block: the previous note is switched off before
   * anything else is sent, and at most one note-on follows, last, for the new
   * note, inside the MIDI ranges.
   */
  lemma ActiveMessages(s: State, rms: real, freq: real, noteOf: real -> int)
    requires Invariant(s)
    ensures var c := Active(s, rms, freq, noteOf);
      && (s.note.Some? ==> |c.sent| > 0 && c.sent[0] == NoteOff(s.note.value, 0))
      && (forall i :: 0 <= i < |c.sent| && c.sent[i].NoteOff? ==>
            i == 0 && s.note == Some(c.sent[i].note) && c.sent[i].velocity == 0)
      && (forall i :: 0 <= i < |c.sent| && c.sent[i].NoteOn? ==>
            && i == |c.sent| - 1
            && 1 <= c.sent[i].note <= 127 && 0 <= c.sent[i].velocity <= 127
            && c.state.note == Some(c.sent[i].note)
            && c.sent[i].velocity == Truncate(c.state.level))
  {
  }

  /**
   * One pass of the loop body once the block's frequency is known: a block at
   * or below the silence threshold leaves everything as it was, any other is
   * answered by `Active`.
   */
  function Pass(s: State, r: Reading, noteOf: real -> int): (c: Cycle)
    requires Invariant(s)
    ensures Invariant(c.state)
    ensures |c.sent| <= 2
    ensures r.rms <= SilenceThreshold ==> c == Cycle(s, [])
    ensures r.rms > SilenceThreshold ==> c == Active(s, r.rms, r.freq, noteOf)
  {
    if r.rms <= SilenceThreshold then Cycle(s, []) else Active(s, r.rms, r.freq, noteOf)
  }

  /**
   * One pass of the main loop on a captured block: a block at or below the
   * silence threshold leaves everything as it was; any other block is answered
   * from the frequency of the strongest bin of its equalized spectrum.
   */
  function Next(s: State, rms: real, spectrum: seq<real>,
                histogram: seq<real> -> seq<nat>, noteOf: real -> int): (c: Cycle)
    requires Invariant(s) && |spectrum| == Window && HistogramOk(histogram)
    ensures Invariant(c.state)
    ensures |c.sent| <= 2
    ensures rms <= SilenceThreshold ==> c == Cycle(s, [])
    ensures rms > SilenceThreshold ==> c == Pass(s, Reading(rms, DetectedFrequency(s, spectrum, histogram)), noteOf)
  {
    if rms <= SilenceThreshold then Cycle(s, [])
    else Active(s, rms, DetectedFrequency(s, spectrum, histogram), noteOf)
  }

  /** The loop run over a sequence of readings: the final state and every message sent, in order. */
  function Run(s: State, readings: seq<Reading>, noteOf: real -> int): (c: Cycle)
    requires Invariant(s)
    ensures Invariant(c.state)
    ensures |c.sent| <= 2 * |readings|
    decreases |readings|
  {
    if readings == [] then Cycle(s, [])
    else
      var first := Pass(s, readings[0], noteOf);
      var rest := Run(first.state, readings[1..], noteOf);
      Cycle(rest.state, first.sent + rest.sent)
  }

  /** A run of readings that are all at or below the silence threshold sends nothing and changes nothing. */
  lemma {:induction false} RunSilent(s: State, readings: seq<Reading>, noteOf: real -> int)
    requires Invariant(s)
    requires forall i :: 0 <= i < |readings| ==> readings[i].rms <= SilenceThreshold
    ensures Run(s, readings, noteOf) == Cycle(s, [])
    decreases |readings|
  {
    if readings != [] {
      RunSilent(s, readings[1..], noteOf);
    }
  }

  /**
   * A receiver that tracks the one note it hears sounding accepts `sent`:
   * a note-on arrives only while nothing sounds, and a note-off silences the
   * note it names (a note-off for another note changes nothing).
   */
  predicate Exclusive(sent: seq<Message>, sounding: Option<int>)
    decreases |sent|
  {
    sent == [] ||
    match sent[0]
    case NoteOn(n, _) => sounding == None && Exclusive(sent[1..], Some(n))
    case NoteOff(n, _) => Exclusive(sent[1..], if sounding == Some(n) then None else sounding)
  }

  /** The note the receiver hears sounding after `sent`. */
  function Heard(sent: seq<Message>, sounding: Option<int>): Option<int>
    decreases |sent|
  {
    if sent == [] then sounding
    else
      match sent[0]
      case NoteOn(n, _) => Heard(sent[1..], Some(n))
      case NoteOff(n, _) => Heard(sent[1..], if sounding == Some(n) then None else sounding)
  }

  /** A stream is accepted exactly when its two halves are, the second from where the first leaves the receiver. */
  lemma {:induction false} ExclusiveAppend(a: seq<Message>, b: seq<Message>, sounding: Option<int>)
    ensures Exclusive(a + b, sounding) <==> Exclusive(a, sounding) && Exclusive(b, Heard(a, sounding))
    ensures Heard(a + b, sounding) == Heard(b, Heard(a, sounding))
    decreases |a|
  {
    if a == [] {
      assert a + b == b;
    } else {
      assert (a + b)[0] == a[0] && (a + b)[1..] == a[1..] + b;
      var next := match a[0]
        case NoteOn(n, _) => Some(n)
        case NoteOff(n, _) => if sounding == Some(n) then None else sounding;
      ExclusiveAppend(a[1..], b, next);
    }
  }

  /** The note-off for the controller's note silences whatever the receiver hears. */
  lemma NoteOffSilences(note: Option<int>, sounding: Option<int>)
    requires sounding.Some? ==> note == sounding
    ensures Exclusive(NoteOffFor(note), sounding)
    ensures Heard(NoteOffFor(note), sounding) == None
  {
    var off := NoteOffFor(note);
    if note.Some? {
      assert off[0] == NoteOff(note.value, 0) && off[1..] == [];
      assert Exclusive(off[1..], None) && Heard(off[1..], None) == None;
    }
  }

  /** A lone note-on is accepted in silence and leaves its note sounding. */
  lemma NoteOnSounds(n: int, velocity: int)
    ensures Exclusive([NoteOn(n, velocity)], None)
    ensures Heard([NoteOn(n, velocity)], None) == Some(n)
  {
    var on := [NoteOn(n, velocity)];
    assert on[1..] == [];
    assert Exclusive(on[1..], Some(n)) && Heard(on[1..], Some(n)) == Some(n);
  }

  /**
   * An active block never makes two notes sound at once: whatever the
   * receiver hears sounding is the controller's current note, before and after.
   */
  lemma ActiveExclusive(s: State, rms: real, freq: real, noteOf: real -> int, sounding: Option<int>)
    requires Invariant(s)
    requires sounding.Some? ==> s.note == sounding
    ensures var c := Active(s, rms, freq, noteOf);
      && Exclusive(c.sent, sounding)
      && (Heard(c.sent, sounding).Some? ==> c.state.note == Heard(c.sent, sounding))
  {
    var c := Active(s, rms, freq, noteOf);
    var off := NoteOffFor(s.note);
    NoteOffSilences(s.note, sounding);
    if c.state.note != Some(0) {
      var on := [NoteOn(c.state.note.value, Truncate(c.state.level))];
      NoteOnSounds(c.state.note.value, Truncate(c.state.level));
      assert c.sent == off + on;
      ExclusiveAppend(off, on, sounding);
    }
  }

  /** The same for any pass, silent or not. */
  lemma PassExclusive(s: State, r: Reading, noteOf: real -> int, sounding: Option<int>)
    requires Invariant(s)
    requires sounding.Some? ==> s.note == sounding
    ensures var c := Pass(s, r, noteOf);
      && Exclusive(c.sent, sounding)
      && (Heard(c.sent, sounding).Some? ==> c.state.note == Heard(c.sent, sounding))
  {
    if r.rms > SilenceThreshold {
      ActiveExclusive(s, r.rms, r.freq, noteOf, sounding);
    }
  }

  /**
   * The note-exclusivity invariant over any run: every note-on is sent while
   * the receiver hears nothing sounding, so a new note never starts before the
   * previous one has been switched off.
   */
  lemma {:induction false} RunExclusive(s: State, readings: seq<Reading>, noteOf: real -> int, sounding: Option<int>)
    requires Invariant(s)
    requires sounding.Some? ==> s.note == sounding
    ensures Exclusive(Run(s, readings, noteOf).sent, sounding)
    decreases |readings|
  {
    if readings != [] {
      var first := Pass(s, readings[0], noteOf);
      PassExclusive(s, readings[0], noteOf, sounding);
      RunExclusive(first.state, readings[1..], noteOf, Heard(first.sent, sounding));
      ExclusiveAppend(first.sent, Run(first.state, readings[1..], noteOf).sent, sounding);
    }
  }

  /** From start-up, whatever the blocks and whatever frequencies are detected, the stream sent is note-exclusive. */
  lemma InitialRunExclusive(readings: seq<Reading>, noteOf: real -> int)
    ensures Exclusive(Run(Initial(), readings, noteOf).sent, None)
  {
    RunExclusive(Initial(), readings, noteOf, None);
  }

  /** The main loop's variables, updated in place block by block. */
  class Controller {
    var level: real
    var multiplier: real
    var prevRms: real
    var note: Option<int>
    var prevLevels: seq<real>
    var prevNotes: seq<real>

    /** The fields as a `State` value. */
    function Snapshot(): State
      reads this
    {
      State(level, multiplier, prevRms, note, prevLevels, prevNotes)
    }

    ghost predicate Valid()
      reads this
    {
      Invariant(Snapshot())
    }

    /** The set-up before the loop. */
    constructor ()
      ensures Valid() && Snapshot() == Initial()
    {
      note := None;
      level := 50.0;
      multiplier := 2000.0;
      prevRms := 0.0;
      prevLevels := [50.0];
      prevNotes := seq(100, i requires 0 <= i < 100 => (1 + 100 * i) as real);
    }

    /**
     * The detection half of an active pass: the equalizer levels from the
     * pitch history, the spectrum equalized in a fresh buffer, and the
     * frequency of its strongest bin.
     */
    method Detect(spectrum: seq<real>, histogram: seq<real> -> seq<nat>) returns (freq: real)
      requires Valid() && |spectrum| == Window && HistogramOk(histogram)
      ensures freq == DetectedFrequency(Snapshot(), spectrum, histogram)
    {
      var counts := histogram(prevNotes);
      HistogramNotFlat(counts);
      var eq := AdjustmentLevels(counts);
      // the peak before equalization; the source computes it and never uses it
      var freqNoEq := BinFrequency(FirstMaxIndex(spectrum));
      var fft := Equalizer(spectrum, eq);
      freq := BinFrequency(FirstMaxIndex(fft[..]));
    }

    /** The gain rule applied to the multiplier; nothing else changes. */
    method AdaptGain()
      requires Valid()
      modifies this
      ensures Valid()
      ensures Snapshot() == old(Snapshot()).(multiplier := AdjustMultiplier(old(multiplier), prevLevels))
    {
      if Max(prevLevels) < 127.0 && Min(prevLevels) > 0.0 {
        multiplier := multiplier * 1.01;
      } else if Max(prevLevels) > 127.0 || Min(prevLevels) < 0.0 {
        multiplier := multiplier * 0.99;
      }
    }

    /**
     * The sounding branch of an active pass, once the multiplier is adapted
     * and the new note is set: the level moves by `vel`, both histories take
     * the newest values, and the note-on to send is returned.
     */
    method Play(rms: real, freq: real) returns (on: Message)
      requires Valid() && note.Some? && 1 <= note.value <= 127
      modifies this
      ensures Valid()
      ensures Snapshot() == Sound(old(Snapshot()), rms, old(multiplier), freq, old(note.value)).state
      ensures on == NoteOn(note.value, Truncate(level))
    {
      ghost var s := Snapshot();
      var vel := (rms - prevRms) * multiplier;
      level := level + vel;
      assert level == RawLevel(s, rms, multiplier);
      prevNotes := prevNotes + [freq];
      prevLevels := prevLevels + [level];
      level := ClampLevel(level);
      on := NoteOn(note.value, Truncate(level));
      prevRms := rms;
      if |prevLevels| > LevelHistoryCap {
        prevLevels := prevLevels[1..];
      }
      if |prevNotes| > NoteHistoryCap {
        prevNotes := prevNotes[1..];
      }
      assert prevLevels == Remember(s.prevLevels, RawLevel(s, rms, multiplier), LevelHistoryCap);
    }

    /**
     * The answering half of an active pass: adapt the multiplier, switch the
     * previous note off, and sound the new one unless it is 0.
     */
    method Respond(rms: real, freq: real, noteOf: real -> int) returns (sent: seq<Message>)
      requires Valid()
      modifies this
      ensures Valid()
      ensures Cycle(Snapshot(), sent) == Active(old(Snapshot()), rms, freq, noteOf)
    {
      ghost var s := Snapshot();
      sent := [];
      AdaptGain();
      if note.Some? {
        sent := sent + [NoteOff(note.value, 0)];
      }
      assert sent == NoteOffFor(s.note);
      note := Some(ClampNote(noteOf(freq)));
      if note.value != 0 {
        SoundIgnoresGainAndNote(s, Snapshot(), rms, multiplier, freq, note.value);
        var on := Play(rms, freq);
        sent := sent + [on];
      } else {
        assert Snapshot() == s.(multiplier := multiplier, note := Some(0));
      }
    }

    /** One pass of the loop body, returning the messages it sends in order. */
    method Step(rms: real, spectrum: seq<real>,
                histogram: seq<real> -> seq<nat>, noteOf: real -> int) returns (sent: seq<Message>)
      requires Valid() && |spectrum| == Window && HistogramOk(histogram)
      modifies this
      ensures Valid()
      ensures Cycle(Snapshot(), sent) == Next(old(Snapshot()), rms, spectrum, histogram, noteOf)
    {
      sent := [];
      if rms > SilenceThreshold {
        var freq := Detect(spectrum, histogram);
        sent := Respond(rms, freq, noteOf);
      }
    }
  }
}
