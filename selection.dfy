/**
 * The colour-selection rules of code.py that pick one sounding note:
 * `high_low` (the highest or lowest pitch) and `new_old_high` (the latest,
 * the oldest or the loudest note), each dimming the chosen note's colour by
 * how long ago it arrived.
 */
module Selection {
  import opened NoteTable

  /** How long, in seconds, a note takes to fade out. */
  const Fade: real := 0.75

  /** The names of the selection modes. */
  datatype ModeName = Latest | Oldest | Highest | Lowest | Average | Median | HighVel

  /** `MODES`: the selection modes, in the order the mode button steps through them. */
  const Modes: seq<ModeName> := [Latest, Oldest, Highest, Lowest, Average, Median, HighVel]

  /** `max(-(current - ago) + FADE, 0) / FADE`: 1 for a note that just arrived, 0 once it is FADE old. */
  function FadeOut(current: real, ago: real): (f: real)
    ensures 0.0 <= f
    ensures current - ago >= Fade ==> f == 0.0
    ensures current - ago < Fade ==> f == 1.0 - (current - ago) / Fade
    ensures ago <= current ==> f <= 1.0
  {
    (if Fade - (current - ago) > 0.0 then Fade - (current - ago) else 0.0) / Fade
  }

  /** A note that arrived earlier is never brighter than one that arrived later. */
  lemma FadeOutMonotone(current: real, older: real, newer: real)
    requires older <= newer
    ensures FadeOut(current, older) <= FadeOut(current, newer)
  {
  }

  /** A colour with every channel scaled by `f`. */
  function Shade(e: Entry, f: real): (c: Rgb)
    ensures 0.0 <= f && 0.0 <= e.r && 0.0 <= e.g && 0.0 <= e.b ==> 0.0 <= c.r && 0.0 <= c.g && 0.0 <= c.b
  {
    Rgb(e.r * f, e.g * f, e.b * f)
  }

  /** `sorted(keys)[-1]`: the largest key. */
  function HighestKey(s: seq<int>): (k: int)
    requires |s| > 0
    ensures k in s
    ensures forall j :: 0 <= j < |s| ==> s[j] <= k
  {
    if |s| == 1 then s[0]
    else
      var k := HighestKey(s[1..]);
      if s[0] > k then s[0] else k
  }

  /** `sorted(keys)[0]`: the smallest key. */
  function LowestKey(s: seq<int>): (k: int)
    requires |s| > 0
    ensures k in s
    ensures forall j :: 0 <= j < |s| ==> k <= s[j]
  {
    if |s| == 1 then s[0]
    else
      var k := LowestKey(s[1..]);
      if s[0] < k then s[0] else k
  }

  /** The pitch `high_low` plays: the highest in mode "highest", the lowest in every other mode. */
  function HighLowKey(t: Table, mode: nat): (k: int)
    requires Valid(t) && |t.order| > 0 && mode < |Modes|
    ensures k in t.values
    ensures Modes[mode] == Highest ==> forall m :: m in t.values ==> m <= k
    ensures Modes[mode] != Highest ==> forall m :: m in t.values ==> k <= m
  {
    assert forall m :: m in t.values ==> t.order[IndexOf(t.order, m)] == m;
    if Modes[mode] == Highest then HighestKey(t.order) else LowestKey(t.order)
  }

  /**
   * `high_low(notes, current, mode)`: the colour of the highest pitch in mode
   * Highest (the lowest otherwise), faded by its age.
   */
  function HighLow(t: Table, current: real, mode: nat): (c: Rgb)
    requires Valid(t) && |t.order| > 0 && mode < |Modes|
    ensures exists k ::
              && k in t.values
              && (Modes[mode] == Highest ==> forall m :: m in t.values ==> m <= k)
              && (Modes[mode] != Highest ==> forall m :: m in t.values ==> k <= m)
              && c == Shade(t.values[k], FadeOut(current, t.values[k].stamp))
  {
    var k := HighLowKey(t, mode);
    var c := Shade(t.values[k], FadeOut(current, t.values[k].stamp));
    assert k in t.values && c == Shade(t.values[k], FadeOut(current, t.values[k].stamp));
    c
  }

  /**
   * The sort key of `new_old_high`: the velocity in mode "highvel", else the
   * arrival time, negated in mode "oldest" (where the sort is reversed).
   */
  function Score(e: Entry, mode: nat): real
    requires mode < |Modes|
  {
    if Modes[mode] == HighVel then e.vel
    else if Modes[mode] == Oldest then -e.stamp
    else e.stamp
  }

  /**
   * The last position holding the largest value: where a stable sort in
   * ascending order puts the element it leaves at the end.
   */
  function LastMaxIndex(s: seq<real>): (i: nat)
    requires |s| > 0
    ensures i < |s|
    ensures forall j :: 0 <= j < |s| ==> s[j] <= s[i]
    ensures forall j :: i < j < |s| ==> s[j] < s[i]
  {
    if |s| == 1 then 0
    else
      var i := LastMaxIndex(s[..|s| - 1]);
      assert forall j :: 0 <= j < |s| - 1 ==> s[..|s| - 1][j] == s[j];
      if s[|s| - 1] >= s[i] then |s| - 1 else i
  }

  /** The scores of the values in insertion order. */
  function Scores(vs: seq<Entry>, mode: nat): (s: seq<real>)
    requires mode < |Modes|
    ensures |s| == |vs|
    ensures forall i :: 0 <= i < |vs| ==> s[i] == Score(vs[i], mode)
  {
    seq(|vs|, i requires 0 <= i < |vs| => Score(vs[i], mode))
  }

  /**
   * Position `i` is where a stable sort by score leaves the last element: its
   * score is the largest, and every later position scores strictly less.
   */
  predicate Chosen(t: Table, mode: nat, i: nat)
    requires Valid(t) && mode < |Modes|
  {
    && i < |t.order|
    && (forall j :: 0 <= j < |t.order| ==> Score(t.values[t.order[j]], mode) <= Score(t.values[t.order[i]], mode))
    && (forall j :: i < j < |t.order| ==> Score(t.values[t.order[j]], mode) < Score(t.values[t.order[i]], mode))
  }

  /** Only one position is chosen, so the note played is determined even among equal scores. */
  lemma ChosenUnique(t: Table, mode: nat, i: nat, j: nat)
    requires Valid(t) && mode < |Modes|
    requires Chosen(t, mode, i) && Chosen(t, mode, j)
    ensures Score(t.values[t.order[i]], mode) == Score(t.values[t.order[j]], mode)
    ensures i == j
  {
  }

  /**
   * The position, in insertion order, of the note `new_old_high` plays: the
   * last one a stable sort by score leaves at the end.
   */
  function NewOldHighIndex(t: Table, mode: nat): (i: nat)
    requires Valid(t) && |t.order| > 0 && mode < |Modes|
    ensures Chosen(t, mode, i)
  {
    var s := Scores(Values(t), mode);
    LastMaxIndex(s)
  }

  /**
   * The chosen note is the loudest in mode "highvel", the oldest in mode
   * "oldest" and the latest otherwise.
   */
  lemma ChosenMeaning(t: Table, mode: nat, i: nat)
    requires Valid(t) && mode < |Modes| && Chosen(t, mode, i)
    ensures Modes[mode] == HighVel ==>
              forall j :: 0 <= j < |t.order| ==> t.values[t.order[j]].vel <= t.values[t.order[i]].vel
    ensures Modes[mode] == Oldest ==>
              forall j :: 0 <= j < |t.order| ==> t.values[t.order[i]].stamp <= t.values[t.order[j]].stamp
    ensures Modes[mode] != HighVel && Modes[mode] != Oldest ==>
              forall j :: 0 <= j < |t.order| ==> t.values[t.order[j]].stamp <= t.values[t.order[i]].stamp
  {
    forall j | 0 <= j < |t.order|
      ensures Score(t.values[t.order[j]], mode) <= Score(t.values[t.order[i]], mode)
    {
    }
  }

  /** `1 + len(notes) / (88 * 2)`: the more notes sound, the brighter the chosen one. */
  function Boost(n: nat): (b: real)
    ensures b >= 1.0
  {
    1.0 + n as real / (88 * 2) as real
  }

  /**
   * `fadeout(current, ago) * (1 + len(notes) / (88 * 2))`: how bright the
   * chosen note is drawn; nothing once it is FADE old.
   */
  function Brightness(current: real, stamp: real, n: nat): (b: real)
    ensures 0.0 <= b
    ensures current - stamp >= Fade ==> b == 0.0
  {
    FadeOut(current, stamp) * Boost(n)
  }

  /** `new_old_high(notes, current, mode)`: the chosen note's colour, faded by its age and boosted by the number of notes. */
  function NewOldHigh(t: Table, current: real, mode: nat): (c: Rgb)
    requires Valid(t) && |t.order| > 0 && mode < |Modes|
    ensures exists i: nat ::
              && Chosen(t, mode, i)
              && c == Shade(t.values[t.order[i]], Brightness(current, t.values[t.order[i]].stamp, |t.order|))
  {
    var i := NewOldHighIndex(t, mode);
    Shade(t.values[t.order[i]], Brightness(current, t.values[t.order[i]].stamp, |t.order|))
  }
}
