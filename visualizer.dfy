/**
 * The state `main` in code.py keeps from one pass of its loop to the next:
 * the selection mode, the last reading of the mode button and the table of
 * sounding notes. Each pass steps the mode on a fresh press of the button,
 * reads the MIDI port into the table and prunes the notes that have faded out.
 */
module Visualizer {
  import opened Hex
  import opened ActiveSensing
  import opened NoteTable
  import opened MidiInput
  import opened Selection

  /** `mode += 1; if mode >= len(MODES): mode = 0`. */
  function Advance(mode: nat): (m: nat)
    requires mode < |Modes|
    ensures m < |Modes|
    ensures m == (mode + 1) % |Modes|
  {
    if mode + 1 >= |Modes| then 0 else mode + 1
  }

  /** The mode after `n` presses. */
  function Presses(mode: nat, n: nat): (m: nat)
    requires mode < |Modes|
    ensures m < |Modes|
  {
    if n == 0 then mode else Advance(Presses(mode, n - 1))
  }

  /** Pressing the button `n` times steps through the modes cyclically. */
  lemma {:induction false} PressesCycle(mode: nat, n: nat)
    requires mode < |Modes|
    ensures Presses(mode, n) == (mode + n) % |Modes|
  {
    if n > 0 {
      PressesCycle(mode, n - 1);
      ModSucc(mode + n - 1);
    }
  }

  /** Counting up by one modulo the number of modes wraps to 0 exactly after the last mode. */
  lemma ModSucc(a: nat)
    ensures (a + 1) % |Modes| == if a % |Modes| + 1 < |Modes| then a % |Modes| + 1 else 0
  {
    assert |Modes| == 7;
  }

  /** Seven presses bring the button back to the mode it started in. */
  lemma FullCycle(mode: nat)
    requires mode < |Modes|
    ensures Presses(mode, |Modes|) == mode
  {
    PressesCycle(mode, |Modes|);
  }

  /** An entry survives pruning at time `now` unless it is more than FADE old. */
  predicate Fresh(e: Entry, now: real)
  {
    now - e.stamp <= Fade
  }

  /** A note pruned at `now` would be drawn with no brightness: pruning removes only notes already faded out. */
  lemma StaleIsDark(e: Entry, now: real, n: nat)
    requires !Fresh(e, now)
    ensures FadeOut(now, e.stamp) == 0.0 && Brightness(now, e.stamp, n) == 0.0
  {
  }

  /** The keys of `ks`, in order, whose entries survive pruning. */
  function FreshKeys(values: map<int, Entry>, ks: seq<int>, now: real): (r: seq<int>)
    ensures |r| <= |ks|
  {
    if ks == [] then []
    else
      var last := ks[|ks| - 1];
      FreshKeys(values, ks[..|ks| - 1], now) + (if last in values && Fresh(values[last], now) then [last] else [])
  }

  /** The keys kept are exactly the listed keys whose entries are fresh. */
  lemma {:induction false} FreshKeysMembers(values: map<int, Entry>, ks: seq<int>, now: real)
    ensures forall m :: m in FreshKeys(values, ks, now) <==> m in ks && m in values && Fresh(values[m], now)
  {
    if ks != [] {
      var front := ks[..|ks| - 1];
      FreshKeysMembers(values, front, now);
      assert ks == front + [ks[|ks| - 1]];
    }
  }

  /** Dropping keys from a list without repeats leaves a list without repeats. */
  lemma {:induction false} FreshKeysDistinct(values: map<int, Entry>, ks: seq<int>, now: real)
    requires Distinct(ks)
    ensures Distinct(FreshKeys(values, ks, now))
  {
    if ks != [] {
      var front := ks[..|ks| - 1];
      DistinctApart(ks);
      ApartDistinct(front);
      FreshKeysDistinct(values, front, now);
      FreshKeysMembers(values, front, now);
      DistinctApart(FreshKeys(values, front, now));
      ApartDistinct(FreshKeys(values, ks, now));
    }
  }

  /** `notes` after the pruning loop: the fresh entries, unchanged and in their order. */
  function Pruned(t: Table, now: real): (r: Table)
    requires Valid(t)
    ensures Valid(r)
    ensures forall m :: m in r.values ==> m in t.values && r.values[m] == t.values[m]
    ensures forall m :: m in r.values ==> now - r.values[m].stamp <= Fade
    ensures forall m :: m in t.values && now - t.values[m].stamp <= Fade ==> m in r.values
  {
    FreshKeysDistinct(t.values, t.order, now);
    FreshKeysMembers(t.values, t.order, now);
    Table(FreshKeys(t.values, t.order, now), map m | m in t.values && Fresh(t.values[m], now) :: t.values[m])
  }

  /** A list of keys whose entries are all fresh is kept whole. */
  lemma {:induction false} AllFreshKept(values: map<int, Entry>, ks: seq<int>, now: real)
    requires forall i :: 0 <= i < |ks| ==> ks[i] in values && Fresh(values[ks[i]], now)
    ensures FreshKeys(values, ks, now) == ks
  {
    if ks != [] {
      var front := ks[..|ks| - 1];
      AllFreshKept(values, front, now);
      assert ks == front + [ks[|ks| - 1]];
    }
  }

  /** Pruning twice at the same time prunes nothing more. */
  lemma PrunedIdempotent(t: Table, now: real)
    requires Valid(t)
    ensures Pruned(Pruned(t, now), now) == Pruned(t, now)
  {
    var p := Pruned(t, now);
    FreshKeysMembers(t.values, t.order, now);
    AllFreshKept(p.values, p.order, now);
    assert Pruned(p, now).values == p.values;
  }

  /** The text left by `defe` on hexlified bytes is hex text. */
  lemma DefeHex(h: string)
    requires IsHex(h)
    ensures IsHex(Defe(h))
  {
    if |h| >= 2 {
      HexSlice(h, 2, |h|);
      HexSlice(h, 0, |h| - 2);
    }
  }

  /**
   * One pass of the loop: the whole loop is the pass over the message at the
   * front, then the loop over the text after that chunk, which is hex text again.
   */
  lemma ChunkStep(n: Table, data: string, k: nat, clock: nat -> real, gradient: real -> Rgb)
    requires NoteTable.Valid(n) && IsHex(data) && |data| > 5
    ensures IsHex(data[6..])
    ensures ParseChunks(n, data, k, clock, gradient)
              == ParseChunks(Record(n, Front(data), Velocity(data), clock(k), gradient), data[6..], k + 1, clock, gradient)
  {
    HexSlice(data, 6, |data|);
  }

  /**
   * The pruning loop has visited the first `i` keys of `t`: those it kept,
   * then all the keys still to visit, each with its original value.
   */
  predicate PrunedUpTo(t: Table, now: real, i: nat, n: Table)
    requires Valid(t) && i <= |t.order|
  {
    && Valid(n)
    && n.order == FreshKeys(t.values, t.order[..i], now) + t.order[i..]
    && forall m :: m in n.values ==> m in t.values && n.values[m] == t.values[m]
  }

  /** The key the loop visits next is still in the table, with its original value. */
  lemma PruneVisits(t: Table, now: real, i: nat, n: Table)
    requires Valid(t) && i < |t.order| && PrunedUpTo(t, now, i, n)
    ensures t.order[i] in n.values && n.values[t.order[i]] == t.values[t.order[i]]
  {
    assert n.order[|FreshKeys(t.values, t.order[..i], now)|] == t.order[i];
  }

  /** Deleting a stale key moves the loop on by one. */
  lemma DropStale(t: Table, now: real, i: nat, n: Table)
    requires Valid(t) && i < |t.order| && PrunedUpTo(t, now, i, n)
    requires t.order[i] in n.values && !Fresh(t.values[t.order[i]], now)
    ensures PrunedUpTo(t, now, i + 1, Delete(n, t.order[i]))
  {
    var k := t.order[i];
    var f := FreshKeys(t.values, t.order[..i], now);
    FreshKeysStep(t.values, t.order, i, now);
    assert FreshKeys(t.values, t.order[..i + 1], now) == f;
    SplitAt(f, t.order, i);
    DeleteAt(n, |f|);
  }

  /** Keeping a fresh key moves the loop on by one. */
  lemma KeepFresh(t: Table, now: real, i: nat, n: Table)
    requires Valid(t) && i < |t.order| && PrunedUpTo(t, now, i, n)
    requires Fresh(t.values[t.order[i]], now)
    ensures PrunedUpTo(t, now, i + 1, n)
  {
    var k := t.order[i];
    var f := FreshKeys(t.values, t.order[..i], now);
    FreshKeysStep(t.values, t.order, i, now);
    assert FreshKeys(t.values, t.order[..i + 1], now) == f + [k];
    SplitAt(f, t.order, i);
  }

  /** Visiting one more key adds it to the kept keys exactly when it is fresh. */
  lemma FreshKeysStep(values: map<int, Entry>, ks: seq<int>, i: nat, now: real)
    requires i < |ks|
    ensures FreshKeys(values, ks[..i + 1], now)
              == FreshKeys(values, ks[..i], now) + (if ks[i] in values && Fresh(values[ks[i]], now) then [ks[i]] else [])
  {
    assert ks[..i + 1][..i] == ks[..i];
  }

  /** The list of kept keys followed by the keys still to visit, split at the one visited now. */
  lemma SplitAt(f: seq<int>, ks: seq<int>, i: nat)
    requires i < |ks|
    ensures (f + ks[i..])[|f|] == ks[i]
    ensures (f + ks[i..])[..|f|] == f
    ensures (f + ks[i..])[|f| + 1..] == ks[i + 1..]
    ensures f + ks[i..] == (f + [ks[i]]) + ks[i + 1..]
  {
    assert (f + ks[i..])[|f| + 1..] == ks[i..][1..];
    assert ks[i..] == [ks[i]] + ks[i + 1..];
  }

  /** Once every key is visited, the table is the pruned one. */
  lemma PrunedUpToAll(t: Table, now: real, i: nat, n: Table)
    requires Valid(t) && i == |t.order| && PrunedUpTo(t, now, i, n)
    ensures n == Pruned(t, now)
  {
    assert t.order[..|t.order|] == t.order;
    Extensionality(n, Pruned(t, now));
  }

  /**
   * The chunk loop of `parse_midi` on the de-"fe"d hex text `data`: it
   * records what `ParseChunks` records.
   */
  method ReadChunks(notes: Table, data: string, clock: nat -> real, gradient: real -> Rgb) returns (r: Table)
    requires NoteTable.Valid(notes) && IsHex(data)
    ensures r == ParseChunks(notes, data, 0, clock, gradient)
  {
    ghost var goal := ParseChunks(notes, data, 0, clock, gradient);
    var rest := data;
    var k := 0;
    r := notes;
    while |rest| > 5
      invariant IsHex(rest) && NoteTable.Valid(r)
      invariant ParseChunks(r, rest, k, clock, gradient) == goal
      decreases |rest|
    {
      ChunkStep(r, rest, k, clock, gradient);
      var msg := Front(rest);
      if msg.status == NoteOnStatus {
        var vel := Velocity(rest);
        var c := Colour(gradient, msg.pitch);
        r := Put(r, msg.pitch, NoteEntry(c, vel, clock(k)));
      }
      rest := rest[6..];
      k := k + 1;
    }
  }

  /**
   * The pruning loop of the main loop: every note whose note-on is more than
   * FADE old is deleted, visiting the keys in insertion order.
   */
  method PruneTable(notes: Table, now: real) returns (r: Table)
    requires NoteTable.Valid(notes)
    ensures r == Pruned(notes, now)
  {
    var items := notes.order;
    r := notes;
    var i := 0;
    while i < |items|
      invariant i <= |items| && PrunedUpTo(notes, now, i, r)
    {
      var k := items[i];
      PruneVisits(notes, now, i, r);
      if now - r.values[k].stamp > Fade {
        DropStale(notes, now, i, r);
        r := Delete(r, k);
      } else {
        KeepFresh(notes, now, i, r);
      }
      i := i + 1;
    }
    PrunedUpToAll(notes, now, i, r);
  }

  /** The controller of the visualizer's main loop. */
  class Visualizer {
    /** Index into `Modes` of the selection mode. */
    var mode: nat
    /** `pbv`: the mode button's reading on the previous pass. */
    var pressed: bool
    /** The sounding notes. */
    var notes: Table

    /** The mode indexes `Modes` and the note table is well formed. */
    predicate Valid()
      reads this
    {
      mode < |Modes| && NoteTable.Valid(notes)
    }

    /** Mode "latest", no notes, button released. */
    constructor ()
      ensures Valid()
      ensures mode == 0 && notes == Empty() && !pressed
    {
      mode := 0;
      notes := Empty();
      pressed := false;
    }

    /** One reading of the mode button: a fresh press steps the mode. */
    method PollButton(value: bool)
      requires Valid()
      modifies this
      ensures Valid()
      ensures mode == if value && !old(pressed) then Advance(old(mode)) else old(mode)
      ensures pressed == value
      ensures notes == old(notes)
    {
      if value && value != pressed {
        mode := mode + 1;
        if mode >= |Modes| {
          mode := 0;
        }
      }
      pressed := value;
    }

    /**
     * `notes = parse_midi(notes)` on the bytes `read` from the port; the
     * `k`-th chunk reads the time `clock(k)`.
     */
    method ParseMidi(read: seq<Byte>, clock: nat -> real, gradient: real -> Rgb)
      requires Valid()
      modifies this
      ensures Valid()
      ensures IsHex(Defe(Hexlify(read)))
      ensures notes == ParseChunks(old(notes), Defe(Hexlify(read)), 0, clock, gradient)
      ensures mode == old(mode) && pressed == old(pressed)
    {
      var data := Defe(Hexlify(read));
      DefeHex(Hexlify(read));
      notes := ReadChunks(notes, data, clock, gradient);
    }

    /** The pruning loop of `main`, at the time `now`: every entry more than FADE old is deleted. */
    method Prune(now: real)
      requires Valid()
      modifies this
      ensures Valid()
      ensures notes == Pruned(old(notes), now)
      ensures mode == old(mode) && pressed == old(pressed)
    {
      notes := PruneTable(notes, now);
    }
  }
}
