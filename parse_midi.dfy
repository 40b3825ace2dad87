/**
 * The chunk loop of `parse_midi` in code.py. The de-"fe"d hex text of one
 * read is consumed from the front six digits (three bytes) at a time while
 * more than five digits remain. A chunk whose status byte is 0x90 (note-on)
 * records its pitch byte in the note table with the colour of that pitch,
 * scaled by the velocity; the velocity is read from the last two digits of the
 * text still unconsumed, not from the chunk itself.
 */
module MidiInput {
  import opened Hex
  import opened ActiveSensing
  import opened NoteTable

  /** The note-on status byte. */
  const NoteOnStatus: Byte := 144

  /**
   * The colour of a note: `gradient((pitch - 21) / 88)`. The 88 keys from A0
   * (pitch 21) take the gradient's colours from 0 up to 1.
   */
  function Colour(gradient: real -> Rgb, pitch: Byte): (c: Rgb)
    ensures 21 <= pitch <= 109 ==> exists x: real :: 0.0 <= x <= 1.0 && c == gradient(x)
  {
    var x := (pitch as real - 21.0) / 88.0;
    assert 21 <= pitch <= 109 ==> 0.0 <= x <= 1.0;
    gradient(x)
  }

  /** `int(data[-2:], 16) / 127`: the velocity byte of the unconsumed text, as a fraction. */
  function Velocity(data: string): (v: real)
    requires |data| >= 2 && IsHex(data)
    ensures 0.0 <= v <= 255.0 / 127.0
  {
    ParseByte(data[|data| - 2..]) as real / 127.0
  }

  /**
   * The value stored for a note-on: colour scaled by velocity, arrival time,
   * velocity. At full velocity 1 the colour is stored as it is, and a
   * non-negative colour stays non-negative.
   */
  function NoteEntry(c: Rgb, vel: real, stamp: real): (e: Entry)
    ensures e.stamp == stamp && e.vel == vel
    ensures vel == 1.0 ==> Rgb(e.r, e.g, e.b) == c
    ensures 0.0 <= vel && 0.0 <= c.r && 0.0 <= c.g && 0.0 <= c.b ==> 0.0 <= e.r && 0.0 <= e.g && 0.0 <= e.b
  {
    Entry(c.r * vel, c.g * vel, c.b * vel, stamp, vel)
  }

  /** The two bytes of a chunk the loop looks at: the status byte and the pitch byte. */
  datatype Message = Message(status: Byte, pitch: Byte)

  /** The message of the chunk at the front of the text. */
  function Front(data: string): (msg: Message)
    requires |data| >= 4 && IsHex(data)
  {
    Message(ParseByte(data[..2]), ParseByte(data[2..4]))
  }

  /** On hexlified text the front message is the two bytes whose digits are the first four. */
  lemma FrontDigits(data: string)
    requires |data| >= 4 && IsHex(data) && IsLowerHex(data[..4])
    ensures ByteHex(Front(data).status) + ByteHex(Front(data).pitch) == data[..4]
  {
    assert data[..4] == data[..2] + data[2..4];
    assert IsLowerHex(data[..2]) && IsLowerHex(data[2..4]) by {
      assert forall i :: 0 <= i < 2 ==> data[..2][i] == data[..4][i] && data[2..4][i] == data[..4][i + 2];
    }
  }

  /**
   * One pass of the loop over a message, with the velocity and time it reads:
   * a note-on sets or overwrites its pitch's entry, anything else leaves the
   * table alone.
   */
  function Record(notes: Table, msg: Message, vel: real, stamp: real, gradient: real -> Rgb): (r: Table)
    requires Valid(notes)
    ensures Valid(r)
    ensures msg.status != NoteOnStatus ==> r == notes
    ensures msg.status == NoteOnStatus ==>
              && msg.pitch in r.values
              && r.values[msg.pitch] == NoteEntry(Colour(gradient, msg.pitch), vel, stamp)
    // every other key keeps its entry, and the old keys keep their order
    ensures forall m :: m != msg.pitch ==> (m in r.values <==> m in notes.values)
    ensures forall m :: m in notes.values && m != msg.pitch ==> r.values[m] == notes.values[m]
    ensures notes.order <= r.order
  {
    if msg.status == NoteOnStatus then
      Put(notes, msg.pitch, NoteEntry(Colour(gradient, msg.pitch), vel, stamp))
    else notes
  }

  /**
   * The whole loop on the text `data`, the passes numbered from `k`: pass `k + i`
   * reads the time `clock(k + i)`.
   */
  function ParseChunks(notes: Table, data: string, k: nat, clock: nat -> real, gradient: real -> Rgb): (r: Table)
    requires Valid(notes) && IsHex(data)
    ensures Valid(r)
    decreases |data|
  {
    if |data| <= 5 then notes
    else
      HexSlice(data, 6, |data|);
      ParseChunks(Record(notes, Front(data), Velocity(data), clock(k), gradient), data[6..], k + 1, clock, gradient)
  }

  /** The messages of the text, one per pass of the loop: floor(len / 6) of them. */
  function Messages(data: string): (ms: seq<Message>)
    requires IsHex(data)
    ensures |ms| == |data| / 6
    decreases |data|
  {
    if |data| <= 5 then []
    else
      HexSlice(data, 6, |data|);
      [Front(data)] + Messages(data[6..])
  }

  /** Pass `i` reads its status byte from digits `6i`, `6i + 1` and its pitch byte from the two after. */
  lemma {:induction false} MessagesAt(data: string, i: nat)
    requires IsHex(data) && i < |data| / 6
    ensures IsHex(data[6 * i..6 * i + 4])
    ensures Messages(data)[i] == Front(data[6 * i..6 * i + 4])
    decreases i
  {
    HexSlice(data, 6 * i, 6 * i + 4);
    HexSlice(data, 6, |data|);
    if i > 0 {
      MessagesAt(data[6..], i - 1);
      assert data[6..][6 * (i - 1)..6 * (i - 1) + 4] == data[6 * i..6 * i + 4];
    } else {
      assert data[..4][..2] == data[..2] && data[..4][2..4] == data[2..4];
    }
  }

  /** A trailing fragment of at most five digits yields no message. */
  lemma {:induction false} TrailingFragmentIgnored(data: string)
    requires IsHex(data)
    ensures IsHex(data[..6 * (|data| / 6)])
    ensures Messages(data) == Messages(data[..6 * (|data| / 6)])
    decreases |data|
  {
    var whole := data[..6 * (|data| / 6)];
    HexSlice(data, 0, 6 * (|data| / 6));
    if |data| > 5 {
      HexSlice(data, 6, |data|);
      var rest := data[6..];
      TrailingFragmentIgnored(rest);
      assert whole[..2] == data[..2] && whole[2..4] == data[2..4];
      assert whole[6..] == rest[..6 * (|rest| / 6)];
    }
  }

  /** The loop over a list of messages, all read with the same velocity. */
  function Apply(notes: Table, ms: seq<Message>, vel: real, k: nat, clock: nat -> real, gradient: real -> Rgb): (r: Table)
    requires Valid(notes)
    ensures Valid(r)
    decreases |ms|
  {
    if ms == [] then notes
    else Apply(Record(notes, ms[0], vel, clock(k), gradient), ms[1..], vel, k + 1, clock, gradient)
  }

  /**
   * The velocity read on a later pass is the one read on the first: every
   * pass looks at the same last two digits.
   */
  lemma VelocityStays(data: string)
    requires |data| > 7 && IsHex(data)
    ensures IsHex(data[6..]) && Velocity(data[6..]) == Velocity(data)
  {
    assert data[6..][|data| - 8..] == data[|data| - 2..];
  }

  /** The loop on the text is the loop on its messages, every pass reading the velocity of the whole text. */
  lemma {:induction false} ParseChunksMessages(notes: Table, data: string, k: nat, clock: nat -> real, gradient: real -> Rgb)
    requires Valid(notes) && IsHex(data) && |data| > 5
    ensures ParseChunks(notes, data, k, clock, gradient) == Apply(notes, Messages(data), Velocity(data), k, clock, gradient)
    decreases |data|
  {
    HexSlice(data, 6, |data|);
    var rest := data[6..];
    var mid := Record(notes, Front(data), Velocity(data), clock(k), gradient);
    assert Messages(data)[1..] == Messages(rest);
    if |rest| > 5 {
      ParseChunksMessages(mid, rest, k + 1, clock, gradient);
      VelocityStays(data);
    }
  }

  /** The pitches of the note-on messages, in order. */
  function NoteOns(ms: seq<Message>): (ps: seq<Byte>)
    ensures forall p :: p in ps <==> Message(NoteOnStatus, p) in ms
  {
    if ms == [] then []
    else (if ms[0].status == NoteOnStatus then [ms[0].pitch] else []) + NoteOns(ms[1..])
  }

  /** The position of the last note-on message for pitch `p`. */
  function LastNoteOn(ms: seq<Message>, p: Byte): (i: nat)
    requires Message(NoteOnStatus, p) in ms
    ensures i < |ms| && ms[i] == Message(NoteOnStatus, p)
    ensures forall j :: i < j < |ms| ==> ms[j] != Message(NoteOnStatus, p)
  {
    if Message(NoteOnStatus, p) in ms[1..] then 1 + LastNoteOn(ms[1..], p) else 0
  }

  /**
   * The keys after the loop are the old keys, in their old order, followed by
   * the newly seen note-on pitches: no key is removed, and a key is present
   * exactly when it was before or some note-on names it.
   */
  lemma {:induction false} ApplyKeys(notes: Table, ms: seq<Message>, vel: real, k: nat, clock: nat -> real, gradient: real -> Rgb)
    requires Valid(notes)
    ensures notes.order <= Apply(notes, ms, vel, k, clock, gradient).order
    ensures forall m :: m in Apply(notes, ms, vel, k, clock, gradient).values <==> m in notes.values || m in NoteOns(ms)
    decreases |ms|
  {
    if ms != [] {
      var mid := Record(notes, ms[0], vel, clock(k), gradient);
      ApplyKeys(mid, ms[1..], vel, k + 1, clock, gradient);
    }
  }

  /** A key that no note-on names keeps its entry. */
  lemma {:induction false} ApplyKeeps(notes: Table, ms: seq<Message>, vel: real, k: nat, clock: nat -> real, gradient: real -> Rgb, m: int)
    requires Valid(notes) && m in notes.values && m !in NoteOns(ms)
    ensures m in Apply(notes, ms, vel, k, clock, gradient).values
    ensures Apply(notes, ms, vel, k, clock, gradient).values[m] == notes.values[m]
    decreases |ms|
  {
    if ms != [] {
      var mid := Record(notes, ms[0], vel, clock(k), gradient);
      ApplyKeeps(mid, ms[1..], vel, k + 1, clock, gradient, m);
    }
  }

  /**
   * A note-on pitch holds its colour scaled by the velocity, stamped with the
   * time of the last pass that named it.
   */
  lemma {:induction false} ApplyWrites(notes: Table, ms: seq<Message>, vel: real, k: nat, clock: nat -> real, gradient: real -> Rgb, p: Byte)
    requires Valid(notes) && Message(NoteOnStatus, p) in ms
    ensures p in Apply(notes, ms, vel, k, clock, gradient).values
    ensures Apply(notes, ms, vel, k, clock, gradient).values[p]
            == NoteEntry(Colour(gradient, p), vel, clock(k + LastNoteOn(ms, p)))
    decreases |ms|, 1
  {
    if Message(NoteOnStatus, p) in ms[1..] {
      WrittenLater(notes, ms, vel, k, clock, gradient, p);
    } else {
      WrittenFirst(notes, ms, vel, k, clock, gradient, p);
    }
  }

  /** `ApplyWrites` when a later message names the pitch again. */
  lemma {:induction false} WrittenLater(notes: Table, ms: seq<Message>, vel: real, k: nat, clock: nat -> real, gradient: real -> Rgb, p: Byte)
    requires Valid(notes) && |ms| > 0 && Message(NoteOnStatus, p) in ms[1..]
    ensures Message(NoteOnStatus, p) in ms
    ensures p in Apply(notes, ms, vel, k, clock, gradient).values
    ensures Apply(notes, ms, vel, k, clock, gradient).values[p]
            == NoteEntry(Colour(gradient, p), vel, clock(k + LastNoteOn(ms, p)))
    decreases |ms|, 0
  {
    assert ms[1..][LastNoteOn(ms[1..], p)] == ms[1 + LastNoteOn(ms[1..], p)];
    var mid := Record(notes, ms[0], vel, clock(k), gradient);
    ApplyWrites(mid, ms[1..], vel, k + 1, clock, gradient, p);
    assert LastNoteOn(ms, p) == 1 + LastNoteOn(ms[1..], p);
  }

  /** `ApplyWrites` when the first message is the last to name the pitch. */
  lemma WrittenFirst(notes: Table, ms: seq<Message>, vel: real, k: nat, clock: nat -> real, gradient: real -> Rgb, p: Byte)
    requires Valid(notes) && Message(NoteOnStatus, p) in ms && Message(NoteOnStatus, p) !in ms[1..]
    ensures p in Apply(notes, ms, vel, k, clock, gradient).values
    ensures Apply(notes, ms, vel, k, clock, gradient).values[p]
            == NoteEntry(Colour(gradient, p), vel, clock(k + LastNoteOn(ms, p)))
  {
    assert ms == [ms[0]] + ms[1..];
    var mid := Record(notes, ms[0], vel, clock(k), gradient);
    ApplyKeeps(mid, ms[1..], vel, k + 1, clock, gradient, p);
  }

  /**
   * The velocity of a read is that of its last byte, or of the byte before it
   * when a trailing 0xFE (active sensing) was stripped.
   */
  lemma ReadVelocity(read: seq<Byte>)
    requires |Defe(Hexlify(read))| > 5
    ensures IsHex(Defe(Hexlify(read)))
    ensures var h := Hexlify(read);
            var d := Defe(h);
            Velocity(d) == (if d == h[..|h| - 2] then read[|read| - 2] else read[|read| - 1]) as real / 127.0
  {
    var h := Hexlify(read);
    var d := Defe(h);
    TailVelocity(read, d, d == h[..|h| - 2]);
  }

  /** The last two digits of a slice of hexlified bytes that keeps its end, or loses only its last byte. */
  lemma TailVelocity(read: seq<Byte>, d: string, cut: bool)
    requires |d| > 5
    requires cut ==> |Hexlify(read)| >= 2 && d == Hexlify(read)[..|Hexlify(read)| - 2]
    requires !cut ==> d == Hexlify(read) || (|Hexlify(read)| >= 2 && d == Hexlify(read)[2..])
    ensures IsHex(d)
    ensures Velocity(d) == (if cut then read[|read| - 2] else read[|read| - 1]) as real / 127.0
  {
    var h := Hexlify(read);
    var n := |read|;
    if cut {
      HexSlice(h, 0, |h| - 2);
      HexlifyRoundTrip(read, n - 2);
      assert d[|d| - 2..] == h[2 * (n - 2)..2 * (n - 2) + 2];
    } else {
      HexSlice(h, 2, |h|);
      HexlifyRoundTrip(read, n - 1);
      assert d[|d| - 2..] == h[2 * (n - 1)..2 * (n - 1) + 2];
    }
  }

}
