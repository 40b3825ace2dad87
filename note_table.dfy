/**
 * The `notes` dictionary of code.py: sounding notes keyed by MIDI pitch, each
 * holding the colour scaled by velocity, the time the note-on arrived and the
 * velocity (`[r * vel, g * vel, b * vel, time, vel]`). A Python dict keeps its
 * keys in insertion order, and the selection rules depend on that order
 * through stable sorting, so the dictionary is modelled as the order of its
 * keys together with the map from key to value.
 */
module NoteTable {

  /** A colour as three channel intensities. */
  datatype Rgb = Rgb(r: real, g: real, b: real)

  /** One value of the dictionary. */
  datatype Entry = Entry(r: real, g: real, b: real, stamp: real, vel: real)

  /** A dictionary: its keys in insertion order, and the value of each key. */
  datatype Table = Table(order: seq<int>, values: map<int, Entry>)

  /** No element appears twice: each is found first at its own position. */
  predicate Distinct(s: seq<int>)
  {
    forall i :: 0 <= i < |s| ==> IndexOf(s, s[i]) == i
  }

  /** A key at a position not preceded by another copy is found there. */
  lemma {:induction false} IndexOfFirst(s: seq<int>, j: nat)
    requires j < |s| && s[j] !in s[..j]
    ensures IndexOf(s, s[j]) == j
  {
    if j > 0 {
      assert s[0] in s[..j];
      assert s[1..][..j - 1] == s[1..j];
      IndexOfFirst(s[1..], j - 1);
    }
  }

  /** In a list without repeats, no two positions hold the same element. */
  lemma DistinctApart(s: seq<int>)
    requires Distinct(s)
    ensures forall i, j :: 0 <= i < j < |s| ==> s[i] != s[j]
  {
  }

  /** A list in which no two positions hold the same element has no repeats. */
  lemma ApartDistinct(s: seq<int>)
    requires forall i, j :: 0 <= i < j < |s| ==> s[i] != s[j]
    ensures Distinct(s)
  {
    forall i | 0 <= i < |s|
      ensures IndexOf(s, s[i]) == i
    {
      IndexOfFirst(s, i);
    }
  }

  /** Each key is listed once in the order, and the order lists exactly the keys. */
  predicate Valid(t: Table)
  {
    && Distinct(t.order)
    && (forall i :: 0 <= i < |t.order| ==> t.order[i] in t.values)
    && (forall k :: k in t.values ==> k in t.order)
  }

  /** Two dictionaries with the same keys in the same order and the same values are equal. */
  lemma Extensionality(a: Table, b: Table)
    requires Valid(a) && Valid(b) && a.order == b.order
    requires forall m :: m in a.values ==> m in b.values && a.values[m] == b.values[m]
    ensures a == b
  {
    forall m | m in b.values
      ensures m in a.values
    {
      assert a.order[IndexOf(b.order, m)] == m;
    }
    assert forall m :: m in a.values <==> m in b.values;
    assert a.values.Keys == b.values.Keys;
    assert forall m :: m in a.values ==> a.values[m] == b.values[m];
    assert a.values == b.values;
  }

  /** `{}`. */
  function Empty(): (t: Table)
    ensures Valid(t) && |t.order| == 0
  {
    Table([], map[])
  }

  /** The values in insertion order, as `list(d.values())`. */
  function Values(t: Table): (vs: seq<Entry>)
    requires Valid(t)
    ensures |vs| == |t.order|
    ensures forall i :: 0 <= i < |t.order| ==> vs[i] == t.values[t.order[i]]
  {
    seq(|t.order|, i requires 0 <= i < |t.order| => t.values[t.order[i]])
  }

  /** `list(d.values())` holds the value of every key and nothing else. */
  lemma ValuesExactly(t: Table)
    requires Valid(t)
    ensures forall m :: m in t.values ==> t.values[m] in Values(t)
    ensures forall e :: e in Values(t) ==> exists m :: m in t.values && t.values[m] == e
  {
    var vs := Values(t);
    forall m | m in t.values
      ensures t.values[m] in vs
    {
      var i := IndexOf(t.order, m);
      assert vs[i] == t.values[m];
    }
    forall e | e in vs
      ensures exists m :: m in t.values && t.values[m] == e
    {
      var i :| 0 <= i < |vs| && vs[i] == e;
      assert t.order[i] in t.values;
    }
  }

  /**
   * `d[k] = v`: an existing key keeps its place and takes the new value; a new
   * key is added last.
   */
  function Put(t: Table, k: int, v: Entry): (r: Table)
    requires Valid(t)
    ensures Valid(r)
    ensures r.values == t.values[k := v]
    ensures k in t.values ==> r.order == t.order
    ensures k !in t.values ==> r.order == t.order + [k]
  {
    if k !in t.values then
      DistinctApart(t.order);
      ApartDistinct(t.order + [k]);
      Table(t.order + [k], t.values[k := v])
    else
      Table(t.order, t.values[k := v])
  }

  /** The position of `k` in `s`. */
  function IndexOf(s: seq<int>, k: int): (i: nat)
    requires k in s
    ensures i < |s| && s[i] == k
  {
    if s[0] == k then 0 else 1 + IndexOf(s[1..], k)
  }

  /** Cutting one element out of a list with no repeats leaves exactly the others, still without repeats. */
  lemma CutOut(s: seq<int>, i: nat)
    requires Distinct(s) && i < |s|
    ensures Distinct(s[..i] + s[i + 1..])
    ensures forall m :: m in s[..i] + s[i + 1..] <==> m in s && m != s[i]
  {
    var c := s[..i] + s[i + 1..];
    DistinctApart(s);
    assert forall j :: 0 <= j < |c| ==> c[j] == (if j < i then s[j] else s[j + 1]);
    forall m | m in s && m != s[i]
      ensures m in c
    {
      var j := IndexOf(s, m);
      if j < i {
        assert c[j] == m;
      } else {
        assert c[j - 1] == m;
      }
    }
    ApartDistinct(c);
  }

  /**
   * `del d[k]` on a present key: the key is cut out of the order, every other
   * key keeping its place relative to the rest, and its value is dropped.
   */
  function Delete(t: Table, k: int): (r: Table)
    requires Valid(t) && k in t.values
    ensures Valid(r)
    ensures r.values == t.values - {k}
    ensures r.order == t.order[..IndexOf(t.order, k)] + t.order[IndexOf(t.order, k) + 1..]
  {
    var i := IndexOf(t.order, k);
    CutOut(t.order, i);
    Table(t.order[..i] + t.order[i + 1..], t.values - {k})
  }

  /** Deleting the key at position `j` cuts position `j` out of the order. */
  lemma DeleteAt(t: Table, j: nat)
    requires Valid(t) && j < |t.order|
    ensures Delete(t, t.order[j]) == Table(t.order[..j] + t.order[j + 1..], t.values - {t.order[j]})
  {
    assert IndexOf(t.order, t.order[j]) == j;
  }
}
