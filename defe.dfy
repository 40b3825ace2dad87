/**
 * `defe` from code.py: the keyboard's active-sensing bytes (0xFE, written
 * "fe" once hexlified) are filtered out of a read. A read longer than six
 * digits loses one leading "fe", or else one trailing "fe"; whatever is left
 * is dropped entirely when it is nothing but "fe" pairs.
 */
module ActiveSensing {

  /** `s.startswith("fe")`. */
  predicate StartsFe(s: string)
  {
    |s| >= 2 && s[0] == 'f' && s[1] == 'e'
  }

  /** `s.endswith("fe")`. */
  predicate EndsFe(s: string)
  {
    |s| >= 2 && s[|s| - 2] == 'f' && s[|s| - 1] == 'e'
  }

  /** `s.count("fe")`: non-overlapping occurrences, found left to right. */
  function CountFe(s: string): (n: nat)
    ensures 2 * n <= |s|
  {
    if |s| < 2 then 0
    else if StartsFe(s) then 1 + CountFe(s[2..])
    else CountFe(s[1..])
  }

  /** "fe" cannot overlap itself, so one more "fe" at the end is one more occurrence. */
  lemma {:induction false} CountFeTrailing(p: string)
    ensures CountFe(p + "fe") == CountFe(p) + 1
    decreases |p|
  {
    var s := p + "fe";
    if p == [] {
      assert s[2..] == [];
    } else if StartsFe(p) {
      assert s[2..] == p[2..] + "fe";
      CountFeTrailing(p[2..]);
    } else {
      assert s[1..] == p[1..] + "fe";
      CountFeTrailing(p[1..]);
    }
  }

  /** Dropping the leading "fe", or the trailing one, removes exactly one occurrence of "fe". */
  lemma StripOneFe(data: string)
    ensures StartsFe(data) ==> CountFe(data[2..]) == CountFe(data) - 1
    ensures EndsFe(data) ==> CountFe(data[..|data| - 2]) == CountFe(data) - 1
  {
    if EndsFe(data) {
      var p := data[..|data| - 2];
      assert data == p + "fe";
      CountFeTrailing(p);
    }
  }

  /** `s` is "fe" repeated some number of times (the empty string included). */
  predicate FePairs(s: string)
    decreases |s|
  {
    s == "" || (StartsFe(s) && FePairs(s[2..]))
  }

  /** The test `count("fe") * 2 == len` holds exactly for strings made of "fe" pairs. */
  lemma {:induction false} CountFePairs(s: string)
    ensures 2 * CountFe(s) == |s| <==> FePairs(s)
    decreases |s|
  {
    if |s| >= 2 {
      if StartsFe(s) {
        CountFePairs(s[2..]);
      } else {
        assert 2 * CountFe(s[1..]) <= |s| - 1;
      }
    }
  }

  /** `defe(data)`. */
  function Defe(data: string): (r: string)
    // a long read loses exactly one leading "fe", or else one trailing "fe"
    ensures |data| > 6 && StartsFe(data) && !FePairs(data[2..]) ==> r == data[2..]
    ensures |data| > 6 && !StartsFe(data) && EndsFe(data) && !FePairs(data[..|data| - 2]) ==> r == data[..|data| - 2]
    // a short read, or one with "fe" at neither end, is kept unless it is all "fe" pairs
    ensures (|data| <= 6 || (!StartsFe(data) && !EndsFe(data))) ==> (r == "" <==> FePairs(data))
    ensures (|data| <= 6 || (!StartsFe(data) && !EndsFe(data))) && !FePairs(data) ==> r == data
    // what is left is dropped exactly when it is all "fe" pairs
    ensures |data| > 6 && StartsFe(data) ==> (r == "" <==> FePairs(data[2..]))
    ensures |data| > 6 && !StartsFe(data) && EndsFe(data) ==> (r == "" <==> FePairs(data[..|data| - 2]))
    // the result is a slice of the read, never longer, and empty reads stay empty
    ensures |r| <= |data|
    ensures r == "" || r == data || r == data[2..] || r == data[..|data| - 2]
  {
    var d :=
      if |data| > 6 && (StartsFe(data) || EndsFe(data)) then
        if StartsFe(data) then data[2..] else data[..|data| - 2]
      else data;
    CountFePairs(d);
    if d != "" && CountFe(d) * 2 == |d| then "" else d
  }

  /** A read of whole bytes stays a read of whole bytes. */
  lemma DefeEven(data: string)
    requires |data| % 2 == 0
    ensures |Defe(data)| % 2 == 0
  {
  }

  /** A read that is nothing but active-sensing bytes leaves nothing behind. */
  lemma {:induction false} DefeAllSensing(n: nat)
    ensures Defe(Repeat(n)) == ""
  {
    var s := Repeat(n);
    RepeatFePairs(n);
    if |s| > 6 {
      assert StartsFe(s);
      RepeatFePairs(n - 1);
      assert s[2..] == Repeat(n - 1);
    }
  }

  /** "fe" written `n` times. */
  function Repeat(n: nat): (s: string)
    ensures |s| == 2 * n
  {
    if n == 0 then "" else "fe" + Repeat(n - 1)
  }

  /** `Repeat(n)` is made of "fe" pairs. */
  lemma {:induction false} RepeatFePairs(n: nat)
    ensures FePairs(Repeat(n))
  {
    if n > 0 {
      RepeatFePairs(n - 1);
      assert Repeat(n)[2..] == Repeat(n - 1);
    }
  }
}
