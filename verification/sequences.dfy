/** Small facts about sequences used as ordered collections of keys. */
module Sequences {

  /** No element occurs twice. */
  predicate Distinct<T(==,!new)>(s: seq<T>)
  {
    forall i, j :: 0 <= i < j < |s| ==> s[i] != s[j]
  }

  /** The elements of `s`, as a set. */
  function Elements<T(!new)>(s: seq<T>): set<T>
  {
    set x | x in s
  }

  /** Adding `x` to a collection that ignores an element it already holds. */
  function Attach<T(==,!new)>(s: seq<T>, x: T): (r: seq<T>)
    ensures forall y :: y in r <==> y in s || y == x
    ensures Distinct(s) ==> Distinct(r)
    ensures x !in s ==> |r| == |s| + 1 && r[..|s|] == s && r[|s|] == x
  {
    if x in s then s else s + [x]
  }

  /** Removing every occurrence of `x`, keeping the order of the rest. */
  function Without<T(==,!new)>(s: seq<T>, x: T): (r: seq<T>)
    ensures forall y :: y in r <==> y in s && y != x
    ensures |r| <= |s|
    ensures Distinct(s) ==> Distinct(r)
  {
    if |s| == 0 then []
    else if s[0] == x then Without(s[1..], x)
    else
      var rest := Without(s[1..], x);
      assert Distinct(s) ==> s[0] !in s[1..];
      [s[0]] + rest
  }

  /** Removing an element that is not there changes nothing. */
  lemma {:induction false} WithoutAbsent<T(!new)>(s: seq<T>, x: T)
    requires x !in s
    ensures Without(s, x) == s
  {
    if |s| > 0 {
      WithoutAbsent(s[1..], x);
    }
  }

  /** Removing an element that occurs once, at position `i`, cuts out exactly that position. */
  lemma {:induction false} WithoutAt<T(!new)>(s: seq<T>, i: nat)
    requires Distinct(s)
    requires i < |s|
    ensures Without(s, s[i]) == s[..i] + s[i + 1..]
  {
    if i == 0 {
      assert s[0] !in s[1..];
      WithoutAbsent(s[1..], s[0]);
    } else {
      assert s[1..][i - 1] == s[i];
      assert s[0] != s[i];
      WithoutAt(s[1..], i - 1);
      assert s[..i] == [s[0]] + s[1..][..i - 1];
      assert s[i + 1..] == s[1..][i..];
    }
  }

  /** Removing the element just attached to a sequence that lacked it restores the sequence. */
  lemma {:induction false} WithoutUndoesAttach<T(!new)>(s: seq<T>, x: T)
    requires x !in s
    ensures Without(Attach(s, x), x) == s
  {
    var t := s + [x];
    assert Attach(s, x) == t;
    if |s| == 0 {
      assert Without(t, x) == Without(t[1..], x);
      assert t[1..] == [];
    } else {
      assert t[0] == s[0] && s[0] != x;
      assert t[1..] == s[1..] + [x] == Attach(s[1..], x);
      WithoutUndoesAttach(s[1..], x);
      assert Without(t, x) == [s[0]] + Without(t[1..], x);
      assert s == [s[0]] + s[1..];
    }
  }

  /** A sequence without repetitions has as many elements as its element set. */
  lemma {:induction false} DistinctCardinality<T(!new)>(s: seq<T>)
    requires Distinct(s)
    ensures |Elements(s)| == |s|
  {
    if |s| > 0 {
      DistinctCardinality(s[1..]);
      assert Elements(s) == {s[0]} + Elements(s[1..]);
      assert s[0] !in Elements(s[1..]);
    }
  }
}
