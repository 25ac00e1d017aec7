/** The list of held keys: searching it, erasing from it, and the
    reference definition the erasure is checked against. */
module NoteStack {

  /** No key occurs twice. */
  predicate NoDuplicates(s: seq<int>) {
    forall i, j :: 0 <= i < j < |s| ==> s[i] != s[j]
  }

  /** The most recently pressed key of a non-empty list. */
  function Last(s: seq<int>): int
    requires s != []
  {
    s[|s| - 1]
  }

  /** Linear search from the front: the position of the first `x`, or `|s|`
      (the end iterator) when `x` does not occur. */
  function FirstIndex(s: seq<int>, x: int): (i: nat)
    ensures i <= |s|
    ensures i < |s| ==> s[i] == x
    ensures forall j :: 0 <= j < i ==> s[j] != x
  {
    if s == [] then 0
    else if s[0] == x then 0
    else 1 + FirstIndex(s[1..], x)
  }

  /** Finds the first `x` and erases that one element, if there is one. */
  function Erase(s: seq<int>, x: int): (r: seq<int>)
    ensures x !in s ==> r == s
    ensures x in s ==> |r| == |s| - 1
  {
    var i := FirstIndex(s, x);
    if i < |s| then s[..i] + s[i + 1..] else s
  }

  /** Erasing removes exactly one copy of `x`, if there is one, and keeps
      every other element with its count. */
  lemma EraseMultiset(s: seq<int>, x: int)
    ensures multiset(Erase(s, x)) == multiset(s) - multiset{x}
  {
    var i := FirstIndex(s, x);
    if i < |s| {
      var before, after := s[..i], s[i + 1..];
      assert s == before + [x] + after;
      assert Erase(s, x) == before + after;
      assert multiset(s) == multiset(before) + multiset{x} + multiset(after);
    } else {
      assert x !in s;
    }
  }

  /** Erasing never brings in a key that was not held. */
  lemma EraseKeepsOthers(s: seq<int>, x: int, y: int)
    requires y in Erase(s, x)
    ensures y in s
  {
    EraseMultiset(s, x);
    assert multiset(Erase(s, x))[y] > 0;
  }

  /** Reference definition: every element of `s` other than `x`, in the
      order they stand in `s`. */
  function Without(s: seq<int>, x: int): (r: seq<int>)
    ensures forall y :: y in r <==> y in s && y != x
  {
    if s == [] then []
    else (if s[0] == x then [] else [s[0]]) + Without(s[1..], x)
  }

  /** A list with no duplicates stays so when every copy of one key goes. */
  lemma {:induction false} WithoutNoDuplicates(s: seq<int>, x: int)
    requires NoDuplicates(s)
    ensures NoDuplicates(Without(s, x))
  {
    if s != [] {
      var tail := s[1..];
      assert NoDuplicates(tail);
      WithoutNoDuplicates(tail, x);
      assert s[0] !in tail;
    }
  }

  /** Without `x` changes nothing on a list that does not hold `x`. */
  lemma {:induction false} WithoutAbsent(s: seq<int>, x: int)
    requires x !in s
    ensures Without(s, x) == s
  {
    if s != [] {
      WithoutAbsent(s[1..], x);
      assert s == [s[0]] + s[1..];
    }
  }

  /** Dropping `x` from a list extended by `y` drops it from the list and
      keeps `y` unless it is `x`. */
  lemma {:induction false} WithoutAppend(s: seq<int>, y: int, x: int)
    ensures Without(s + [y], x) == Without(s, x) + (if y == x then [] else [y])
  {
    if s == [] {
      assert Without([y], x) == (if y == x then [] else [y]) + Without([], x);
    } else {
      assert (s + [y])[1..] == s[1..] + [y];
      WithoutAppend(s[1..], y, x);
    }
  }

  /** On a list without duplicates, erasing the first `x` is the same as
      keeping every other key in order: the erasure disturbs no other key. */
  lemma {:induction false} EraseIsWithout(s: seq<int>, x: int)
    requires NoDuplicates(s)
    ensures Erase(s, x) == Without(s, x)
  {
    if s == [] {
    } else if s[0] == x {
      assert s[0] !in s[1..];
      WithoutAbsent(s[1..], x);
    } else {
      var tail := s[1..];
      assert NoDuplicates(tail);
      EraseIsWithout(tail, x);
      var i := FirstIndex(tail, x);
      assert FirstIndex(s, x) == i + 1;
      if i < |tail| {
        assert s[..i + 1] == [s[0]] + tail[..i];
        assert s[i + 2..] == tail[i + 1..];
      }
    }
  }
}
