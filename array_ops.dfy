/** The JavaScript array primitives the board handlers use on copies of a
    column's id list (task ids are strings): `indexOf`, `splice(i, 1)` at the found index, and
    `filter` with an inequality test. */
module ArrayOps {

  /** `Array.prototype.indexOf`: the first position of `x` in `s`, or -1. */
  method IndexOf(s: seq<string>, x: string) returns (i: int)
    ensures -1 <= i < |s|
    ensures i == -1 <==> x !in s
    ensures 0 <= i ==> s[i] == x && x !in s[..i]
  {
    i := 0;
    while i < |s|
      invariant 0 <= i <= |s|
      invariant x !in s[..i]
    {
      if s[i] == x {
        return;
      }
      i := i + 1;
    }
    assert s[..i] == s;
    i := -1;
  }

  /** The list left by looking `x` up with `indexOf` and, when it is found,
      cutting that one element out with `splice`. */
  function RemoveFirst(s: seq<string>, x: string): seq<string>
  {
    if s == [] then []
    else if s[0] == x then s[1..]
    else [s[0]] + RemoveFirst(s[1..], x)
  }

  /** Removing the first occurrence takes one `x` away, if there is one, and
      keeps every other element; a list without `x` is left as it is. */
  lemma {:induction false} RemoveFirstCounts(s: seq<string>, x: string)
    ensures multiset(RemoveFirst(s, x)) == multiset(s) - multiset{x}
    ensures x !in s ==> RemoveFirst(s, x) == s
    ensures x in s ==> |RemoveFirst(s, x)| == |s| - 1
  {
    if s != [] {
      assert s == [s[0]] + s[1..];
      if s[0] != x {
        RemoveFirstCounts(s[1..], x);
        assert RemoveFirst(s, x) == [s[0]] + RemoveFirst(s[1..], x);
        assert multiset(RemoveFirst(s, x)) == multiset{s[0]} + multiset(RemoveFirst(s[1..], x));
      }
    }
  }

  /** Removing the first occurrence cuts the list at that occurrence and
      keeps everything before and after it in order. */
  lemma {:induction false} RemoveFirstAt(s: seq<string>, x: string, i: int)
    requires 0 <= i < |s| && s[i] == x && x !in s[..i]
    ensures RemoveFirst(s, x) == s[..i] + s[i + 1..]
  {
    if i > 0 {
      assert s[0] in s[..i];
      assert s[1..][..i - 1] == s[1..i];
      RemoveFirstAt(s[1..], x, i - 1);
      assert s[1..][i - 1 + 1..] == s[i + 1..];
      assert [s[0]] + s[1..i] == s[..i];
    }
  }

  /** `s.filter(y => y !== x)`: every occurrence of `x` dropped, the other
      elements kept with their multiplicities. */
  function FilterOut(s: seq<string>, x: string): seq<string>
  {
    if s == [] then []
    else if s[0] == x then FilterOut(s[1..], x)
    else [s[0]] + FilterOut(s[1..], x)
  }

  /** Filtering keeps exactly the elements other than `x`, each as often as
      before, and leaves a list without `x` as it is. */
  lemma {:induction false} FilterOutCounts(s: seq<string>, x: string)
    ensures x !in FilterOut(s, x)
    ensures forall y :: y in FilterOut(s, x) <==> y in s && y != x
    ensures forall y :: y != x ==> multiset(FilterOut(s, x))[y] == multiset(s)[y]
    ensures |FilterOut(s, x)| == |s| - multiset(s)[x]
    ensures x !in s ==> FilterOut(s, x) == s
  {
    if s != [] {
      assert s == [s[0]] + s[1..];
      FilterOutCounts(s[1..], x);
    }
  }

  /** Filtering works element by element: filtering a concatenation
      concatenates the filtered parts, so the kept elements stay in order. */
  lemma {:induction false} FilterOutAppend(a: seq<string>, b: seq<string>, x: string)
    ensures FilterOut(a + b, x) == FilterOut(a, x) + FilterOut(b, x)
  {
    if a == [] {
      assert a + b == b;
    } else {
      assert (a + b)[0] == a[0] && (a + b)[1..] == a[1..] + b;
      FilterOutAppend(a[1..], b, x);
    }
  }

  /** Whatever survives the filter was in the list and is not `x`. */
  lemma {:induction false} FilterOutKeeps(s: seq<string>, x: string, y: string)
    requires y in FilterOut(s, x)
    ensures y in s && y != x
  {
    if s[0] == x || y != s[0] {
      FilterOutKeeps(s[1..], x, y);
    }
  }

  /** When `x` occurs at most once, filtering it out and removing its first
      occurrence give the same list. */
  lemma {:induction false} FilterOutSingle(s: seq<string>, x: string)
    requires multiset(s)[x] <= 1
    ensures FilterOut(s, x) == RemoveFirst(s, x)
  {
    if s != [] {
      assert s == [s[0]] + s[1..];
      if s[0] != x {
        FilterOutSingle(s[1..], x);
      } else {
        FilterOutCounts(s[1..], x);
      }
    }
  }

  /** A list in which no element repeats has as many distinct elements as
      entries. */
  lemma {:induction false} DistinctCard(s: seq<string>)
    requires forall x :: multiset(s)[x] <= 1
    ensures |set x | x in s| == |s|
  {
    if s != [] {
      assert s == [s[0]] + s[1..];
      forall x ensures multiset(s[1..])[x] <= 1 {
        assert multiset(s)[x] == multiset{s[0]}[x] + multiset(s[1..])[x];
      }
      DistinctCard(s[1..]);
      assert s[0] !in s[1..] by {
        assert multiset(s)[s[0]] == 1 + multiset(s[1..])[s[0]];
      }
      assert (set x | x in s) == {s[0]} + (set x | x in s[1..]);
    }
  }

  /** An element occurring exactly once is cut out at its one position. */
  lemma OnceAt(src: seq<string>, x: string)
    requires multiset(src)[x] == 1
    ensures x !in RemoveFirst(src, x)
    ensures exists i :: 0 <= i < |src| && src[i] == x && RemoveFirst(src, x) == src[..i] + src[i + 1..]
  {
    assert x in src;
    var i :| 0 <= i < |src| && src[i] == x;
    assert x !in src[..i] by {
      assert src == src[..i] + [x] + src[i + 1..];
      assert multiset(src) == multiset(src[..i]) + multiset{x} + multiset(src[i + 1..]);
    }
    RemoveFirstAt(src, x, i);
    RemoveFirstCounts(src, x);
  }
}
