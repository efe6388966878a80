/** Sequence operations that the client code performs with `Array.prototype.filter`,
    and the facts about them that the page models rely on. */
module SeqUtil {

  /** No value occurs twice. For a sequence of object references: no two entries alias. */
  predicate Distinct<T(==)>(s: seq<T>) {
    forall i, j :: 0 <= i < j < |s| ==> s[i] != s[j]
  }

  /** `a` is obtained from `b` by deleting elements, without reordering the rest. */
  predicate IsSubsequence<T(==)>(a: seq<T>, b: seq<T>)
    decreases |b|
  {
    a == [] || (b != [] && ((a[0] == b[0] && IsSubsequence(a[1..], b[1..])) || IsSubsequence(a, b[1..])))
  }

  /** `s.filter(keep)`. */
  function Filter<T>(s: seq<T>, keep: T -> bool): seq<T>
  {
    if s == [] then [] else (if keep(s[0]) then [s[0]] else []) + Filter(s[1..], keep)
  }

  /** `s.filter((_, j) => j !== i)` over the suffix `s` of a list whose first element has index `from`. */
  function DropIndexFrom<T>(s: seq<T>, i: int, from: int): seq<T>
    decreases |s|
  {
    if s == [] then [] else (if from == i then [] else [s[0]]) + DropIndexFrom(s[1..], i, from + 1)
  }

  /** `s.filter((_, j) => j !== i)`: the removal by position used by every repeater of the admin pages. */
  function DropIndex<T>(s: seq<T>, i: int): seq<T> {
    DropIndexFrom(s, i, 0)
  }

  /** An element survives the filter exactly when it was in the list and passes the test. */
  lemma {:induction false} FilterMembers<T>(s: seq<T>, keep: T -> bool)
    ensures forall x :: x in Filter(s, keep) <==> x in s && keep(x)
  {
    if s != [] {
      FilterMembers(s[1..], keep);
      assert s == [s[0]] + s[1..];
    }
  }

  /** Every value that passes the test keeps all its occurrences; every other value keeps none. */
  lemma {:induction false} FilterCounts<T>(s: seq<T>, keep: T -> bool)
    ensures forall x :: multiset(Filter(s, keep))[x] == if keep(x) then multiset(s)[x] else 0
  {
    if s != [] {
      FilterCounts(s[1..], keep);
      assert s == [s[0]] + s[1..];
      assert multiset(s) == multiset{s[0]} + multiset(s[1..]);
    }
  }

  /** The filter keeps the survivors in their original order. */
  lemma {:induction false} FilterIsSubsequence<T>(s: seq<T>, keep: T -> bool)
    ensures IsSubsequence(Filter(s, keep), s)
  {
    if s != [] {
      FilterIsSubsequence(s[1..], keep);
      var r := Filter(s, keep);
      if keep(s[0]) {
        assert r[0] == s[0] && r[1..] == Filter(s[1..], keep);
      } else {
        assert r == Filter(s[1..], keep);
      }
    }
  }

  /** A test that every element passes leaves the list as it is. */
  lemma {:induction false} FilterKeepsAll<T>(s: seq<T>, keep: T -> bool)
    requires forall i :: 0 <= i < |s| ==> keep(s[i])
    ensures Filter(s, keep) == s
  {
    if s != [] {
      FilterKeepsAll(s[1..], keep);
      assert s == [s[0]] + s[1..];
    }
  }

  /** Filtering by position is cutting that one element out; an index out of range cuts nothing. */
  lemma {:induction false} DropIndexFromSlices<T>(s: seq<T>, i: int, from: int)
    ensures DropIndexFrom(s, i, from) == if from <= i < from + |s| then s[..i - from] + s[i - from + 1..] else s
    decreases |s|
  {
    if s != [] {
      DropIndexFromSlices(s[1..], i, from + 1);
      if from == i {
        assert s[..0] + s[1..] == s[1..];
      } else if from < i < from + |s| {
        assert s[..i - from] + s[i - from + 1..] == [s[0]] + (s[1..][..i - from - 1] + s[1..][i - from..]);
      } else {
        assert s == [s[0]] + s[1..];
      }
    }
  }

  /** `DropIndex` as slicing: the element at `i` goes, the others close up in order. */
  lemma DropIndexSlices<T>(s: seq<T>, i: int)
    ensures DropIndex(s, i) == if 0 <= i < |s| then s[..i] + s[i + 1..] else s
    ensures 0 <= i < |s| ==> |DropIndex(s, i)| == |s| - 1
    ensures !(0 <= i < |s|) ==> DropIndex(s, i) == s
  {
    DropIndexFromSlices(s, i, 0);
  }

  /** Removing one entry from a list without duplicates leaves a list without duplicates. */
  lemma DropIndexDistinct<T>(s: seq<T>, i: int)
    requires Distinct(s)
    ensures Distinct(DropIndex(s, i))
    ensures forall x :: x in DropIndex(s, i) ==> x in s
  {
    DropIndexSlices(s, i);
    if 0 <= i < |s| {
      var r := DropIndex(s, i);
      forall a, b | 0 <= a < b < |r| ensures r[a] != r[b] {
        var a' := if a < i then a else a + 1;
        var b' := if b < i then b else b + 1;
        assert r[a] == s[a'] && r[b] == s[b'] && a' < b';
      }
    }
  }
}
