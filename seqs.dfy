/** Array operations the pages use on their record lists: `filter` and `splice(i, 1)`. */
module Seqs {

  /** `a` can be obtained from `b` by deleting elements, keeping the order of the rest. */
  ghost predicate IsSubsequence<T>(a: seq<T>, b: seq<T>)
    decreases |b|
  {
    if b == [] then a == []
    else (a != [] && a[0] == b[0] && IsSubsequence(a[1..], b[1..])) || IsSubsequence(a, b[1..])
  }

  /** `Array.prototype.filter`: the elements of `s` that satisfy `p`, in their original order. */
  function Filter<T(!new)>(s: seq<T>, p: T -> bool): (r: seq<T>)
    ensures |r| <= |s|
    ensures forall x :: x in r <==> x in s && p(x)
    ensures forall x :: multiset(r)[x] == if p(x) then multiset(s)[x] else 0
  {
    if s == [] then []
    else
      assert s == [s[0]] + s[1..];
      (if p(s[0]) then [s[0]] else []) + Filter(s[1..], p)
  }

  lemma {:induction false} FilterIsSubsequence<T(!new)>(s: seq<T>, p: T -> bool)
    ensures IsSubsequence(Filter(s, p), s)
  {
    if s != [] {
      FilterIsSubsequence(s[1..], p);
      if p(s[0]) {
        assert Filter(s, p) == [s[0]] + Filter(s[1..], p);
        assert Filter(s, p)[1..] == Filter(s[1..], p);
      } else {
        assert Filter(s, p) == Filter(s[1..], p);
      }
    }
  }

  /** When every element passes, filtering gives back the whole list, in the same order. */
  lemma {:induction false} FilterKeepsAll<T(!new)>(s: seq<T>, p: T -> bool)
    requires forall x :: x in s ==> p(x)
    ensures Filter(s, p) == s
  {
    if s != [] {
      FilterKeepsAll(s[1..], p);
    }
  }

  /** When no element passes, filtering gives the empty list. */
  lemma {:induction false} FilterDropsAll<T(!new)>(s: seq<T>, p: T -> bool)
    requires forall x :: x in s ==> !p(x)
    ensures Filter(s, p) == []
  {
    if s != [] {
      FilterDropsAll(s[1..], p);
    }
  }

  /** The position `splice(start, 1)` works on, after JavaScript clamps `start` into `[0, n]`
      (a negative `start` counts from the end). */
  function SpliceIndex(n: nat, start: int): (k: nat)
    ensures k <= n
    ensures 0 <= start <= n ==> k == start
    ensures start < 0 && n + start >= 0 ==> k == n + start
  {
    if start < 0 then (if n + start < 0 then 0 else n + start)
    else if start > n then n
    else start
  }

  /** The list left by `list.splice(start, 1)`: the element at the clamped position is gone
      and the ones after it move down by one; a position at the end removes nothing. */
  function RemoveAt<T>(s: seq<T>, start: int): (r: seq<T>)
    ensures SpliceIndex(|s|, start) < |s| ==> |r| == |s| - 1
    ensures SpliceIndex(|s|, start) == |s| ==> r == s
    ensures var k := SpliceIndex(|s|, start); k < |s| ==>
      (forall j :: 0 <= j < k ==> r[j] == s[j]) &&
      (forall j :: k <= j < |r| ==> r[j] == s[j + 1])
    ensures var k := SpliceIndex(|s|, start); k < |s| ==> multiset(r) + multiset{s[k]} == multiset(s)
  {
    var k := SpliceIndex(|s|, start);
    if k < |s| then
      assert s == s[..k] + [s[k]] + s[k + 1..];
      s[..k] + s[k + 1..]
    else s
  }

  lemma RemoveAtIsSubsequence<T>(s: seq<T>, start: int)
    ensures IsSubsequence(RemoveAt(s, start), s)
  {
    var k := SpliceIndex(|s|, start);
    if k < |s| {
      DropOneIsSubsequence(s, k);
    } else {
      SubsequenceOfItself(s);
    }
  }

  lemma {:induction false} SubsequenceOfItself<T>(s: seq<T>)
    ensures IsSubsequence(s, s)
  {
    if s != [] {
      SubsequenceOfItself(s[1..]);
    }
  }

  lemma {:induction false} DropOneIsSubsequence<T>(s: seq<T>, k: nat)
    requires k < |s|
    ensures IsSubsequence(s[..k] + s[k + 1..], s)
  {
    var r := s[..k] + s[k + 1..];
    if k == 0 {
      assert r == s[1..];
      SubsequenceOfItself(s[1..]);
    } else {
      DropOneIsSubsequence(s[1..], k - 1);
      assert r[0] == s[0];
      assert r[1..] == s[1..][..k - 1] + s[1..][k..];
    }
  }
}
