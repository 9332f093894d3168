/**
 * The list operations the front end performs with `Array.prototype.filter`, spread
 * and `new Set`: selection by a predicate, removal of a value, checkbox-style
 * toggling, removal at an index, and order-preserving de-duplication.
 */
module Seqs {

  /** `s` is `t` with some elements left out, the rest in their original order. */
  predicate IsSubsequence<T(==)>(s: seq<T>, t: seq<T>)
    decreases |t|
  {
    if s == [] then true
    else if t == [] then false
    else (s[0] == t[0] && IsSubsequence(s[1..], t[1..])) || IsSubsequence(s, t[1..])
  }

  predicate NoDuplicates<T(==)>(s: seq<T>)
  {
    forall i, j :: 0 <= i < j < |s| ==> s[i] != s[j]
  }

  /** `s.filter(p)`: the elements satisfying `p`, each kept as often as it occurs. */
  function Select<T(==, !new)>(s: seq<T>, p: T -> bool): (r: seq<T>)
    ensures |r| <= |s|
    ensures forall i :: 0 <= i < |r| ==> p(r[i])
  {
    if s == [] then []
    else
      var rest := Select(s[1..], p);
      if p(s[0]) then [s[0]] + rest else rest
  }

  /** Every element that passes is kept as often as it occurs, and no other is. */
  lemma {:induction false} SelectCount<T(!new)>(s: seq<T>, p: T -> bool)
    ensures forall x :: multiset(Select(s, p))[x] == if p(x) then multiset(s)[x] else 0
  {
    if s != [] {
      SelectCount(s[1..], p);
      assert s == [s[0]] + s[1..];
    }
  }

  /** Filtering keeps the order of what it keeps. */
  lemma {:induction false} SelectIsSubsequence<T(!new)>(s: seq<T>, p: T -> bool)
    ensures IsSubsequence(Select(s, p), s)
  {
    if s != [] {
      SelectIsSubsequence(s[1..], p);
      var rest := Select(s[1..], p);
      if !p(s[0]) {
        SubsequenceCons(rest, s[1..], s[0]);
      }
    }
  }

  /** A subsequence of `t` is a subsequence of `t` with one more element in front. */
  lemma SubsequenceCons<T>(s: seq<T>, t: seq<T>, x: T)
    requires IsSubsequence(s, t)
    ensures IsSubsequence(s, [x] + t)
  {
    assert ([x] + t)[1..] == t;
  }

  /** Filtering distributes over concatenation. */
  lemma {:induction false} SelectAppend<T(!new)>(a: seq<T>, b: seq<T>, p: T -> bool)
    ensures Select(a + b, p) == Select(a, p) + Select(b, p)
  {
    if a != [] {
      assert (a + b)[1..] == a[1..] + b;
      SelectAppend(a[1..], b, p);
    } else {
      assert a + b == b;
    }
  }

  /** Filtering a list whose elements all pass returns it unchanged. */
  lemma {:induction false} SelectAll<T(!new)>(s: seq<T>, p: T -> bool)
    requires forall i :: 0 <= i < |s| ==> p(s[i])
    ensures Select(s, p) == s
  {
    if s != [] {
      SelectAll(s[1..], p);
      assert s == [s[0]] + s[1..];
    }
  }

  /** Two successive filters are one filter by the conjunction. */
  lemma {:induction false} SelectSelect<T(!new)>(s: seq<T>, p: T -> bool, q: T -> bool, pq: T -> bool)
    requires forall x :: pq(x) == (p(x) && q(x))
    ensures Select(Select(s, p), q) == Select(s, pq)
  {
    if s != [] {
      SelectSelect(s[1..], p, q, pq);
      var rest := Select(s[1..], p);
      if p(s[0]) {
        assert ([s[0]] + rest)[1..] == rest;
      }
    }
  }

  /** Filtering by a predicate that agrees with another on every element gives the same list. */
  lemma {:induction false} SelectSame<T(!new)>(s: seq<T>, p: T -> bool, q: T -> bool)
    requires forall x :: p(x) == q(x)
    ensures Select(s, p) == Select(s, q)
  {
    if s != [] {
      SelectSame(s[1..], p, q);
    }
  }

  /** `s.filter(y => y !== x)`. */
  function Without<T(==, !new)>(s: seq<T>, x: T): (r: seq<T>)
    ensures x !in r
    ensures forall y :: y != x ==> multiset(r)[y] == multiset(s)[y]
  {
    var r := Select(s, (y: T) => y != x);
    SelectCount(s, (y: T) => y != x);
    assert forall i :: 0 <= i < |r| ==> r[i] != x;
    r
  }

  /** Removing a value that does not occur changes nothing. */
  lemma WithoutAbsent<T(!new)>(s: seq<T>, x: T)
    requires x !in s
    ensures Without(s, x) == s
  {
    SelectAll(s, (y: T) => y != x);
  }

  /** The checkbox handler: remove every occurrence of `x` when it is selected,
      append it at the end otherwise. */
  function Toggle<T(==, !new)>(s: seq<T>, x: T): (r: seq<T>)
    ensures (x in r) <==> (x !in s)
    ensures x !in s ==> r == s + [x]
    ensures x in s ==> r == Without(s, x)
  {
    if x in s then Without(s, x) else s + [x]
  }

  /** Toggling `x` leaves every other element, and the order of the others, as it was. */
  lemma ToggleKeepsOthers<T(!new)>(s: seq<T>, x: T)
    ensures Without(Toggle(s, x), x) == Without(s, x)
  {
    var p := (y: T) => y != x;
    if x in s {
      var w := Without(s, x);
      assert forall i :: 0 <= i < |w| ==> p(w[i]);
      SelectAll(w, p);
    } else {
      SelectAppend(s, [x], p);
      assert Select([x], p) == [];
    }
  }

  /** Toggling a value that is not selected, twice, restores the selection. */
  lemma ToggleTwice<T(!new)>(s: seq<T>, x: T)
    requires x !in s
    ensures Toggle(Toggle(s, x), x) == s
  {
    var p := (y: T) => y != x;
    SelectAppend(s, [x], p);
    assert Select([x], p) == [];
    WithoutAbsent(s, x);
  }

  /** `s.filter((_, i) => i !== k)`: the element at `k` removed, when `k` is an index. */
  function RemoveAt<T>(s: seq<T>, k: int): (r: seq<T>)
    ensures 0 <= k < |s| ==> |r| == |s| - 1
    ensures 0 <= k < |s| ==> forall i :: 0 <= i < k ==> r[i] == s[i]
    ensures 0 <= k < |s| ==> forall i :: k <= i < |r| ==> r[i] == s[i + 1]
    ensures !(0 <= k < |s|) ==> r == s
  {
    if 0 <= k < |s| then s[..k] + s[k + 1..] else s
  }

  /** Removing at an index removes exactly that one element. */
  lemma RemoveAtMultiset<T>(s: seq<T>, k: int)
    requires 0 <= k < |s|
    ensures multiset(RemoveAt(s, k)) + multiset{s[k]} == multiset(s)
  {
    assert s == s[..k] + [s[k]] + s[k + 1..];
  }

  /** The index of the first occurrence of `x` in `s`. */
  function FirstIndex<T(==)>(s: seq<T>, x: T): (i: nat)
    requires x in s
    ensures i < |s| && s[i] == x && x !in s[..i]
  {
    if s[0] == x then 0 else 1 + FirstIndex(s[1..], x)
  }

  /** The first occurrence of a value that occurs in a prefix lies in that prefix. */
  lemma {:induction false} FirstIndexPrefix<T>(s: seq<T>, k: nat, x: T)
    requires k <= |s| && x in s[..k]
    ensures FirstIndex(s, x) == FirstIndex(s[..k], x)
  {
    if s[0] != x {
      assert s[1..][..k - 1] == s[..k][1..];
      FirstIndexPrefix(s[1..], k - 1, x);
    }
  }

  /** `[...new Set(s)]`: every value of `s` once, in the order of first occurrence. */
  function Dedup<T(==, !new)>(s: seq<T>): (r: seq<T>)
    ensures NoDuplicates(r)
    ensures forall x :: x in r <==> x in s
    decreases |s|
  {
    if s == [] then []
    else
      var init := s[..|s| - 1];
      var d := Dedup(init);
      assert s == init + [s[|s| - 1]];
      if s[|s| - 1] in d then d else d + [s[|s| - 1]]
  }

  /** The de-duplicated list lists values by increasing position of first occurrence. */
  lemma {:induction false} DedupFirstOccurrenceOrder<T(!new)>(s: seq<T>)
    ensures forall i, j :: 0 <= i < j < |Dedup(s)| ==>
              FirstIndex(s, Dedup(s)[i]) < FirstIndex(s, Dedup(s)[j])
  {
    if s != [] {
      var n := |s| - 1;
      var init := s[..n];
      var d := Dedup(init);
      DedupFirstOccurrenceOrder(init);
      assert s[..n] == init;
      forall y | y in d
        ensures FirstIndex(s, y) == FirstIndex(init, y)
      {
        FirstIndexPrefix(s, n, y);
      }
      if s[n] !in d {
        var r := d + [s[n]];
        assert r == Dedup(s);
        assert s[n] !in init;
        assert FirstIndex(s, s[n]) == n;
        forall i, j | 0 <= i < j < |r|
          ensures FirstIndex(s, r[i]) < FirstIndex(s, r[j])
        {
          assert r[i] == d[i] && r[i] in d;
          if j < |d| {
            assert r[j] == d[j] && r[j] in d;
          }
        }
      }
    }
  }
}
