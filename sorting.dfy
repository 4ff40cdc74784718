/**
 * Ordering by a numeric key that may be minus or plus infinity, and a stable
 * insertion sort that returns a new sequence (the input is a value and is
 * never reordered).
 */
module Sorting {
  import Seqs

  /** A real number extended with the two infinities. */
  datatype ExtReal = NegInf | Fin(r: real) | PosInf

  predicate Le(a: ExtReal, b: ExtReal)
  {
    match (a, b)
    case (NegInf, _) => true
    case (_, PosInf) => true
    case (Fin(x), Fin(y)) => x <= y
    case _ => false
  }

  predicate Lt(a: ExtReal, b: ExtReal)
  {
    Le(a, b) && !Le(b, a)
  }

  /** `a` may come before `b` in an ascending, or else descending, order. */
  predicate InOrder(a: ExtReal, b: ExtReal, descending: bool)
  {
    if descending then Le(b, a) else Le(a, b)
  }

  ghost predicate SortedBy<T>(s: seq<T>, key: T -> ExtReal, descending: bool)
  {
    forall i, j :: 0 <= i < j < |s| ==> InOrder(key(s[i]), key(s[j]), descending)
  }

  /** Puts `x` before the first element it may precede. */
  function Insert<T>(x: T, s: seq<T>, key: T -> ExtReal, descending: bool): (r: seq<T>)
    requires SortedBy(s, key, descending)
    ensures SortedBy(r, key, descending)
    ensures multiset(r) == multiset(s) + multiset{x}
  {
    if |s| == 0 then [x]
    else if InOrder(key(x), key(s[0]), descending) then [x] + s
    else
      var tail := Insert(x, s[1..], key, descending);
      HeadPrecedes(x, s, tail, key, descending);
      ConsSorted(s[0], tail, key, descending);
      assert s == [s[0]] + s[1..];
      [s[0]] + tail
  }

  /** The head of a sorted `s` may precede every element of `s[1..]` with `x` added, when it may precede `x`. */
  lemma HeadPrecedes<T>(x: T, s: seq<T>, tail: seq<T>, key: T -> ExtReal, descending: bool)
    requires |s| > 0 && SortedBy(s, key, descending)
    requires !InOrder(key(x), key(s[0]), descending)
    requires multiset(tail) == multiset(s[1..]) + multiset{x}
    ensures forall k :: 0 <= k < |tail| ==> InOrder(key(s[0]), key(tail[k]), descending)
  {
    forall k | 0 <= k < |tail| ensures InOrder(key(s[0]), key(tail[k]), descending) {
      assert tail[k] in multiset(tail);
      if tail[k] != x {
        assert tail[k] in multiset(s[1..]);
        var m :| 0 <= m < |s[1..]| && s[1..][m] == tail[k];
        assert s[m + 1] == tail[k];
      }
    }
  }

  lemma ConsSorted<T>(h: T, tail: seq<T>, key: T -> ExtReal, descending: bool)
    requires SortedBy(tail, key, descending)
    requires forall k :: 0 <= k < |tail| ==> InOrder(key(h), key(tail[k]), descending)
    ensures SortedBy([h] + tail, key, descending)
  {
    var r := [h] + tail;
    forall i, j | 0 <= i < j < |r| ensures InOrder(key(r[i]), key(r[j]), descending) {
      if i > 0 {
        assert r[i] == tail[i - 1] && r[j] == tail[j - 1];
      } else {
        assert r[j] == tail[j - 1];
      }
    }
  }

  /** A sorted permutation of `s`; elements with equal keys keep their order. */
  function SortBy<T>(s: seq<T>, key: T -> ExtReal, descending: bool): (r: seq<T>)
    ensures SortedBy(r, key, descending)
    ensures multiset(r) == multiset(s)
  {
    if |s| == 0 then []
    else
      assert s == [s[0]] + s[1..];
      Insert(s[0], SortBy(s[1..], key, descending), key, descending)
  }

  /** The elements whose key is exactly `k`. */
  function KeyIs<T>(key: T -> ExtReal, k: ExtReal): T -> bool
  {
    e => key(e) == k
  }

  lemma FilterCons<T(!new)>(h: T, t: seq<T>, p: T -> bool)
    ensures Seqs.Filter([h] + t, p) == (if p(h) then [h] else []) + Seqs.Filter(t, p)
  {
    assert ([h] + t)[0] == h && ([h] + t)[1..] == t;
  }

  lemma FilterHead<T(!new)>(s: seq<T>, p: T -> bool)
    requires |s| > 0
    ensures Seqs.Filter(s, p) == (if p(s[0]) then [s[0]] else []) + Seqs.Filter(s[1..], p)
  {
  }

  lemma SortedTail<T>(s: seq<T>, key: T -> ExtReal, descending: bool)
    requires |s| > 0 && SortedBy(s, key, descending)
    ensures SortedBy(s[1..], key, descending)
  {
    forall i, j | 0 <= i < j < |s[1..]| ensures InOrder(key(s[1..][i]), key(s[1..][j]), descending) {
      assert s[1..][i] == s[i + 1] && s[1..][j] == s[j + 1];
    }
  }

  lemma InOrderReflexive(a: ExtReal, descending: bool)
    ensures InOrder(a, a, descending)
  {
  }

  /** The step of `InsertKeepsEqualKeysAfter` where `x` goes past the head of `s`. */
  lemma InsertPastHead<T(!new)>(x: T, s: seq<T>, key: T -> ExtReal, descending: bool, k: ExtReal)
    requires |s| > 0 && SortedBy(s, key, descending)
    requires !InOrder(key(x), key(s[0]), descending)
    requires Seqs.Filter(Insert(x, s[1..], key, descending), KeyIs(key, k))
      == (if key(x) == k then [x] else []) + Seqs.Filter(s[1..], KeyIs(key, k))
    ensures Seqs.Filter(Insert(x, s, key, descending), KeyIs(key, k))
      == (if key(x) == k then [x] else []) + Seqs.Filter(s, KeyIs(key, k))
  {
    var p := KeyIs(key, k);
    var mine: seq<T> := if key(x) == k then [x] else [];
    var head: seq<T> := if key(s[0]) == k then [s[0]] else [];
    SortedTail(s, key, descending);
    var tail := Insert(x, s[1..], key, descending);
    InOrderReflexive(key(x), descending);
    InsertUnfold(x, s, key, descending);
    FilterCons(s[0], tail, p);
    FilterHead(s, p);
    var inserted, rest, whole := Seqs.Filter(Insert(x, s, key, descending), p), Seqs.Filter(s[1..], p), Seqs.Filter(s, p);
    assert inserted == head + (mine + rest);
    assert whole == head + rest;
    assert head == [] || mine == [];
    PrefixesCommute(head, mine, rest);
  }

  /** Two prefixes, one of them empty, can be put in either order. */
  lemma PrefixesCommute<T>(a: seq<T>, b: seq<T>, rest: seq<T>)
    requires a == [] || b == []
    ensures a + (b + rest) == b + (a + rest)
  {
    if a == [] {
      assert a + (b + rest) == b + rest;
    } else {
      assert b + (a + rest) == a + rest;
    }
  }

  lemma InsertUnfold<T>(x: T, s: seq<T>, key: T -> ExtReal, descending: bool)
    requires |s| > 0 && SortedBy(s, key, descending) && SortedBy(s[1..], key, descending)
    requires !InOrder(key(x), key(s[0]), descending)
    ensures Insert(x, s, key, descending) == [s[0]] + Insert(x, s[1..], key, descending)
  {
  }

  /** Inserting `x` puts it before every element of `s` with the same key. */
  lemma {:induction false} InsertKeepsEqualKeysAfter<T(!new)>(x: T, s: seq<T>, key: T -> ExtReal, descending: bool, k: ExtReal)
    requires SortedBy(s, key, descending)
    ensures Seqs.Filter(Insert(x, s, key, descending), KeyIs(key, k))
      == (if key(x) == k then [x] else []) + Seqs.Filter(s, KeyIs(key, k))
    decreases |s|
  {
    if |s| == 0 {
      FilterCons(x, [], KeyIs(key, k));
    } else if InOrder(key(x), key(s[0]), descending) {
      FilterCons(x, s, KeyIs(key, k));
    } else {
      SortedTail(s, key, descending);
      InsertKeepsEqualKeysAfter(x, s[1..], key, descending, k);
      InsertPastHead(x, s, key, descending, k);
    }
  }

  /**
   * The sort is stable: for every key value, the elements with that key come
   * out in the order they went in.
   */
  lemma {:induction false} SortByStable<T(!new)>(s: seq<T>, key: T -> ExtReal, descending: bool, k: ExtReal)
    ensures Seqs.Filter(SortBy(s, key, descending), KeyIs(key, k)) == Seqs.Filter(s, KeyIs(key, k))
  {
    if |s| > 0 {
      SortByStable(s[1..], key, descending, k);
      InsertKeepsEqualKeysAfter(s[0], SortBy(s[1..], key, descending), key, descending, k);
    }
  }
}
