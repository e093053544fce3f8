/** Scores (reals with a bottom for `f64::MIN`) and the stable descending sort that `sort_by` performs on them. */
module Scores {
  datatype Score = Bottom | Value(v: real)

  predicate Less(a: Score, b: Score) {
    b.Value? && (a.Value? ==> a.v < b.v)
  }

  /** Puts x before the first element whose key does not exceed its own. */
  function Insert<T>(x: T, s: seq<T>, key: T -> Score): (r: seq<T>)
    ensures |r| == |s| + 1
    ensures multiset(r) == multiset(s) + multiset{x}
  {
    if s == [] then [x]
    else if Less(key(x), key(s[0])) then
      assert s == [s[0]] + s[1..];
      [s[0]] + Insert(x, s[1..], key)
    else [x] + s
  }

  /** The stable sort by descending key. */
  function SortDesc<T>(s: seq<T>, key: T -> Score): (r: seq<T>)
    ensures |r| == |s|
    ensures multiset(r) == multiset(s)
  {
    if s == [] then []
    else
      assert s == [s[0]] + s[1..];
      Insert(s[0], SortDesc(s[1..], key), key)
  }

  ghost predicate Descending<T>(s: seq<T>, key: T -> Score) {
    forall i, j :: 0 <= i < j < |s| ==> !Less(key(s[i]), key(s[j]))
  }

  /** The elements with one given key, in order. */
  function WithKey<T>(s: seq<T>, key: T -> Score, k: Score): seq<T> {
    if s == [] then []
    else (if key(s[0]) == k then [s[0]] else []) + WithKey(s[1..], key, k)
  }

  lemma {:induction false} InsertKeepsDescending<T>(x: T, s: seq<T>, key: T -> Score)
    requires Descending(s, key)
    ensures Descending(Insert(x, s, key), key)
  {
    if s != [] && Less(key(x), key(s[0])) {
      var t := Insert(x, s[1..], key);
      InsertKeepsDescending(x, s[1..], key);
      forall y | y in t
        ensures !Less(key(s[0]), key(y))
      {
        assert y in multiset(t);
        assert y == x || y in s[1..];
      }
      assert forall i :: 0 <= i < |t| ==> t[i] in t;
    }
  }

  lemma WithKeyCons<T>(x: T, s: seq<T>, key: T -> Score, k: Score)
    ensures WithKey([x] + s, key, k) == (if key(x) == k then [x] else []) + WithKey(s, key, k)
  {
    assert ([x] + s)[1..] == s;
  }

  lemma EmptyCommutes<T>(a: seq<T>, b: seq<T>, rest: seq<T>)
    requires a == [] || b == []
    ensures a + (b + rest) == b + (a + rest)
  {
  }

  lemma InsertUnfolds<T>(x: T, s: seq<T>, key: T -> Score)
    requires s != [] && Less(key(x), key(s[0]))
    ensures Insert(x, s, key) == [s[0]] + Insert(x, s[1..], key)
    ensures s == [s[0]] + s[1..]
  {
  }

  lemma {:induction false} InsertKeepsOrder<T>(x: T, s: seq<T>, key: T -> Score, k: Score)
    ensures WithKey(Insert(x, s, key), key, k) == WithKey([x] + s, key, k)
  {
    if s != [] && Less(key(x), key(s[0])) {
      hide WithKey, Insert;
      var first := if key(x) == k then [x] else [];
      var second := if key(s[0]) == k then [s[0]] else [];
      InsertUnfolds(x, s, key);
      InsertKeepsOrder(x, s[1..], key, k);
      WithKeyCons(x, s, key, k);
      WithKeyCons(x, s[1..], key, k);
      WithKeyCons(s[0], s[1..], key, k);
      WithKeyCons(s[0], Insert(x, s[1..], key), key, k);
      EmptyCommutes(first, second, WithKey(s[1..], key, k));
    }
  }

  /** The result is in descending order, and elements that tie keep the order they had. */
  lemma {:induction false} SortDescIsStableSort<T>(s: seq<T>, key: T -> Score)
    ensures Descending(SortDesc(s, key), key)
    ensures forall k :: WithKey(SortDesc(s, key), key, k) == WithKey(s, key, k)
  {
    if s != [] {
      var t := SortDesc(s[1..], key);
      SortDescIsStableSort(s[1..], key);
      InsertKeepsDescending(s[0], t, key);
      forall k
        ensures WithKey(SortDesc(s, key), key, k) == WithKey(s, key, k)
      {
        InsertKeepsOrder(s[0], t, key, k);
        WithKeyCons(s[0], t, key, k);
      }
    }
  }

  /** Position i holds the first maximum of s. */
  ghost predicate FirstMaxAt<T>(s: seq<T>, key: T -> Score, i: nat) {
    && i < |s|
    && (forall j :: 0 <= j < |s| ==> !Less(key(s[i]), key(s[j])))
    && (forall j :: 0 <= j < i ==> Less(key(s[j]), key(s[i])))
  }

  lemma {:induction false} HeadOfSortIsFirstMax<T>(s: seq<T>, key: T -> Score) returns (i: nat)
    requires s != []
    ensures FirstMaxAt(s, key, i) && SortDesc(s, key)[0] == s[i]
  {
    if |s| == 1 {
      assert SortDesc(s[1..], key) == [];
      i := 0;
    } else {
      var k := HeadOfSortIsFirstMax(s[1..], key);
      assert forall j :: 0 < j < |s| ==> s[j] == s[1..][j - 1];
      assert s[1..][k] == s[k + 1];
      i := if Less(key(s[0]), key(s[k + 1])) then k + 1 else 0;
      assert forall j :: 0 < j < |s| ==> !Less(key(s[k + 1]), key(s[j]));
    }
  }

  /** `max_by`: a later element replaces the best so far unless that one is strictly greater. */
  function LastMaxOf<T>(s: seq<T>, key: T -> Score): T
    requires s != []
  {
    var n := |s| - 1;
    if n == 0 then s[0]
    else
      var best := LastMaxOf(s[..n], key);
      if Less(key(s[n]), key(best)) then best else s[n]
  }

  /** Position i holds the last maximum of s. */
  ghost predicate LastMaxAt<T>(s: seq<T>, key: T -> Score, i: nat) {
    && i < |s|
    && (forall j :: 0 <= j < |s| ==> !Less(key(s[i]), key(s[j])))
    && (forall j :: i < j < |s| ==> Less(key(s[j]), key(s[i])))
  }

  lemma {:induction false} LastMaxOfIsLastMax<T>(s: seq<T>, key: T -> Score) returns (i: nat)
    requires s != []
    ensures LastMaxAt(s, key, i) && LastMaxOf(s, key) == s[i]
  {
    var n := |s| - 1;
    if n == 0 {
      i := 0;
    } else {
      i := LastMaxOfIsLastMax(s[..n], key);
      assert forall j :: 0 <= j < n ==> s[..n][j] == s[j];
      if !Less(key(s[n]), key(s[i])) {
        i := n;
      }
    }
  }
}
