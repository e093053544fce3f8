/** Small shared vocabulary: optional values, the source's integer widths, and generic sequence facts. */
module Common {
  datatype Option<+T> = None | Some(value: T)

  /** An address, compared only for equality. */
  datatype IpAddr = V4(bits: nat) | V6(bits: nat)

  const U32_MAX: nat := 0xFFFF_FFFF
  const U64_SPAN: nat := 0x1_0000_0000_0000_0000

  /** `u64::saturating_sub`. */
  function SatSub(a: nat, b: nat): nat {
    if a < b then 0 else a - b
  }

  function Min(a: int, b: int): int {
    if a < b then a else b
  }

  predicate Distinct<T(==)>(s: seq<T>) {
    forall i, j :: 0 <= i < j < |s| ==> s[i] != s[j]
  }

  lemma CutOut<T>(s: seq<T>, i: nat)
    requires i < |s|
    ensures s == s[..i] + [s[i]] + s[i + 1..]
    ensures multiset(s) == multiset(s[..i] + s[i + 1..]) + multiset{s[i]}
  {
    var l, x, r := s[..i], s[i], s[i + 1..];
    assert s == l + [x] + r;
    assert multiset(l + [x] + r) == multiset(l) + multiset{x} + multiset(r);
    assert multiset(l + r) == multiset(l) + multiset(r);
  }

  lemma SameElements<T>(a: seq<T>, b: seq<T>)
    requires multiset(a) == multiset(b)
    ensures forall x :: x in a <==> x in b
  {
    assert forall x :: x in a <==> x in multiset(a);
    assert forall x :: x in b <==> x in multiset(b);
  }

  /** Where the last element of a sequence sits in a permutation of it, and what remains when it is taken out of
      both. */
  lemma TakeOutLast<T>(a: seq<T>, b: seq<T>) returns (i: nat)
    requires a != [] && multiset(a) == multiset(b)
    ensures i < |b| && b[i] == a[|a| - 1]
    ensures multiset(a[..|a| - 1]) == multiset(b[..i] + b[i + 1..])
    ensures b == b[..i] + [b[i]] + b[i + 1..]
  {
    var front, x := a[..|a| - 1], a[|a| - 1];
    SameElements(a, b);
    assert x in b;
    i :| 0 <= i < |b| && b[i] == x;
    CutOut(b, i);
    var rest := b[..i] + b[i + 1..];
    assert a == front + [x];
    assert multiset(front) + multiset{x} == multiset(rest) + multiset{x};
    assert multiset(front) == multiset(a) - multiset{x} && multiset(rest) == multiset(b) - multiset{x};
  }

  lemma EmptyPermutation<T>(b: seq<T>)
    requires multiset(b) == multiset{}
    ensures b == []
  {
    assert |b| == |multiset(b)|;
  }

  // ---- Filtering ----

  /** The elements that satisfy p, in order. */
  function Filter<T>(s: seq<T>, p: T -> bool): seq<T> {
    if s == [] then []
    else Filter(s[..|s| - 1], p) + if p(s[|s| - 1]) then [s[|s| - 1]] else []
  }

  lemma {:induction false} FilterMembers<T>(s: seq<T>, p: T -> bool)
    ensures forall x :: x in Filter(s, p) <==> x in s && p(x)
  {
    if s != [] {
      var front, last := s[..|s| - 1], s[|s| - 1];
      assert s == front + [last];
      FilterMembers(front, p);
    }
  }

  /** The positions of the elements that satisfy p. */
  function Positions<T>(s: seq<T>, p: T -> bool): seq<nat> {
    if s == [] then []
    else Positions(s[..|s| - 1], p) + if p(s[|s| - 1]) then [|s| - 1] else []
  }

  /** at lists, in increasing order, exactly the positions at which s satisfies p. */
  ghost predicate Selects<T>(s: seq<T>, p: T -> bool, at: seq<nat>) {
    && (forall i, j :: 0 <= i < j < |at| ==> at[i] < at[j])
    && (forall i: nat :: i in at <==> i < |s| && p(s[i]))
  }

  /** The elements of s at these positions are r. */
  ghost predicate ReadsAs<T>(s: seq<T>, at: seq<nat>, r: seq<T>) {
    |r| == |at| && forall i :: 0 <= i < |at| ==> at[i] < |s| && r[i] == s[at[i]]
  }

  lemma {:induction false} PositionsSelect<T>(s: seq<T>, p: T -> bool)
    ensures Selects(s, p, Positions(s, p))
  {
    if s != [] {
      var n := |s| - 1;
      PositionsSelect(s[..n], p);
      SelectsOneMore(s, p, Positions(s[..n], p));
    }
  }

  lemma SelectsOneMore<T>(s: seq<T>, p: T -> bool, at: seq<nat>)
    requires s != [] && Selects(s[..|s| - 1], p, at)
    ensures Selects(s, p, at + if p(s[|s| - 1]) then [|s| - 1] else [])
  {
    var n := |s| - 1;
    var all := at + if p(s[n]) then [n] else [];
    assert forall i :: 0 <= i < |at| ==> at[i] in at;
    forall i: nat
      ensures i in all <==> i < |s| && p(s[i])
    {
      assert i in all <==> i in at || (i == n && p(s[n]));
      assert i < n ==> s[..n][i] == s[i];
    }
  }

  lemma {:induction false} FilterReads<T>(s: seq<T>, p: T -> bool)
    ensures ReadsAs(s, Positions(s, p), Filter(s, p))
  {
    if s != [] {
      FilterReads(s[..|s| - 1], p);
    }
  }

  /** Filtering takes the subsequence at exactly the positions that satisfy p: order and multiplicity are kept. */
  lemma FilterIsSubsequence<T>(s: seq<T>, p: T -> bool)
    ensures Selects(s, p, Positions(s, p)) && ReadsAs(s, Positions(s, p), Filter(s, p))
  {
    PositionsSelect(s, p);
    FilterReads(s, p);
  }

  lemma {:induction false} FilterAll<T>(s: seq<T>, p: T -> bool)
    requires forall x :: x in s ==> p(x)
    ensures Filter(s, p) == s
  {
    if s != [] {
      var front, last := s[..|s| - 1], s[|s| - 1];
      assert s == front + [last];
      FilterAll(front, p);
    }
  }
}
