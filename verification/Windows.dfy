/** The dashboard's window queries over the request table, what they conserve, and their blindness to retention. */
module Windows {
  import opened Common
  import opened Scores
  import opened Log

  // ---- Aggregates ----

  function Sum<T>(rows: seq<T>, f: T -> int): int {
    if rows == [] then 0 else Sum(rows[..|rows| - 1], f) + f(rows[|rows| - 1])
  }

  /** The rows of one group, in order. */
  function Members<T>(rows: seq<T>, key: T -> int, k: int): seq<T> {
    if rows == [] then []
    else
      var last := rows[|rows| - 1];
      Members(rows[..|rows| - 1], key, k) + if key(last) == k then [last] else []
  }

  ghost predicate Ascending(keys: seq<int>) {
    forall i, j :: 0 <= i < j < |keys| ==> keys[i] < keys[j]
  }

  /** Adds a key to an ascending list unless it is there. */
  function InsertKey(keys: seq<int>, k: int): (r: seq<int>)
    ensures forall x :: x in r <==> x in keys || x == k
  {
    if keys == [] then [k]
    else if k < keys[0] then [k] + keys
    else if k == keys[0] then keys
    else [keys[0]] + InsertKey(keys[1..], k)
  }

  lemma AscendingCons(k: int, rest: seq<int>)
    requires Ascending(rest) && forall x :: x in rest ==> k < x
    ensures Ascending([k] + rest)
  {
    assert forall i :: 0 <= i < |rest| ==> rest[i] in rest;
  }

  lemma {:induction false} InsertKeyAscending(keys: seq<int>, k: int)
    requires Ascending(keys)
    ensures Ascending(InsertKey(keys, k))
  {
    if keys != [] && k > keys[0] {
      assert Ascending(keys[1..]) && forall x :: x in keys[1..] ==> keys[0] < x;
      InsertKeyAscending(keys[1..], k);
      AscendingCons(keys[0], InsertKey(keys[1..], k));
    }
  }

  /** The distinct keys of the rows, ascending: `GROUP BY key ORDER BY key`. */
  function Keys<T>(rows: seq<T>, key: T -> int): (r: seq<int>)
    ensures Ascending(r)
  {
    if rows == [] then []
    else
      InsertKeyAscending(Keys(rows[..|rows| - 1], key), key(rows[|rows| - 1]));
      InsertKey(Keys(rows[..|rows| - 1], key), key(rows[|rows| - 1]))
  }

  /** Some row has the key k. */
  ghost predicate Occurs<T>(rows: seq<T>, key: T -> int, k: int) {
    exists i :: 0 <= i < |rows| && key(rows[i]) == k
  }

  lemma OccursAppend<T>(rows: seq<T>, x: T, key: T -> int, k: int)
    ensures Occurs(rows + [x], key, k) <==> Occurs(rows, key, k) || key(x) == k
  {
    var all := rows + [x];
    if Occurs(rows, key, k) {
      var i :| 0 <= i < |rows| && key(rows[i]) == k;
      assert all[i] == rows[i];
    }
    assert all[|rows|] == x;
  }

  lemma {:induction false} KeysAreTheKeys<T>(rows: seq<T>, key: T -> int)
    ensures forall k :: k in Keys(rows, key) <==> Occurs(rows, key, k)
  {
    if rows != [] {
      var init, last := rows[..|rows| - 1], rows[|rows| - 1];
      KeysAreTheKeys(init, key);
      assert rows == init + [last];
      forall k
        ensures Occurs(rows, key, k) <==> Occurs(init, key, k) || key(last) == k
      {
        OccursAppend(init, last, key, k);
      }
    }
  }

  lemma KeysCover<T>(rows: seq<T>, key: T -> int)
    ensures forall i :: 0 <= i < |rows| ==> key(rows[i]) in Keys(rows, key)
  {
    KeysAreTheKeys(rows, key);
  }

  /** The sum over the given groups of a group's sum. */
  function SumByKey<T>(keys: seq<int>, rows: seq<T>, key: T -> int, f: T -> int): int {
    if keys == [] then 0
    else SumByKey(keys[..|keys| - 1], rows, key, f) + Sum(Members(rows, key, keys[|keys| - 1]), f)
  }

  lemma SumAppend<T>(rows: seq<T>, x: T, f: T -> int)
    ensures Sum(rows + [x], f) == Sum(rows, f) + f(x)
  {
    assert (rows + [x])[..|rows|] == rows;
  }

  lemma MembersAppend<T>(rows: seq<T>, x: T, key: T -> int, k: int)
    ensures Members(rows + [x], key, k) == Members(rows, key, k) + if key(x) == k then [x] else []
  {
    assert (rows + [x])[..|rows|] == rows;
  }

  /** One more row raises exactly the sum of its own group. */
  lemma {:induction false} SumByKeyAppend<T>(keys: seq<int>, rows: seq<T>, x: T, key: T -> int, f: T -> int)
    requires Ascending(keys)
    ensures SumByKey(keys, rows + [x], key, f) == SumByKey(keys, rows, key, f) + if key(x) in keys then f(x) else 0
  {
    hide Members, Sum;
    if keys != [] {
      var front, k := keys[..|keys| - 1], keys[|keys| - 1];
      SumByKeyAppend(front, rows, x, key, f);
      MemberSumAppend(rows, x, key, k, f);
      assert k !in front;
      assert keys == front + [k];
    }
  }

  lemma MemberSumAppend<T>(rows: seq<T>, x: T, key: T -> int, k: int, f: T -> int)
    ensures Sum(Members(rows + [x], key, k), f) == Sum(Members(rows, key, k), f) + if key(x) == k then f(x) else 0
  {
    MembersAppend(rows, x, key, k);
    if key(x) == k {
      SumAppend(Members(rows, key, k), x, f);
    } else {
      assert Members(rows, key, k) + [] == Members(rows, key, k);
    }
  }

  /** Groups partition the rows: whatever is added up per row, the groups' sums add up to the total. */
  lemma {:induction false} GroupsConserve<T>(keys: seq<int>, rows: seq<T>, key: T -> int, f: T -> int)
    requires Ascending(keys) && forall i :: 0 <= i < |rows| ==> key(rows[i]) in keys
    ensures SumByKey(keys, rows, key, f) == Sum(rows, f)
  {
    hide SumByKey, Ascending;
    if rows == [] {
      EmptyGroups(keys, rows, key, f);
    } else {
      var init, last := rows[..|rows| - 1], rows[|rows| - 1];
      assert forall i :: 0 <= i < |init| ==> init[i] == rows[i];
      GroupsConserve(keys, init, key, f);
      SumByKeyAppend(keys, init, last, key, f);
      assert init + [last] == rows;
    }
  }

  lemma {:induction false} EmptyGroups<T>(keys: seq<int>, rows: seq<T>, key: T -> int, f: T -> int)
    requires rows == []
    ensures SumByKey(keys, rows, key, f) == 0
  {
    if keys != [] {
      EmptyGroups(keys[..|keys| - 1], rows, key, f);
    }
  }

  // ---- The queries ----

  datatype TimeWindowStats = TimeWindowStats(requests: int, throughputKbps: real, ttfbMs: real, errors: int, bytes: int)
  datatype BucketStat = BucketStat(ts: int, requests: int, throughputKbps: real, ttfbMs: real, errors: int)
  datatype StatusCount = StatusCount(status: int, count: int)

  function One(): RequestRow -> int {
    (r: RequestRow) => 1
  }

  function BytesOf(): RequestRow -> int {
    (r: RequestRow) => r.bytes
  }

  function TtfbOf(): RequestRow -> int {
    (r: RequestRow) => r.ttfbMs
  }

  function IsError(): RequestRow -> int {
    (r: RequestRow) => if r.status >= 500 then 1 else 0
  }

  function StatusOf(): RequestRow -> int {
    (r: RequestRow) => r.status
  }

  function Since(rows: seq<RequestRow>, since: int): seq<RequestRow> {
    KeepFrom(rows, RequestTime(), since)
  }

  /** Kilobits per second of a byte total over a number of seconds. */
  function Throughput(bytes: int, secs: int): real
    requires secs > 0
  {
    bytes as real * 8.0 / 1024.0 / secs as real
  }

  function Kilobits(bytes: int): real {
    bytes as real * 8.0 / 1024.0
  }

  function Average(total: int, count: int): real {
    if count == 0 then 0.0 else total as real / count as real
  }

  function StatsSince(rows: seq<RequestRow>, since: int, windowSecs: int): TimeWindowStats
    requires windowSecs > 0
  {
    var w := Since(rows, since);
    TimeWindowStats(|w|, Throughput(Sum(w, BytesOf()), windowSecs), Average(Sum(w, TtfbOf()), |w|),
                    Sum(w, IsError()), Sum(w, BytesOf()))
  }

  /** SQL's integer division truncates toward zero. */
  function TruncDiv(a: int, b: int): int
    requires b > 0
  {
    if a >= 0 then a / b else -((-a) / b)
  }

  function Times(q: int, b: int): int {
    q * b
  }

  ghost predicate IsMultiple(x: int, b: int) {
    exists q :: x == Times(q, b)
  }

  function BucketOf(bucketSecs: int): RequestRow -> int
    requires bucketSecs > 0
  {
    (r: RequestRow) => Times(TruncDiv(r.ts, bucketSecs), bucketSecs)
  }

  function BucketStatOf(k: int, members: seq<RequestRow>, bucketSecs: int): BucketStat
    requires bucketSecs > 0
  {
    BucketStat(k, |members|, Throughput(Sum(members, BytesOf()), bucketSecs),
               Average(Sum(members, TtfbOf()), |members|),
               Sum(members, IsError()))
  }

  function BucketStats(keys: seq<int>, w: seq<RequestRow>, bucketSecs: int): (r: seq<BucketStat>)
    requires bucketSecs > 0
    ensures |r| == |keys|
    ensures forall i :: 0 <= i < |keys| ==>
              r[i] == BucketStatOf(keys[i], Members(w, BucketOf(bucketSecs), keys[i]), bucketSecs)
  {
    if keys == [] then []
    else
      var n := |keys| - 1;
      BucketStats(keys[..n], w, bucketSecs)
      + [BucketStatOf(keys[n], Members(w, BucketOf(bucketSecs), keys[n]), bucketSecs)]
  }

  function SeriesSince(rows: seq<RequestRow>, since: int, bucketSecs: int): seq<BucketStat>
    requires bucketSecs > 0
  {
    var w := Since(rows, since);
    BucketStats(Keys(w, BucketOf(bucketSecs)), w, bucketSecs)
  }

  function CountsFor(keys: seq<int>, w: seq<RequestRow>): seq<StatusCount> {
    if keys == [] then []
    else
      var n := |keys| - 1;
      CountsFor(keys[..n], w) + [StatusCount(keys[n], |Members(w, StatusOf(), keys[n])|)]
  }

  function CountKey(): StatusCount -> Score {
    (c: StatusCount) => Value(c.count as real)
  }

  /** One count per status that occurs, most frequent first; SQL leaves the order of equal counts open. */
  ghost predicate IsStatusCounts(out: seq<StatusCount>, rows: seq<RequestRow>, since: int) {
    && multiset(out) == multiset(CountsFor(Keys(Since(rows, since), StatusOf()), Since(rows, since)))
    && Descending(out, CountKey())
  }

  function Reverse<T>(s: seq<T>): (r: seq<T>)
    ensures |r| == |s|
    ensures forall i :: 0 <= i < |s| ==> r[i] == s[|s| - 1 - i]
  {
    if s == [] then [] else [s[|s| - 1]] + Reverse(s[..|s| - 1])
  }

  function Clamp(v: int, lo: int, hi: int): int {
    if v < lo then lo else if v > hi then hi else v
  }

  /** The newest rows first, at most 500. */
  function RecentRequests(rows: seq<RequestRow>, limit: int, since: Option<int>): seq<RequestRow> {
    var w := if since.Some? then Since(rows, since.value) else rows;
    Reverse(w)[..Min(Clamp(limit, 0, 500), |w|)]
  }

  /** The rows returned are rows of the window in descending id order; one is left out only when the limit is reached,
      and then has a smaller id than all of them. */
  lemma RecentAreNewest(rows: seq<RequestRow>, limit: int, since: Option<int>, last: nat)
    requires IdsIncrease(rows, last)
    ensures var out := RecentRequests(rows, limit, since);
            && |out| <= (if limit < 0 then 0 else if limit > 500 then 500 else limit)
            && (forall i, j :: 0 <= i < j < |out| ==> out[i].id > out[j].id)
            && (forall o :: o in out ==> o in rows && (since.Some? ==> o.ts >= since.value))
            && (forall r :: r in rows && r !in out && (since.Some? ==> r.ts >= since.value) ==>
                  && |out| == (if limit < 0 then 0 else if limit > 500 then 500 else limit)
                  && forall o :: o in out ==> r.id < o.id)
  {
    var w := if since.Some? then Since(rows, since.value) else rows;
    if since.Some? {
      KeepFromIds(rows, since.value, last);
      KeepFromMembers(rows, RequestTime(), since.value);
    }
    NewestOf(w, last, |RecentRequests(rows, limit, since)|);
  }

  lemma NewestOf(w: seq<RequestRow>, last: nat, n: nat)
    requires IdsIncrease(w, last) && n <= |w|
    ensures var out := Reverse(w)[..n];
            && (forall i, j :: 0 <= i < j < |out| ==> out[i].id > out[j].id)
            && (forall o :: o in out ==> o in w)
            && (forall r :: r in w && r !in out ==> n < |w| && forall o :: o in out ==> r.id < o.id)
  {
    var out := Reverse(w)[..n];
    ReverseDescends(w, last, n);
    hide IdsIncrease;
    forall o | o in out
      ensures o in w
    {
      var k :| 0 <= k < n && out[k] == o;
      assert w[|w| - 1 - k] == o;
    }
    forall r | r in w && r !in out
      ensures n < |w| && forall o :: o in out ==> r.id < o.id
    {
      OlderThanAll(w, last, n, r);
    }
  }

  lemma ReverseDescends(w: seq<RequestRow>, last: nat, n: nat)
    requires IdsIncrease(w, last) && n <= |w|
    ensures forall i, j :: 0 <= i < j < n ==> Reverse(w)[..n][i].id > Reverse(w)[..n][j].id
  {
  }

  lemma OlderThanAll(w: seq<RequestRow>, last: nat, n: nat, r: RequestRow)
    requires IdsIncrease(w, last) && n <= |w|
    requires r in w && r !in Reverse(w)[..n]
    ensures n < |w| && forall o :: o in Reverse(w)[..n] ==> r.id < o.id
  {
    var i :| 0 <= i < |w| && w[i] == r;
    if i >= |w| - n {
      AmongLast(w, n, i);
    }
    forall o | o in Reverse(w)[..n]
      ensures r.id < o.id
    {
      var k :| 0 <= k < n && Reverse(w)[..n][k] == o;
      assert o == w[|w| - 1 - k];
    }
  }

  lemma AmongLast<T>(w: seq<T>, n: nat, i: nat)
    requires n <= |w| && |w| - n <= i < |w|
    ensures w[i] in Reverse(w)[..n]
  {
    assert Reverse(w)[..n][|w| - 1 - i] == w[i];
  }

  // ---- Conservation ----

  lemma {:induction false} SumOnes(rows: seq<RequestRow>)
    ensures Sum(rows, One()) == |rows|
  {
    if rows != [] {
      SumOnes(rows[..|rows| - 1]);
    }
  }

  function TotalRequests(out: seq<BucketStat>): int {
    if out == [] then 0 else TotalRequests(out[..|out| - 1]) + out[|out| - 1].requests
  }

  function TotalErrors(out: seq<BucketStat>): int {
    if out == [] then 0 else TotalErrors(out[..|out| - 1]) + out[|out| - 1].errors
  }

  function KilobitsOfBucket(stat: BucketStat, bucketSecs: int): real {
    stat.throughputKbps * bucketSecs as real
  }

  lemma KilobitsOfStat(k: int, members: seq<RequestRow>, b: int)
    requires b > 0
    ensures KilobitsOfBucket(BucketStatOf(k, members, b), b) == Kilobits(Sum(members, BytesOf()))
  {
    ThroughputTimesSecs(Sum(members, BytesOf()), b);
  }

  lemma KilobitsAdd(a: int, b: int)
    ensures Kilobits(a + b) == Kilobits(a) + Kilobits(b)
  {
  }

  /** Throughput times bucket length, added up: the kilobits transferred. */
  function TotalKilobits(out: seq<BucketStat>, bucketSecs: int): real {
    if out == [] then 0.0
    else TotalKilobits(out[..|out| - 1], bucketSecs) + KilobitsOfBucket(out[|out| - 1], bucketSecs)
  }

  function TtfbOfBucket(stat: BucketStat): real {
    stat.ttfbMs * stat.requests as real
  }

  lemma TtfbOfStat(k: int, members: seq<RequestRow>, b: int)
    requires b > 0
    ensures TtfbOfBucket(BucketStatOf(k, members, b)) == Sum(members, TtfbOf()) as real
  {
    EmptySum(members, TtfbOf());
    AverageTimesCount(Sum(members, TtfbOf()), |members|);
  }

  /** Average times count, added up: the milliseconds waited for first bytes. */
  function TotalTtfb(out: seq<BucketStat>): real {
    if out == [] then 0.0 else TotalTtfb(out[..|out| - 1]) + TtfbOfBucket(out[|out| - 1])
  }

  lemma ThroughputTimesSecs(bytes: int, secs: int)
    requires secs > 0
    ensures Throughput(bytes, secs) * secs as real == Kilobits(bytes)
  {
    var s := secs as real;
    assert Throughput(bytes, secs) == Kilobits(bytes) / s;
  }

  lemma AverageTimesCount(total: int, count: int)
    requires count == 0 ==> total == 0
    ensures Average(total, count) * count as real == total as real
  {
  }

  lemma {:induction false} CountTotals(keys: seq<int>, w: seq<RequestRow>, b: int)
    requires b > 0
    ensures TotalRequests(BucketStats(keys, w, b)) == SumByKey(keys, w, BucketOf(b), One())
    ensures TotalErrors(BucketStats(keys, w, b)) == SumByKey(keys, w, BucketOf(b), IsError())
  {
    hide Throughput, Average, BucketOf, Members;
    if keys != [] {
      var front, k := keys[..|keys| - 1], keys[|keys| - 1];
      CountTotals(front, w, b);
      var out := BucketStats(keys, w, b);
      assert out[..|out| - 1] == BucketStats(front, w, b);
      SumOnes(Members(w, BucketOf(b), k));
    }
  }

  lemma {:induction false} KilobitTotals(keys: seq<int>, w: seq<RequestRow>, b: int)
    requires b > 0
    ensures TotalKilobits(BucketStats(keys, w, b), b) == Kilobits(SumByKey(keys, w, BucketOf(b), BytesOf()))
  {
    hide BucketStatOf, BucketOf, Members, Sum, KilobitsOfBucket, Kilobits;
    if keys == [] {
      KilobitsAdd(0, 0);
    } else {
      var front, k := keys[..|keys| - 1], keys[|keys| - 1];
      KilobitTotals(front, w, b);
      var out := BucketStats(keys, w, b);
      assert out[..|out| - 1] == BucketStats(front, w, b);
      KilobitsOfStat(k, Members(w, BucketOf(b), k), b);
      KilobitsAdd(SumByKey(front, w, BucketOf(b), BytesOf()), Sum(Members(w, BucketOf(b), k), BytesOf()));
    }
  }

  lemma {:induction false} TtfbTotals(keys: seq<int>, w: seq<RequestRow>, b: int)
    requires b > 0
    ensures TotalTtfb(BucketStats(keys, w, b)) == SumByKey(keys, w, BucketOf(b), TtfbOf()) as real
  {
    hide BucketStatOf, BucketOf, Members, Sum, TtfbOfBucket;
    if keys != [] {
      var front, k := keys[..|keys| - 1], keys[|keys| - 1];
      TtfbTotals(front, w, b);
      var out := BucketStats(keys, w, b);
      assert out[..|out| - 1] == BucketStats(front, w, b);
      TtfbOfStat(k, Members(w, BucketOf(b), k), b);
    }
  }

  /** Every row of the window lies in exactly one bucket of the series, and no bucket is empty. */
  lemma SeriesPartitions(rows: seq<RequestRow>, since: int, bucketSecs: int)
    requires bucketSecs > 0
    ensures var out, key := SeriesSince(rows, since, bucketSecs), BucketOf(bucketSecs);
            && (forall i, j :: 0 <= i < j < |out| ==> out[i].ts < out[j].ts)
            && (forall i :: 0 <= i < |out| ==>
                  (IsMultiple(out[i].ts, bucketSecs)
                   && out[i].requests == |Members(Since(rows, since), key, out[i].ts)| > 0))
            && (forall r :: r in rows && r.ts >= since ==> exists i :: 0 <= i < |out| && out[i].ts == key(r))
  {
    var w, key := Since(rows, since), BucketOf(bucketSecs);
    var keys := Keys(w, key);
    KeysAreTheKeys(w, key);
    KeepFromMembers(rows, RequestTime(), since);
    forall k | k in keys
      ensures IsMultiple(k, bucketSecs) && Members(w, key, k) != []
    {
      var i :| 0 <= i < |w| && key(w[i]) == k;
      MemberOfItsGroup(w, key, i);
    }
    var out := SeriesSince(rows, since, bucketSecs);
    assert forall i :: 0 <= i < |out| ==> out[i].ts == keys[i];
    forall r | r in rows && r.ts >= since
      ensures exists i :: 0 <= i < |out| && out[i].ts == key(r)
    {
      var i :| 0 <= i < |w| && w[i] == r;
      assert key(r) in keys;
      var k :| 0 <= k < |keys| && keys[k] == key(r);
      assert out[k].ts == key(r);
    }
  }

  /** The series loses and invents nothing: requests, errors, kilobits and first-byte waits add up, over its buckets,
      to those of the window's statistics, for every table, window and bucket length. */
  lemma SeriesConservesStats(rows: seq<RequestRow>, since: int, bucketSecs: int, windowSecs: int)
    requires bucketSecs > 0 && windowSecs > 0
    ensures var out, stats := SeriesSince(rows, since, bucketSecs), StatsSince(rows, since, windowSecs);
            && TotalRequests(out) == stats.requests
            && TotalErrors(out) == stats.errors
            && TotalKilobits(out, bucketSecs) == stats.throughputKbps * windowSecs as real
            && TotalTtfb(out) == stats.ttfbMs * stats.requests as real
  {
    hide *;
    SeriesTotals(rows, since, bucketSecs);
    StatsTotals(rows, since, windowSecs);
  }

  lemma SeriesTotals(rows: seq<RequestRow>, since: int, bucketSecs: int)
    requires bucketSecs > 0
    ensures var out, w := SeriesSince(rows, since, bucketSecs), Since(rows, since);
            && TotalRequests(out) == |w|
            && TotalErrors(out) == Sum(w, IsError())
            && TotalKilobits(out, bucketSecs) == Kilobits(Sum(w, BytesOf()))
            && TotalTtfb(out) == Sum(w, TtfbOf()) as real
  {
    hide *;
    var w, key := Since(rows, since), BucketOf(bucketSecs);
    var keys := Keys(w, key);
    SeriesIs(rows, since, bucketSecs);
    KeysCover(w, key);
    CountTotals(keys, w, bucketSecs);
    KilobitTotals(keys, w, bucketSecs);
    TtfbTotals(keys, w, bucketSecs);
    GroupsConserve(keys, w, key, One());
    GroupsConserve(keys, w, key, IsError());
    GroupsConserve(keys, w, key, BytesOf());
    GroupsConserve(keys, w, key, TtfbOf());
    SumOnes(w);
  }

  lemma SeriesIs(rows: seq<RequestRow>, since: int, bucketSecs: int)
    requires bucketSecs > 0
    ensures SeriesSince(rows, since, bucketSecs)
         == BucketStats(Keys(Since(rows, since), BucketOf(bucketSecs)), Since(rows, since), bucketSecs)
  {
  }

  lemma StatsTotals(rows: seq<RequestRow>, since: int, windowSecs: int)
    requires windowSecs > 0
    ensures var stats, w := StatsSince(rows, since, windowSecs), Since(rows, since);
            && stats.requests == |w|
            && stats.errors == Sum(w, IsError())
            && stats.throughputKbps * windowSecs as real == Kilobits(Sum(w, BytesOf()))
            && stats.ttfbMs * stats.requests as real == Sum(w, TtfbOf()) as real
  {
    hide Sum, Since, Throughput, Average;
    var w := Since(rows, since);
    ThroughputTimesSecs(Sum(w, BytesOf()), windowSecs);
    EmptySum(w, TtfbOf());
    AverageTimesCount(Sum(w, TtfbOf()), |w|);
  }

  lemma EmptySum(w: seq<RequestRow>, f: RequestRow -> int)
    ensures w == [] ==> Sum(w, f) == 0
  {
  }

  lemma {:induction false} MemberOfItsGroup<T>(rows: seq<T>, key: T -> int, i: nat)
    requires i < |rows|
    ensures rows[i] in Members(rows, key, key(rows[i]))
  {
    if i < |rows| - 1 {
      MemberOfItsGroup(rows[..|rows| - 1], key, i);
    }
  }

  /** A row with a non-negative time lies within the bucket that counts it; one with a negative time at most a bucket
      length before that bucket's time, the division being truncated. */
  lemma RowInsideBucket(r: RequestRow, bucketSecs: int)
    requires bucketSecs > 0
    ensures r.ts >= 0 ==> BucketOf(bucketSecs)(r) <= r.ts < BucketOf(bucketSecs)(r) + bucketSecs
    ensures r.ts <= 0 ==> BucketOf(bucketSecs)(r) - bucketSecs < r.ts <= BucketOf(bucketSecs)(r)
  {
  }

  // ---- The statistics, row by row ----

  lemma StatsOfNone(since: int, windowSecs: int)
    requires windowSecs > 0
    ensures StatsSince([], since, windowSecs) == TimeWindowStats(0, 0.0, 0.0, 0, 0)
  {
  }

  /** A row before the window changes nothing. One in it adds a request, its bytes and its first-byte wait, and an error
      exactly when its status is 500 or more; the throughput is that of the bytes, in kilobits of 1024 bits. */
  lemma StatsOneMore(rows: seq<RequestRow>, r: RequestRow, since: int, windowSecs: int)
    requires windowSecs > 0
    ensures var a, b := StatsSince(rows, since, windowSecs), StatsSince(rows + [r], since, windowSecs);
            && (r.ts < since ==> b == a)
            && (r.ts >= since ==>
                  && b.requests == a.requests + 1 && b.bytes == a.bytes + r.bytes
                  && b.errors == (if r.status >= 500 then a.errors + 1 else a.errors)
                  && b.ttfbMs * b.requests as real == a.ttfbMs * a.requests as real + r.ttfbMs as real)
            && b.throughputKbps * windowSecs as real * 1024.0 == b.bytes as real * 8.0
  {
    hide Throughput, Average, Sum, KeepFrom;
    var w := Since(rows, since);
    KeepFromAppend(rows, r, RequestTime(), since);
    StatsTotals(rows, since, windowSecs);
    StatsTotals(rows + [r], since, windowSecs);
    if r.ts >= since {
      SumAppend(w, r, BytesOf());
      SumAppend(w, r, TtfbOf());
      SumAppend(w, r, IsError());
    } else {
      assert w + [] == w;
    }
  }

  /** Each bucket of the series says what the statistics of its rows say. */
  lemma BucketsAreStats(rows: seq<RequestRow>, since: int, bucketSecs: int, i: nat)
    requires bucketSecs > 0 && i < |SeriesSince(rows, since, bucketSecs)|
    ensures var b := SeriesSince(rows, since, bucketSecs)[i];
            var stats := StatsSince(Members(Since(rows, since), BucketOf(bucketSecs), b.ts), since, bucketSecs);
            && b.requests == stats.requests && b.errors == stats.errors
            && b.throughputKbps == stats.throughputKbps && b.ttfbMs == stats.ttfbMs
  {
    hide Throughput, Average, Sum, Keys, Members, BucketOf, KeepFrom;
    SeriesIs(rows, since, bucketSecs);
    var w, key := Since(rows, since), BucketOf(bucketSecs);
    var b := SeriesSince(rows, since, bucketSecs)[i];
    KeepFromMembers(rows, RequestTime(), since);
    MembersAreRows(w, key, b.ts);
    KeepFromAll(Members(w, key, b.ts), since);
  }

  lemma {:induction false} MembersAreRows<T>(rows: seq<T>, key: T -> int, k: int)
    ensures forall x :: x in Members(rows, key, k) <==> x in rows && key(x) == k
  {
    if rows != [] {
      MembersAreRows(rows[..|rows| - 1], key, k);
      assert rows == rows[..|rows| - 1] + [rows[|rows| - 1]];
    }
  }

  lemma {:induction false} KeepFromAll(rows: seq<RequestRow>, since: int)
    requires forall r :: r in rows ==> r.ts >= since
    ensures Since(rows, since) == rows
  {
    if rows != [] {
      KeepFromAll(rows[..|rows| - 1], since);
      assert rows == rows[..|rows| - 1] + [rows[|rows| - 1]];
    }
  }

  function CountOf(): StatusCount -> int {
    (c: StatusCount) => c.count
  }

  lemma {:induction false} CountsAddUp(keys: seq<int>, w: seq<RequestRow>)
    ensures Sum(CountsFor(keys, w), CountOf()) == SumByKey(keys, w, StatusOf(), One())
  {
    hide Members;
    if keys != [] {
      var front, k := keys[..|keys| - 1], keys[|keys| - 1];
      CountsAddUp(front, w);
      SumAppend(CountsFor(front, w), StatusCount(k, |Members(w, StatusOf(), k)|), CountOf());
      SumOnes(Members(w, StatusOf(), k));
    }
  }

  lemma SumSplit<T>(a: seq<T>, b: seq<T>, f: T -> int)
    ensures Sum(a + b, f) == Sum(a, f) + Sum(b, f)
    decreases |b|
  {
    if b == [] {
      assert a + b == a;
    } else {
      SumSplit(a, b[..|b| - 1], f);
      assert (a + b)[..|a + b| - 1] == a + b[..|b| - 1];
    }
  }

  lemma {:induction false} SumOfPermutation<T>(a: seq<T>, b: seq<T>, f: T -> int)
    requires multiset(a) == multiset(b)
    ensures Sum(a, f) == Sum(b, f)
    decreases |a|
  {
    if a == [] {
      EmptyPermutation(b);
    } else {
      var i := TakeOutLast(a, b);
      var l, r := b[..i], b[i + 1..];
      SumOfPermutation(a[..|a| - 1], l + r, f);
      SumSplit(l, r, f);
      SumSplit(l + [b[i]], r, f);
      SumAppend(l, b[i], f);
    }
  }

  /** Whatever order equal counts come in, the status counts add up to the window's requests; and such counts exist. */
  lemma StatusCountsConserve(rows: seq<RequestRow>, since: int, out: seq<StatusCount>)
    requires IsStatusCounts(out, rows, since)
    ensures Sum(out, CountOf()) == StatsSince(rows, since, 86400).requests
  {
    hide Sum, SumByKey, Keys, CountsFor, Descending, KeepFrom;
    var w := Since(rows, since);
    var keys := Keys(w, StatusOf());
    KeysCover(w, StatusOf());
    SumOfPermutation(out, CountsFor(keys, w), CountOf());
    CountsAddUp(keys, w);
    GroupsConserve(keys, w, StatusOf(), One());
    SumOnes(w);
  }

  /** The pairs shown are exactly the statuses that occur in the window, each with the number of its rows. */
  lemma StatusCountsExact(rows: seq<RequestRow>, since: int, out: seq<StatusCount>, c: StatusCount)
    requires IsStatusCounts(out, rows, since)
    ensures var w := Since(rows, since);
            c in out <==> Occurs(w, StatusOf(), c.status) && c.count == |Members(w, StatusOf(), c.status)|
  {
    hide Occurs, Members, Since;
    var w := Since(rows, since);
    SameElements(out, CountsFor(Keys(w, StatusOf()), w));
    CountsForMembers(Keys(w, StatusOf()), w, c);
    KeysAreTheKeys(w, StatusOf());
  }

  /** The most frequent status comes first. */
  lemma StatusCountsDescend(rows: seq<RequestRow>, since: int, out: seq<StatusCount>)
    requires IsStatusCounts(out, rows, since)
    ensures forall i, j :: 0 <= i < j < |out| ==> out[i].count >= out[j].count
  {
    hide CountsFor, Keys, Since;
    forall i, j | 0 <= i < j < |out|
      ensures out[i].count >= out[j].count
    {
      assert !Less(CountKey()(out[i]), CountKey()(out[j]));
    }
  }

  lemma {:induction false} CountsForMembers(keys: seq<int>, w: seq<RequestRow>, c: StatusCount)
    ensures c in CountsFor(keys, w) <==> c.status in keys && c.count == |Members(w, StatusOf(), c.status)|
  {
    hide Members;
    if keys != [] {
      var front, k := keys[..|keys| - 1], keys[|keys| - 1];
      CountsForMembers(front, w, c);
      assert keys == front + [k];
    }
  }

  lemma StatusCountsExist(rows: seq<RequestRow>, since: int) returns (out: seq<StatusCount>)
    ensures IsStatusCounts(out, rows, since)
  {
    var all := CountsFor(Keys(Since(rows, since), StatusOf()), Since(rows, since));
    out := SortDesc(all, CountKey());
    SortDescIsStableSort(all, CountKey());
  }

  // ---- Retention ----

  ghost predicate SameStatusCounts(a: seq<RequestRow>, b: seq<RequestRow>, since: int) {
    forall out :: IsStatusCounts(out, a, since) <==> IsStatusCounts(out, b, since)
  }

  /** With every cleanup's cutoff seven days before a clock reading not after now, all of the dashboard's windows
      show exactly what a log that never deletes would show. */
  lemma DashboardBlindToRetention(s: Store, cmds: seq<DbCommand>, now: int)
    requires forall c :: c in cmds && c.Cleanup? ==> c.cutoff <= now - 7 * 86400
    ensures var a, b := ExecuteAll(s, cmds).requests, ExecuteAll(s, WithoutCleanups(cmds)).requests;
            && StatsSince(a, now - 3600, 3600) == StatsSince(b, now - 3600, 3600)
            && StatsSince(a, now - 86400, 86400) == StatsSince(b, now - 86400, 86400)
            && SeriesSince(a, now - 3600, 60) == SeriesSince(b, now - 3600, 60)
            && SameStatusCounts(a, b, now - 86400)
            && RecentRequests(a, 50, Some(now - 3600)) == RecentRequests(b, 50, Some(now - 3600))
  {
    RetentionInvisible(s, cmds, now - 3600);
    RetentionInvisible(s, cmds, now - 86400);
  }
}
