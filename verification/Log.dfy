/** The record log: the writer thread's tables as a fold over its commands, and what retention may not change. */
module Log {
  import opened Common

  datatype RequestRecord = RequestRecord(
    ts: int,
    clientIp: string,
    host: string,
    path: string,
    verb: string,
    status: nat,
    bytes: nat,
    durationMs: nat,
    ttfbMs: nat,
    throughputKbps: real,
    upstreamIp: Option<IpAddr>,
    passthrough: bool,
    error: Option<string>)

  datatype SpeedTestRecord = SpeedTestRecord(
    ts: int,
    host: string,
    ip: IpAddr,
    latencyMs: Option<nat>,
    speedKbps: Option<real>,
    success: bool)

  datatype DbCommand =
    | InsertRequest(request: RequestRecord)
    | InsertSpeedTest(speedTest: SpeedTestRecord)
    | Cleanup(cutoff: int)

  /** A stored request: unsigned columns are kept as signed 64-bit values. */
  datatype RequestRow = RequestRow(
    id: nat,
    ts: int,
    clientIp: string,
    host: string,
    path: string,
    verb: string,
    status: int,
    bytes: int,
    durationMs: int,
    ttfbMs: int,
    throughputKbps: real,
    upstreamIp: Option<IpAddr>,
    passthrough: int,
    error: Option<string>)

  datatype SpeedTestRow = SpeedTestRow(
    id: nat,
    ts: int,
    host: string,
    ip: IpAddr,
    latencyMs: Option<int>,
    speedKbps: Option<real>,
    success: int)

  /** Both tables in insertion order, with the largest id each has ever handed out. */
  datatype Store = Store(
    requests: seq<RequestRow>,
    speedTests: seq<SpeedTestRow>,
    lastRequestId: nat,
    lastSpeedTestId: nat)

  /** `u64 as i64`. */
  function AsI64(v: nat): int {
    var w := v % U64_SPAN;
    if w < U64_SPAN / 2 then w else w - U64_SPAN
  }

  /** `i64 as u64`. */
  function AsU64(v: int): nat {
    v % U64_SPAN
  }

  function RowOf(id: nat, r: RequestRecord): RequestRow {
    RequestRow(id, r.ts, r.clientIp, r.host, r.path, r.verb, r.status, AsI64(r.bytes), AsI64(r.durationMs),
               AsI64(r.ttfbMs), r.throughputKbps, r.upstreamIp, if r.passthrough then 1 else 0, r.error)
  }

  function SpeedTestRowOf(id: nat, s: SpeedTestRecord): SpeedTestRow {
    SpeedTestRow(id, s.ts, s.host, s.ip, if s.latencyMs.Some? then Some(AsI64(s.latencyMs.value)) else None,
                 s.speedKbps, if s.success then 1 else 0)
  }

  /** What a row reads back as; the status is cut to 16 bits. */
  function RecordOf(row: RequestRow): RequestRecord {
    RequestRecord(row.ts, row.clientIp, row.host, row.path, row.verb, row.status % 0x1_0000, AsU64(row.bytes),
                  AsU64(row.durationMs), AsU64(row.ttfbMs), row.throughputKbps, row.upstreamIp,
                  row.passthrough != 0, row.error)
  }

  /** The values a record can hold in its machine widths. */
  predicate InWidth(r: RequestRecord) {
    r.status < 0x1_0000 && r.bytes < U64_SPAN && r.durationMs < U64_SPAN && r.ttfbMs < U64_SPAN
  }

  lemma SignedRoundTrip(v: nat)
    requires v < U64_SPAN
    ensures AsU64(AsI64(v)) == v
  {
  }

  /** A stored request reads back unchanged, whatever the top bits of its counters. */
  lemma RecordRoundTrip(id: nat, r: RequestRecord)
    requires InWidth(r)
    ensures RecordOf(RowOf(id, r)) == r
  {
    SignedRoundTrip(r.bytes);
    SignedRoundTrip(r.durationMs);
    SignedRoundTrip(r.ttfbMs);
  }

  /** What a speed-test row reads back as. */
  function SpeedTestOf(row: SpeedTestRow): SpeedTestRecord {
    SpeedTestRecord(row.ts, row.host, row.ip, if row.latencyMs.Some? then Some(AsU64(row.latencyMs.value)) else None,
                    row.speedKbps, row.success != 0)
  }

  predicate SpeedTestInWidth(t: SpeedTestRecord) {
    t.latencyMs.Some? ==> t.latencyMs.value < U64_SPAN
  }

  lemma SpeedTestRoundTrip(id: nat, t: SpeedTestRecord)
    requires SpeedTestInWidth(t)
    ensures SpeedTestOf(SpeedTestRowOf(id, t)) == t
  {
    if t.latencyMs.Some? {
      SignedRoundTrip(t.latencyMs.value);
    }
  }

  /** The columns that the queries read hold the record's values; the counters as long as they fit in 63 bits. */
  lemma ColumnsHold(id: nat, r: RequestRecord)
    ensures var row := RowOf(id, r);
            && row.id == id && row.ts == r.ts && row.status == r.status
            && (r.bytes < U64_SPAN / 2 ==> row.bytes == r.bytes)
            && (r.durationMs < U64_SPAN / 2 ==> row.durationMs == r.durationMs)
            && (r.ttfbMs < U64_SPAN / 2 ==> row.ttfbMs == r.ttfbMs)
  {
  }

  /** The rows not older than the cutoff, in order. */
  function KeepFrom<T>(rows: seq<T>, when: T -> int, cutoff: int): seq<T> {
    if rows == [] then []
    else
      var last := rows[|rows| - 1];
      KeepFrom(rows[..|rows| - 1], when, cutoff) + if when(last) >= cutoff then [last] else []
  }

  function RequestTime(): RequestRow -> int {
    (r: RequestRow) => r.ts
  }

  function SpeedTestTime(): SpeedTestRow -> int {
    (r: SpeedTestRow) => r.ts
  }

  function Execute(s: Store, c: DbCommand): Store {
    match c
    case InsertRequest(r) =>
      s.(requests := s.requests + [RowOf(s.lastRequestId + 1, r)], lastRequestId := s.lastRequestId + 1)
    case InsertSpeedTest(t) =>
      s.(speedTests := s.speedTests + [SpeedTestRowOf(s.lastSpeedTestId + 1, t)],
         lastSpeedTestId := s.lastSpeedTestId + 1)
    case Cleanup(cutoff) =>
      s.(requests := KeepFrom(s.requests, RequestTime(), cutoff),
         speedTests := KeepFrom(s.speedTests, SpeedTestTime(), cutoff))
  }

  function ExecuteAll(s: Store, cmds: seq<DbCommand>): Store {
    if cmds == [] then s else Execute(ExecuteAll(s, cmds[..|cmds| - 1]), cmds[|cmds| - 1])
  }

  /** The commands a log that never deletes would receive. */
  function WithoutCleanups(cmds: seq<DbCommand>): seq<DbCommand> {
    if cmds == [] then []
    else WithoutCleanups(cmds[..|cmds| - 1]) + if cmds[|cmds| - 1].Cleanup? then [] else [cmds[|cmds| - 1]]
  }

  /** The sending side of the writer thread's channel. */
  class Channel {
    var sent: seq<DbCommand>

    constructor ()
      ensures sent == []
    {
      sent := [];
    }
  }

  /** The writer thread's connection. */
  class Writer {
    var requests: seq<RequestRow>
    var speedTests: seq<SpeedTestRow>
    var lastRequestId: nat
    var lastSpeedTestId: nat

    ghost function Tables(): Store
      reads this
    {
      Store(requests, speedTests, lastRequestId, lastSpeedTestId)
    }

    constructor ()
      ensures Tables() == Store([], [], 0, 0)
    {
      requests, speedTests, lastRequestId, lastSpeedTestId := [], [], 0, 0;
    }

    /** Consumes the commands in the order received, until the channel closes. */
    method WriterLoop(received: seq<DbCommand>)
      modifies this
      ensures Tables() == ExecuteAll(old(Tables()), received)
    {
      var n := 0;
      while n < |received|
        invariant n <= |received|
        invariant Tables() == ExecuteAll(old(Tables()), received[..n])
      {
        assert received[..n + 1][..n] == received[..n];
        match received[n] {
          case InsertRequest(r) =>
            lastRequestId := lastRequestId + 1;
            requests := requests + [RowOf(lastRequestId, r)];
          case InsertSpeedTest(t) =>
            lastSpeedTestId := lastSpeedTestId + 1;
            speedTests := speedTests + [SpeedTestRowOf(lastSpeedTestId, t)];
          case Cleanup(cutoff) =>
            requests := KeepFrom(requests, RequestTime(), cutoff);
            speedTests := KeepFrom(speedTests, SpeedTestTime(), cutoff);
        }
        n := n + 1;
      }
      assert received[..n] == received;
    }
  }

  // ---- Ids ----

  ghost predicate IdsIncrease(rows: seq<RequestRow>, last: nat) {
    && (forall i, j :: 0 <= i < j < |rows| ==> rows[i].id < rows[j].id)
    && (forall i :: 0 <= i < |rows| ==> rows[i].id <= last)
  }

  lemma {:induction false} KeepFromMembers<T>(rows: seq<T>, when: T -> int, cutoff: int)
    ensures forall x :: x in KeepFrom(rows, when, cutoff) <==> x in rows && when(x) >= cutoff
  {
    if rows != [] {
      KeepFromMembers(rows[..|rows| - 1], when, cutoff);
      assert rows == rows[..|rows| - 1] + [rows[|rows| - 1]];
    }
  }

  lemma {:induction false} KeepFromIds(rows: seq<RequestRow>, cutoff: int, last: nat)
    requires IdsIncrease(rows, last)
    ensures IdsIncrease(KeepFrom(rows, RequestTime(), cutoff), last)
  {
    if rows != [] {
      var init, r := rows[..|rows| - 1], rows[|rows| - 1];
      KeepFromIds(init, cutoff, last);
      KeepFromMembers(init, RequestTime(), cutoff);
      var kept := KeepFrom(init, RequestTime(), cutoff);
      forall i | 0 <= i < |kept|
        ensures kept[i].id < r.id
      {
        assert kept[i] in init;
      }
    }
  }

  /** Ids increase in table order over every run, deletions included, so newest-first by id is reverse insertion
      order. */
  lemma {:induction false} IdsIncreaseOverRuns(s: Store, cmds: seq<DbCommand>)
    requires IdsIncrease(s.requests, s.lastRequestId)
    ensures IdsIncrease(ExecuteAll(s, cmds).requests, ExecuteAll(s, cmds).lastRequestId)
  {
    if cmds != [] {
      var init, c := cmds[..|cmds| - 1], cmds[|cmds| - 1];
      IdsIncreaseOverRuns(s, init);
      if c.Cleanup? {
        KeepFromIds(ExecuteAll(s, init).requests, c.cutoff, ExecuteAll(s, init).lastRequestId);
      }
    }
  }

  // ---- Retention ----

  lemma {:induction false} KeepFromAgain<T>(rows: seq<T>, when: T -> int, cutoff: int, since: int)
    requires cutoff <= since
    ensures KeepFrom(KeepFrom(rows, when, cutoff), when, since) == KeepFrom(rows, when, since)
  {
    if rows != [] {
      var init, last := rows[..|rows| - 1], rows[|rows| - 1];
      KeepFromAgain(init, when, cutoff, since);
      var kept := KeepFrom(init, when, cutoff);
      if when(last) >= cutoff {
        KeepFromAppend(kept, last, when, since);
      } else {
        assert kept + [] == kept;
      }
    }
  }

  lemma KeepFromAppend<T>(rows: seq<T>, x: T, when: T -> int, since: int)
    ensures KeepFrom(rows + [x], when, since) == KeepFrom(rows, when, since) + if when(x) >= since then [x] else []
  {
    assert (rows + [x])[..|rows|] == rows;
  }

  /** The windows from `since` on, and the id counters, are the same in both stores. */
  ghost predicate SameWindow(a: Store, b: Store, since: int) {
    && KeepFrom(a.requests, RequestTime(), since) == KeepFrom(b.requests, RequestTime(), since)
    && KeepFrom(a.speedTests, SpeedTestTime(), since) == KeepFrom(b.speedTests, SpeedTestTime(), since)
    && a.lastRequestId == b.lastRequestId && a.lastSpeedTestId == b.lastSpeedTestId
  }

  lemma InsertKeepsSameWindow(a: Store, b: Store, since: int, c: DbCommand)
    requires SameWindow(a, b, since) && !c.Cleanup?
    ensures SameWindow(Execute(a, c), Execute(b, c), since)
  {
    hide KeepFrom, RowOf, SpeedTestRowOf;
    match c {
      case InsertRequest(r) =>
        KeepFromAppend(a.requests, RowOf(a.lastRequestId + 1, r), RequestTime(), since);
        KeepFromAppend(b.requests, RowOf(a.lastRequestId + 1, r), RequestTime(), since);
      case InsertSpeedTest(t) =>
        KeepFromAppend(a.speedTests, SpeedTestRowOf(a.lastSpeedTestId + 1, t), SpeedTestTime(), since);
        KeepFromAppend(b.speedTests, SpeedTestRowOf(a.lastSpeedTestId + 1, t), SpeedTestTime(), since);
    }
  }

  lemma CleanupKeepsSameWindow(a: Store, b: Store, since: int, cutoff: int)
    requires SameWindow(a, b, since) && cutoff <= since
    ensures SameWindow(Execute(a, Cleanup(cutoff)), b, since)
  {
    KeepFromAgain(a.requests, RequestTime(), cutoff, since);
    KeepFromAgain(a.speedTests, SpeedTestTime(), cutoff, since);
  }

  /** For every command sequence whose cleanups stay behind the window, the window's rows, ids included, are those of a
      log that never deletes. */
  lemma {:induction false} RetentionInvisible(s: Store, cmds: seq<DbCommand>, since: int)
    requires forall c :: c in cmds && c.Cleanup? ==> c.cutoff <= since
    ensures SameWindow(ExecuteAll(s, cmds), ExecuteAll(s, WithoutCleanups(cmds)), since)
  {
    if cmds != [] {
      var init, c := cmds[..|cmds| - 1], cmds[|cmds| - 1];
      assert c in cmds && forall d :: d in init ==> d in cmds;
      RetentionInvisible(s, init, since);
      var a, b := ExecuteAll(s, init), ExecuteAll(s, WithoutCleanups(init));
      if c.Cleanup? {
        CleanupKeepsSameWindow(a, b, since, c.cutoff);
        assert WithoutCleanups(init) + [] == WithoutCleanups(init);
      } else {
        InsertKeepsSameWindow(a, b, since, c);
        assert (WithoutCleanups(init) + [c])[..|WithoutCleanups(init)|] == WithoutCleanups(init);
      }
    }
  }

  // ---- What the tables hold ----

  /** The requests inserted, in order. */
  function RequestsIn(cmds: seq<DbCommand>): seq<RequestRecord> {
    if cmds == [] then []
    else
      var last := cmds[|cmds| - 1];
      RequestsIn(cmds[..|cmds| - 1]) + if last.InsertRequest? then [last.request] else []
  }

  /** The speed tests inserted, in order. */
  function SpeedTestsIn(cmds: seq<DbCommand>): seq<SpeedTestRecord> {
    if cmds == [] then []
    else
      var last := cmds[|cmds| - 1];
      SpeedTestsIn(cmds[..|cmds| - 1]) + if last.InsertSpeedTest? then [last.speedTest] else []
  }

  /** No cleanup from position n on has a cutoff above this time. */
  predicate Survives(cmds: seq<DbCommand>, n: nat, ts: int) {
    forall j :: n <= j < |cmds| && cmds[j].Cleanup? ==> cmds[j].cutoff <= ts
  }

  lemma SurvivesOneMore(cmds: seq<DbCommand>, n: nat, ts: int)
    requires cmds != []
    ensures n < |cmds| ==>
              (Survives(cmds, n, ts) <==>
                 Survives(cmds[..|cmds| - 1], n, ts)
                 && (cmds[|cmds| - 1].Cleanup? ==> cmds[|cmds| - 1].cutoff <= ts))
    ensures n >= |cmds| ==> Survives(cmds, n, ts)
  {
    var init := cmds[..|cmds| - 1];
    assert forall j :: 0 <= j < |init| ==> init[j] == cmds[j];
  }

  /** The row stands under this id and reads back as this record. */
  predicate RowReadsBack(row: RequestRow, id: int, record: RequestRecord) {
    row.id == id && RecordOf(row) == record
  }

  /** The table grew by these records, in order, under consecutive ids from the counter on, each reading back as it
      was. */
  ghost predicate GrewBy(before: seq<RequestRow>, after: seq<RequestRow>, last: nat, records: seq<RequestRecord>) {
    && |after| == |before| + |records| && before <= after
    && forall k :: 0 <= k < |records| ==> RowReadsBack(after[|before| + k], last + 1 + k, records[k])
  }

  predicate SpeedTestRowReadsBack(row: SpeedTestRow, id: int, record: SpeedTestRecord) {
    row.id == id && SpeedTestOf(row) == record
  }

  ghost predicate SpeedTestsGrewBy(before: seq<SpeedTestRow>, after: seq<SpeedTestRow>, last: nat,
                                   records: seq<SpeedTestRecord>)
  {
    && |after| == |before| + |records| && before <= after
    && forall k :: 0 <= k < |records| ==> SpeedTestRowReadsBack(after[|before| + k], last + 1 + k, records[k])
  }

  lemma GrewByOneMore(before: seq<RequestRow>, after: seq<RequestRow>, last: nat, records: seq<RequestRecord>,
                      r: RequestRecord)
    requires GrewBy(before, after, last, records) && InWidth(r)
    ensures GrewBy(before, after + [RowOf(last + |records| + 1, r)], last, records + [r])
  {
    hide RowOf, RecordOf, RowReadsBack;
    var row := RowOf(last + |records| + 1, r);
    assert RowReadsBack(row, last + 1 + |records|, r) by {
      RequestReadsBack(last + |records| + 1, r);
    }
    var all, more := after + [row], records + [r];
    forall k | 0 <= k < |more|
      ensures RowReadsBack(all[|before| + k], last + 1 + k, more[k])
    {
      if k < |records| {
        assert more[k] == records[k];
      }
    }
  }

  lemma RequestReadsBack(id: nat, r: RequestRecord)
    requires InWidth(r)
    ensures RowReadsBack(RowOf(id, r), id, r)
  {
    RecordRoundTrip(id, r);
  }

  lemma SpeedTestsGrewByOneMore(before: seq<SpeedTestRow>, after: seq<SpeedTestRow>, last: nat,
                                records: seq<SpeedTestRecord>, r: SpeedTestRecord)
    requires SpeedTestsGrewBy(before, after, last, records) && SpeedTestInWidth(r)
    ensures SpeedTestsGrewBy(before, after + [SpeedTestRowOf(last + |records| + 1, r)], last, records + [r])
  {
    hide SpeedTestRowOf, SpeedTestOf, SpeedTestRowReadsBack;
    var row := SpeedTestRowOf(last + |records| + 1, r);
    assert SpeedTestRowReadsBack(row, last + 1 + |records|, r) by {
      SpeedTestReadsBack(last + |records| + 1, r);
    }
    var all, more := after + [row], records + [r];
    forall k | 0 <= k < |more|
      ensures SpeedTestRowReadsBack(all[|before| + k], last + 1 + k, more[k])
    {
      if k < |records| {
        assert more[k] == records[k];
      }
    }
  }

  lemma SpeedTestReadsBack(id: nat, r: SpeedTestRecord)
    requires SpeedTestInWidth(r)
    ensures SpeedTestRowReadsBack(SpeedTestRowOf(id, r), id, r)
  {
    SpeedTestRoundTrip(id, r);
  }

  predicate OnlyInserts(cmds: seq<DbCommand>) {
    forall i :: 0 <= i < |cmds| ==>
      match cmds[i]
      case InsertRequest(r) => InWidth(r)
      case InsertSpeedTest(t) => SpeedTestInWidth(t)
      case Cleanup(_) => false
  }

  /** Without cleanups both tables grow by exactly the inserted records, in order, with consecutive ids, each reading
      back as inserted. */
  lemma {:induction false} ReadsBackInOrder(s: Store, cmds: seq<DbCommand>)
    requires OnlyInserts(cmds)
    ensures var t := ExecuteAll(s, cmds);
            && GrewBy(s.requests, t.requests, s.lastRequestId, RequestsIn(cmds))
            && t.lastRequestId == s.lastRequestId + |RequestsIn(cmds)|
            && SpeedTestsGrewBy(s.speedTests, t.speedTests, s.lastSpeedTestId, SpeedTestsIn(cmds))
            && t.lastSpeedTestId == s.lastSpeedTestId + |SpeedTestsIn(cmds)|
  {
    hide RowOf, SpeedTestRowOf, GrewBy, SpeedTestsGrewBy, InWidth, SpeedTestInWidth;
    if cmds == [] {
      GrewByNone(s);
    } else {
      var init, c := cmds[..|cmds| - 1], cmds[|cmds| - 1];
      ReadsBackInOrder(s, init);
      var u := ExecuteAll(s, init);
      match c {
        case InsertRequest(r) =>
          GrewByOneMore(s.requests, u.requests, s.lastRequestId, RequestsIn(init), r);
          assert SpeedTestsIn(cmds) == SpeedTestsIn(init);
        case InsertSpeedTest(st) =>
          SpeedTestsGrewByOneMore(s.speedTests, u.speedTests, s.lastSpeedTestId, SpeedTestsIn(init), st);
          assert RequestsIn(cmds) == RequestsIn(init);
      }
    }
  }

  lemma GrewByNone(s: Store)
    ensures GrewBy(s.requests, s.requests, s.lastRequestId, [])
    ensures SpeedTestsGrewBy(s.speedTests, s.speedTests, s.lastSpeedTestId, [])
  {
  }

  /** The i-th command inserted this row, under the id that the counter then yields. */
  predicate InsertedRequest(s: Store, cmds: seq<DbCommand>, i: nat, row: RequestRow) {
    && i < |cmds| && cmds[i].InsertRequest?
    && row == RowOf(s.lastRequestId + |RequestsIn(cmds[..i])| + 1, cmds[i].request)
  }

  predicate InsertedSpeedTest(s: Store, cmds: seq<DbCommand>, i: nat, row: SpeedTestRow) {
    && i < |cmds| && cmds[i].InsertSpeedTest?
    && row == SpeedTestRowOf(s.lastSpeedTestId + |SpeedTestsIn(cmds[..i])| + 1, cmds[i].speedTest)
  }

  /** The row was there, or was inserted, and no cleanup since has a cutoff above its time. */
  ghost predicate RequestKept(s: Store, cmds: seq<DbCommand>, row: RequestRow) {
    || (row in s.requests && Survives(cmds, 0, row.ts))
    || exists i: nat :: InsertedRequest(s, cmds, i, row) && Survives(cmds, i + 1, row.ts)
  }

  ghost predicate SpeedTestKept(s: Store, cmds: seq<DbCommand>, row: SpeedTestRow) {
    || (row in s.speedTests && Survives(cmds, 0, row.ts))
    || exists i: nat :: InsertedSpeedTest(s, cmds, i, row) && Survives(cmds, i + 1, row.ts)
  }

  lemma RequestKeptBefore(s: Store, cmds: seq<DbCommand>, row: RequestRow)
    requires cmds != [] && RequestKept(s, cmds, row)
    ensures var n := |cmds| - 1;
            || (RequestKept(s, cmds[..n], row) && (cmds[n].Cleanup? ==> cmds[n].cutoff <= row.ts))
            || InsertedRequest(s, cmds, n, row)
  {
    hide RowOf, Survives;
    var n := |cmds| - 1;
    if row in s.requests && Survives(cmds, 0, row.ts) {
      SurvivesOneMore(cmds, 0, row.ts);
    } else {
      var i: nat :| InsertedRequest(s, cmds, i, row) && Survives(cmds, i + 1, row.ts);
      if i < n {
        SurvivesOneMore(cmds, i + 1, row.ts);
        assert cmds[..n][..i] == cmds[..i];
        assert InsertedRequest(s, cmds[..n], i, row);
      }
    }
  }

  lemma RequestKeptAfter(s: Store, cmds: seq<DbCommand>, row: RequestRow)
    requires cmds != []
    requires var n := |cmds| - 1;
             || (RequestKept(s, cmds[..n], row) && (cmds[n].Cleanup? ==> cmds[n].cutoff <= row.ts))
             || InsertedRequest(s, cmds, n, row)
    ensures RequestKept(s, cmds, row)
  {
    hide RowOf, Survives;
    var n := |cmds| - 1;
    if InsertedRequest(s, cmds, n, row) {
      SurvivesOneMore(cmds, n + 1, row.ts);
    } else if row in s.requests && Survives(cmds[..n], 0, row.ts) {
      SurvivesOneMore(cmds, 0, row.ts);
    } else {
      var i: nat :| InsertedRequest(s, cmds[..n], i, row) && Survives(cmds[..n], i + 1, row.ts);
      SurvivesOneMore(cmds, i + 1, row.ts);
      assert cmds[..n][..i] == cmds[..i];
      assert InsertedRequest(s, cmds, i, row);
    }
  }

  lemma SpeedTestKeptBefore(s: Store, cmds: seq<DbCommand>, row: SpeedTestRow)
    requires cmds != [] && SpeedTestKept(s, cmds, row)
    ensures var n := |cmds| - 1;
            || (SpeedTestKept(s, cmds[..n], row) && (cmds[n].Cleanup? ==> cmds[n].cutoff <= row.ts))
            || InsertedSpeedTest(s, cmds, n, row)
  {
    hide SpeedTestRowOf, Survives;
    var n := |cmds| - 1;
    if row in s.speedTests && Survives(cmds, 0, row.ts) {
      SurvivesOneMore(cmds, 0, row.ts);
    } else {
      var i: nat :| InsertedSpeedTest(s, cmds, i, row) && Survives(cmds, i + 1, row.ts);
      if i < n {
        SurvivesOneMore(cmds, i + 1, row.ts);
        assert cmds[..n][..i] == cmds[..i];
        assert InsertedSpeedTest(s, cmds[..n], i, row);
      }
    }
  }

  lemma SpeedTestKeptAfter(s: Store, cmds: seq<DbCommand>, row: SpeedTestRow)
    requires cmds != []
    requires var n := |cmds| - 1;
             || (SpeedTestKept(s, cmds[..n], row) && (cmds[n].Cleanup? ==> cmds[n].cutoff <= row.ts))
             || InsertedSpeedTest(s, cmds, n, row)
    ensures SpeedTestKept(s, cmds, row)
  {
    hide SpeedTestRowOf, Survives;
    var n := |cmds| - 1;
    if InsertedSpeedTest(s, cmds, n, row) {
      SurvivesOneMore(cmds, n + 1, row.ts);
    } else if row in s.speedTests && Survives(cmds[..n], 0, row.ts) {
      SurvivesOneMore(cmds, 0, row.ts);
    } else {
      var i: nat :| InsertedSpeedTest(s, cmds[..n], i, row) && Survives(cmds[..n], i + 1, row.ts);
      SurvivesOneMore(cmds, i + 1, row.ts);
      assert cmds[..n][..i] == cmds[..i];
      assert InsertedSpeedTest(s, cmds, i, row);
    }
  }

  /** A request row is there if and only if it was there or was inserted, and no later cleanup has a cutoff above its
      time: a cleanup deletes what is older and nothing else. */
  lemma {:induction false} RequestsExactly(s: Store, cmds: seq<DbCommand>, row: RequestRow)
    ensures row in ExecuteAll(s, cmds).requests <==> RequestKept(s, cmds, row)
    ensures ExecuteAll(s, cmds).lastRequestId == s.lastRequestId + |RequestsIn(cmds)|
  {
    hide RequestKept, RowOf, KeepFrom;
    if cmds == [] {
      RequestKeptAtStart(s, row);
    } else {
      var n := |cmds| - 1;
      RequestsExactly(s, cmds[..n], row);
      if RequestKept(s, cmds, row) {
        RequestKeptBefore(s, cmds, row);
      } else if RequestKept(s, cmds[..n], row) && (cmds[n].Cleanup? ==> cmds[n].cutoff <= row.ts) {
        RequestKeptAfter(s, cmds, row);
      } else if InsertedRequest(s, cmds, n, row) {
        RequestKeptAfter(s, cmds, row);
      }
      if cmds[n].Cleanup? {
        KeepFromMembers(ExecuteAll(s, cmds[..n]).requests, RequestTime(), cmds[n].cutoff);
      }
    }
  }

  lemma RequestKeptAtStart(s: Store, row: RequestRow)
    ensures RequestKept(s, [], row) <==> row in s.requests
  {
  }

  /** And so it is for speed-test rows. */
  lemma {:induction false} SpeedTestsExactly(s: Store, cmds: seq<DbCommand>, row: SpeedTestRow)
    ensures row in ExecuteAll(s, cmds).speedTests <==> SpeedTestKept(s, cmds, row)
    ensures ExecuteAll(s, cmds).lastSpeedTestId == s.lastSpeedTestId + |SpeedTestsIn(cmds)|
  {
    hide SpeedTestKept, SpeedTestRowOf, KeepFrom;
    if cmds == [] {
      SpeedTestKeptAtStart(s, row);
    } else {
      var n := |cmds| - 1;
      SpeedTestsExactly(s, cmds[..n], row);
      if SpeedTestKept(s, cmds, row) {
        SpeedTestKeptBefore(s, cmds, row);
      } else if SpeedTestKept(s, cmds[..n], row) && (cmds[n].Cleanup? ==> cmds[n].cutoff <= row.ts) {
        SpeedTestKeptAfter(s, cmds, row);
      } else if InsertedSpeedTest(s, cmds, n, row) {
        SpeedTestKeptAfter(s, cmds, row);
      }
      if cmds[n].Cleanup? {
        KeepFromMembers(ExecuteAll(s, cmds[..n]).speedTests, SpeedTestTime(), cmds[n].cutoff);
      }
    }
  }

  lemma SpeedTestKeptAtStart(s: Store, row: SpeedTestRow)
    ensures SpeedTestKept(s, [], row) <==> row in s.speedTests
  {
  }
}
