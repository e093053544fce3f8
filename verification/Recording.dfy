/** Exactly-once accounting of a proxied request: the counting body stream, and the handler around it. */
module Recording {
  import opened Common
  import opened HostNames
  import opened Selectors
  import opened SelectorService
  import opened Retries
  import opened Log

  /** What the upstream body yields when polled; a chunk stands for its bytes. */
  datatype Poll = Chunk(data: seq<bv8>) | Broken(error: string) | End | Pending

  type Seconds = s: real | 0.0 <= s

  /** The readings a record takes: Unix seconds and the seconds since the request started. */
  datatype Clock = Clock(now: nat, elapsed: Seconds)

  datatype Polled = Polled(event: Poll, clock: Clock)

  datatype RequestMeta = RequestMeta(
    clientIp: string,
    host: string,
    path: string,
    verb: string,
    status: nat,
    upstreamIp: Option<IpAddr>,
    passthrough: bool,
    ttfbMs: nat)

  function RecordFor(meta: RequestMeta, bytes: nat, error: Option<string>, clock: Clock): RequestRecord {
    RequestRecord(clock.now, meta.clientIp, meta.host, meta.path, meta.verb, meta.status, bytes,
                  (clock.elapsed * 1000.0).Floor % U64_SPAN, meta.ttfbMs,
                  if clock.elapsed > 0.0 then bytes as real * 8.0 / 1024.0 / clock.elapsed else 0.0,
                  meta.upstreamIp, meta.passthrough, error)
  }

  // ---- What a record says, field by field ----

  /** Who asked for what. */
  predicate SaysRequest(rec: RequestRecord, clientIp: string, host: string, path: string, verb: string) {
    rec.clientIp == clientIp && rec.host == host && rec.path == path && rec.verb == verb && !rec.passthrough
  }

  /** What the upstream replied, how fast, and from which address. */
  predicate SaysReply(rec: RequestRecord, status: nat, chosen: Option<IpAddr>, ttfbMs: nat) {
    rec.status == status && rec.upstreamIp == chosen && rec.ttfbMs == ttfbMs
  }

  /** What was transferred, at which rate, how long it took and when it ended: whole milliseconds (in 64 bits), and
      kilobits of 1024 bits per second, or 0 when no time has passed. */
  predicate SaysTransfer(rec: RequestRecord, bytes: nat, error: Option<string>, clock: Clock) {
    && rec.bytes == bytes && rec.error == error && rec.ts == clock.now
    && (clock.elapsed * 1000.0 < U64_SPAN as real ==>
          rec.durationMs as real <= clock.elapsed * 1000.0 < rec.durationMs as real + 1.0)
    && (if clock.elapsed > 0.0 then rec.throughputKbps * clock.elapsed * 1024.0 == bytes as real * 8.0
        else rec.throughputKbps == 0.0)
  }

  lemma RecordSays(meta: RequestMeta, bytes: nat, error: Option<string>, clock: Clock)
    ensures var rec := RecordFor(meta, bytes, error, clock);
            && SaysTransfer(rec, bytes, error, clock) && SaysReply(rec, meta.status, meta.upstreamIp, meta.ttfbMs)
            && rec.passthrough == meta.passthrough
            && (!meta.passthrough ==> SaysRequest(rec, meta.clientIp, meta.host, meta.path, meta.verb))
  {
    if clock.elapsed > 0.0 {
      var kilobits := bytes as real * 8.0 / 1024.0;
      assert kilobits / clock.elapsed * clock.elapsed == kilobits;
    }
  }

  // ---- What one request should leave in the log ----

  predicate Terminal(p: Polled) {
    p.event.Broken? || p.event.End?
  }

  /** The polls before the first error or end. */
  function UntilTerminal(polls: seq<Polled>): (r: seq<Polled>)
    ensures r <= polls
    ensures forall i :: 0 <= i < |r| ==> !Terminal(r[i])
    ensures |r| < |polls| ==> Terminal(polls[|r|])
  {
    if polls == [] || Terminal(polls[0]) then [] else [polls[0]] + UntilTerminal(polls[1..])
  }

  function TotalBytes(polls: seq<Polled>): nat {
    if polls == [] then 0
    else
      var last := polls[|polls| - 1];
      TotalBytes(polls[..|polls| - 1]) + if last.event.Chunk? then |last.event.data| else 0
  }

  /** The one record of a body polled in this way and dropped at the end: the bytes before the first terminal event (a
      64-bit counter), that event's error or else the attempt loop's last one, and the clock of that event or of the
      drop. */
  function ExpectedRecord(meta: RequestMeta, lastErr: Option<string>, polls: seq<Polled>,
                          dropped: Clock): RequestRecord {
    var front := UntilTerminal(polls);
    var bytes := TotalBytes(front) % U64_SPAN;
    if |front| == |polls| then RecordFor(meta, bytes, lastErr, dropped)
    else
      var t := polls[|front|];
      RecordFor(meta, bytes, if t.event.Broken? then Some(t.event.error) else lastErr, t.clock)
  }

  // ---- The objects ----

  class RecordState {
    const channel: Channel
    const meta: RequestMeta
    var bytes: nat
    var recorded: bool
    var error: Option<string>

    constructor (channel: Channel, meta: RequestMeta, error: Option<string>)
      ensures this.channel == channel && this.meta == meta
      ensures bytes == 0 && !recorded && this.error == error
    {
      this.channel, this.meta := channel, meta;
      this.bytes, this.recorded, this.error := 0, false, error;
    }

    /** Sends the record the first time it is called and nothing afterwards. */
    method Finalize(clock: Clock)
      modifies this`recorded, channel
      ensures recorded
      ensures channel.sent
           == old(channel.sent) + if old(recorded) then [] else [InsertRequest(RecordFor(meta, bytes, error, clock))]
      ensures !old(recorded) ==>
                && |channel.sent| == |old(channel.sent)| + 1 && channel.sent[|old(channel.sent)|].InsertRequest?
                && var rec := channel.sent[|old(channel.sent)|].request;
                   SaysTransfer(rec, bytes, error, clock) && SaysReply(rec, meta.status, meta.upstreamIp, meta.ttfbMs)
    {
      hide RecordFor;
      RecordSays(meta, bytes, error, clock);
      if recorded {
        return;
      }
      recorded := true;
      channel.sent := channel.sent + [InsertRequest(RecordFor(meta, bytes, error, clock))];
    }
  }

  class CountingStream {
    const state: RecordState

    constructor (state: RecordState)
      ensures this.state == state
    {
      this.state := state;
    }

    /** Passes one poll of the inner stream through, counting chunks and recording at an error or the end. */
    method PollNext(inner: Polled) returns (out: Poll)
      modifies state, state.channel
      ensures out == inner.event
      ensures state.bytes
           == if inner.event.Chunk? then (old(state.bytes) + |inner.event.data|) % U64_SPAN else old(state.bytes)
      ensures state.error == if inner.event.Broken? then Some(inner.event.error) else old(state.error)
      ensures state.recorded == (old(state.recorded) || Terminal(inner))
      ensures state.channel.sent
           == old(state.channel.sent)
              + if old(state.recorded) || !Terminal(inner) then []
                else [InsertRequest(RecordFor(state.meta, state.bytes, state.error, inner.clock))]
    {
      match inner.event {
        case Chunk(data) =>
          state.bytes := (state.bytes + |data|) % U64_SPAN;
        case Broken(e) =>
          state.error := Some(e);
          state.Finalize(inner.clock);
        case End =>
          state.Finalize(inner.clock);
        case Pending =>
      }
      out := inner.event;
    }

    method Drop(clock: Clock)
      modifies state, state.channel
      ensures state.recorded && state.bytes == old(state.bytes) && state.error == old(state.error)
      ensures state.channel.sent
           == old(state.channel.sent)
              + if old(state.recorded) then []
                else [InsertRequest(RecordFor(state.meta, state.bytes, state.error, clock))]
    {
      state.Finalize(clock);
    }
  }

  /** Any consumer of the body: polls it in any way, past errors and ends included, then drops it. Whatever it does,
      exactly one record is sent, it is the expected one, and the consumer saw the inner stream unchanged. */
  method ConsumeBody(stream: CountingStream, polls: seq<Polled>, dropped: Clock) returns (seen: seq<Poll>)
    requires stream.state.bytes == 0 && !stream.state.recorded
    modifies stream.state, stream.state.channel
    ensures |seen| == |polls| && forall i :: 0 <= i < |polls| ==> seen[i] == polls[i].event
    ensures stream.state.channel.sent
         == old(stream.state.channel.sent)
            + [InsertRequest(ExpectedRecord(stream.state.meta, old(stream.state.error), polls, dropped))]
  {
    var state := stream.state;
    ghost var before, err := state.channel.sent, state.error;
    seen := [];
    var n := 0;
    while n < |polls|
      invariant n <= |polls| && |seen| == n
      invariant forall i :: 0 <= i < n ==> seen[i] == polls[i].event
      invariant !state.recorded ==>
                  state.channel.sent == before && state.error == err && state.bytes == TotalBytes(polls[..n]) % U64_SPAN
                  && forall i :: 0 <= i < n ==> !Terminal(polls[i])
      invariant state.recorded ==>
                  state.channel.sent == before + [InsertRequest(ExpectedRecord(state.meta, err, polls, dropped))]
    {
      if !state.recorded {
        UntilTerminalIs(polls, n);
        CountStep(polls, n);
      }
      var out := stream.PollNext(polls[n]);
      seen := seen + [out];
      n := n + 1;
    }
    if !state.recorded {
      UntilTerminalIs(polls, n);
      assert polls[..n] == polls;
    }
    stream.Drop(dropped);
  }

  lemma {:induction false} UntilTerminalIs(polls: seq<Polled>, n: nat)
    requires n <= |polls| && (forall i :: 0 <= i < n ==> !Terminal(polls[i]))
    ensures n == |polls| || Terminal(polls[n]) ==> UntilTerminal(polls) == polls[..n]
    decreases n
  {
    if n > 0 {
      UntilTerminalIs(polls[1..], n - 1);
      assert polls[..n] == [polls[0]] + polls[1..][..n - 1];
    }
  }

  lemma CountStep(polls: seq<Polled>, n: nat)
    requires n < |polls|
    ensures polls[n].event.Chunk? ==>
              (TotalBytes(polls[..n]) % U64_SPAN + |polls[n].event.data|) % U64_SPAN
              == TotalBytes(polls[..n + 1]) % U64_SPAN
    ensures !polls[n].event.Chunk? ==> TotalBytes(polls[..n + 1]) == TotalBytes(polls[..n])
  {
    assert polls[..n + 1][..n] == polls[..n];
  }

  // ---- The handler ----

  /** A request as it reaches the handler, with the outcomes of the library parsers. */
  datatype Request = Request(
    hostName: Option<string>,
    pathOk: bool,
    clientIp: string,
    path: string,
    verb: string)

  predicate Retryable(r: Request) {
    r.verb == "GET" || r.verb == "HEAD"
  }

  /** The request is accepted and its upstream URI can be formed. */
  predicate Admitted(s: Sel, r: Request) {
    r.hostName.Some? && HostFor(Defs(s.groups), r.hostName.value).Some? && r.pathOk
  }

  /** The handler ran to the end of its attempts and the code it then runs makes a record. */
  predicate Records(r: Request, p: Progress, script: seq<Attempt>)
    requires script != []
  {
    p.ended != Some(Dropped) && (Retryable(r) || script[0].buildError.None?)
  }

  /** The record of an admitted request, given how its attempts ended. */
  function RequestOutcome(r: Request, host: string, p: Progress, polls: seq<Polled>, finished: Clock): RequestRecord {
    match p.ended
    case Some(Responded(status, chosen, ttfbMs)) =>
      ExpectedRecord(RequestMeta(r.clientIp, host, r.path, r.verb, status, chosen, false, ttfbMs), p.lastErr, polls,
                     finished)
    case _ =>
      RecordFor(RequestMeta(r.clientIp, host, r.path, r.verb, 502, None, false, 0), 0, p.lastErr, finished)
  }

  /** What an admitted request is told: nothing when its handler is dropped. */
  function ToldStatus(p: Progress): Option<nat> {
    match p.ended
    case Some(Responded(status, _, _)) => Some(status)
    case Some(Dropped) => None
    case _ => Some(502)
  }

  /** What an admitted request adds to the log. */
  function Logged(r: Request, host: string, p: Progress, script: seq<Attempt>, polls: seq<Polled>,
                  finished: Clock): seq<DbCommand>
    requires script != []
  {
    if Records(r, p, script) then [InsertRequest(RequestOutcome(r, host, p, polls, finished))] else []
  }

  lemma {:induction false} EndIsNoFailure(host: string, s: Sel, script: seq<Attempt>, k: nat)
    requires k <= |script|
    ensures var p := After(host, s, script, k); p.ended.Some? ==> !p.ended.value.Failed?
  {
    hide BestIp, Run, Apply;
    if k > 0 {
      EndIsNoFailure(host, s, script, k - 1);
    }
  }

  lemma BuildFailureEnds(host: string, s: Sel, script: seq<Attempt>)
    requires |script| == 1 && script[0].buildError.Some?
    ensures TryAll(host, s, script).ended == None
  {
    hide BestIp, Run, Apply;
    assert After(host, s, script, 0) == Start(s);
  }

  /** The body was polled in this way and then dropped: n polls came before the first error or end, if there was one.
      The bytes are those of the chunks among them (in 64 bits), the error and the clock those of the event that ended
      it; when none did, the attempt loop's last error and the clock of the drop. */
  predicate BodyGave(polls: seq<Polled>, finished: Clock, lastErr: Option<string>, n: nat, bytes: nat,
                     error: Option<string>, clock: Clock)
  {
    && n <= |polls| && (forall i :: 0 <= i < n ==> !polls[i].event.Broken? && !polls[i].event.End?)
    && bytes == TotalBytes(polls[..n]) % U64_SPAN
    && (n == |polls| ==> error == lastErr && clock == finished)
    && (n < |polls| ==> clock == polls[n].clock)
    && (n < |polls| ==> match polls[n].event
                        case Broken(e) => error == Some(e)
                        case End => error == lastErr
                        case _ => false)
  }

  /** The command records a reply with this status, from this address, and what its body gave. */
  ghost predicate RecordsReply(cmd: DbCommand, r: Request, host: string, status: nat, chosen: Option<IpAddr>,
                               ttfbMs: nat, polls: seq<Polled>, finished: Clock, lastErr: Option<string>)
  {
    && cmd.InsertRequest? && SaysRequest(cmd.request, r.clientIp, host, r.path, r.verb)
    && SaysReply(cmd.request, status, chosen, ttfbMs)
    && exists n: nat, bytes: nat, error: Option<string>, clock: Clock ::
         BodyGave(polls, finished, lastErr, n, bytes, error, clock) && SaysTransfer(cmd.request, bytes, error, clock)
  }

  /** The command records that no reply came. */
  predicate RecordsNoReply(cmd: DbCommand, r: Request, host: string, finished: Clock, lastErr: Option<string>) {
    && cmd.InsertRequest? && SaysRequest(cmd.request, r.clientIp, host, r.path, r.verb)
    && SaysReply(cmd.request, 502, None, 0) && SaysTransfer(cmd.request, 0, lastErr, finished)
  }

  /** How a request is handled: what it is told, what it adds to the log and what it leaves in the selector. */
  ghost predicate Handled(r: Request, s: Sel, script: seq<Attempt>, polls: seq<Polled>, finished: Clock, after: Sel,
                          status: Option<nat>, added: seq<DbCommand>)
    requires script != []
  {
    if r.hostName.None? then status == Some(400) && added == [] && after == s
    else if HostFor(Defs(s.groups), r.hostName.value).None? then status == Some(404) && added == [] && after == s
    else if !r.pathOk then status == Some(400) && added == [] && after == s
    else
      var p := TryAll(r.hostName.value, s, script);
      && after == p.sel
      && match p.ended
         case Some(Dropped) => status == None && added == []
         case Some(Responded(code, chosen, ttfbMs)) =>
           && status == Some(code) && |added| == 1
           && RecordsReply(added[0], r, r.hostName.value, code, chosen, ttfbMs, polls, finished, p.lastErr)
         case _ =>
           && status == Some(502)
           && if r.verb != "GET" && r.verb != "HEAD" && script[0].buildError.Some? then added == []
              else |added| == 1 && RecordsNoReply(added[0], r, r.hostName.value, finished, p.lastErr)
  }

  lemma BodyRecord(r: Request, host: string, status: nat, chosen: Option<IpAddr>, ttfbMs: nat, polls: seq<Polled>,
                   finished: Clock, lastErr: Option<string>)
    ensures var meta := RequestMeta(r.clientIp, host, r.path, r.verb, status, chosen, false, ttfbMs);
            var cmd := InsertRequest(ExpectedRecord(meta, lastErr, polls, finished));
            RecordsReply(cmd, r, host, status, chosen, ttfbMs, polls, finished, lastErr)
  {
    hide RecordFor, SaysTransfer, SaysReply, SaysRequest, TotalBytes;
    var front := UntilTerminal(polls);
    var n, bytes := |front|, TotalBytes(front) % U64_SPAN;
    assert front == polls[..n];
    var meta := RequestMeta(r.clientIp, host, r.path, r.verb, status, chosen, false, ttfbMs);
    var error := if n < |polls| && polls[n].event.Broken? then Some(polls[n].event.error) else lastErr;
    var clock := if n < |polls| then polls[n].clock else finished;
    assert forall i :: 0 <= i < n ==> polls[i] == front[i];
    assert BodyGave(polls, finished, lastErr, n, bytes, error, clock);
    RecordSays(meta, bytes, error, clock);
  }

  lemma HandledAsLogged(r: Request, s: Sel, script: seq<Attempt>, polls: seq<Polled>, finished: Clock)
    requires script != [] && (!Retryable(r) ==> |script| == 1) && Admitted(s, r)
    ensures var p := TryAll(r.hostName.value, s, script);
            Handled(r, s, script, polls, finished, p.sel, ToldStatus(p),
                    Logged(r, r.hostName.value, p, script, polls, finished))
  {
    hide TryAll, ExpectedRecord, RecordFor, SaysTransfer, SaysReply, SaysRequest, RecordsReply;
    var host := r.hostName.value;
    var p := TryAll(host, s, script);
    NotFailed(host, s, script);
    match p.ended {
      case Some(Responded(status, chosen, ttfbMs)) =>
        BodyRecord(r, host, status, chosen, ttfbMs, polls, finished, p.lastErr);
        if !Retryable(r) && script[0].buildError.Some? {
          BuildFailureEnds(host, s, script);
        }
      case Some(Dropped) =>
      case Some(Failed(_)) => assert false;
      case None =>
        RecordSays(RequestMeta(r.clientIp, host, r.path, r.verb, 502, None, false, 0), 0, p.lastErr, finished);
    }
  }

  lemma NotFailed(host: string, s: Sel, script: seq<Attempt>)
    ensures var p := TryAll(host, s, script); p.ended.Some? ==> !p.ended.value.Failed?
  {
    EndIsNoFailure(host, s, script, |script|);
  }

  /** Runs one request to its end, the consumption of the reply's body included; status None means that no response
      was made. A request that is not admitted leaves no record. An admitted one leaves exactly one, with two
      exceptions that leave none: its handler is dropped during an attempt, or its method may not be retried and its
      upstream request cannot be built. */
  method HandleRequest(selector: Selector, channel: Channel, r: Request, script: seq<Attempt>, polls: seq<Polled>,
                       finished: Clock)
    returns (status: Option<nat>)
    requires |script| == if Retryable(r) then 3 else 1
    modifies selector`groups, channel
    ensures !Admitted(old(selector.State()), r) ==>
              && status == Some(if r.hostName.Some? && HostFor(Defs(old(selector.groups)), r.hostName.value).None?
                                then 404 else 400)
              && channel.sent == old(channel.sent) && selector.State() == old(selector.State())
    ensures Admitted(old(selector.State()), r) ==>
              var host := r.hostName.value;
              var p := TryAll(host, old(selector.State()), script);
              && selector.State() == p.sel && status == ToldStatus(p)
              && channel.sent == old(channel.sent) + Logged(r, host, p, script, polls, finished)
    ensures |old(channel.sent)| <= |channel.sent|
    ensures Handled(r, old(selector.State()), script, polls, finished, selector.State(), status,
                    channel.sent[|old(channel.sent)|..])
  {
    hide TryAll, HostFor, Logged, ToldStatus, RecordsReply, RecordsNoReply;
    if r.hostName.None? {
      return Some(400);
    }
    var host := r.hostName.value;
    if HostFor(Defs(selector.groups), host).None? {
      return Some(404);
    }
    if !r.pathOk {
      return Some(400);
    }
    HandledAsLogged(r, selector.State(), script, polls, finished);
    status := Serve(selector, channel, r, host, script, polls, finished);
    ghost var added := Logged(r, host, TryAll(host, old(selector.State()), script), script, polls, finished);
    assert (old(channel.sent) + added)[|old(channel.sent)|..] == added;
  }

  method Serve(selector: Selector, channel: Channel, r: Request, host: string, script: seq<Attempt>, polls: seq<Polled>,
               finished: Clock)
    returns (status: Option<nat>)
    requires |script| == if Retryable(r) then 3 else 1
    modifies selector`groups, channel
    ensures var p := TryAll(host, old(selector.State()), script);
            && selector.State() == p.sel && status == ToldStatus(p)
            && channel.sent == old(channel.sent) + Logged(r, host, p, script, polls, finished)
  {
    hide RequestOutcome, TryAll, After, Run, Apply, BestIp, LoopRan, FailedCalls;
    NotFailed(host, selector.State(), script);
    ghost var p := TryAll(host, selector.State(), script);
    var picks, lastErr, ended, attempts := AttemptLoop(selector, host, script);
    if ended == Some(Dropped) {
      return None;
    }
    if !Retryable(r) && script[0].buildError.Some? {
      BuildFailureEnds(host, old(selector.State()), script);
      return Some(502);
    }
    status := Answer(channel, r, host, ended, lastErr, polls, finished, p);
  }

  /** The end of the handler: sets up the record, then either hands the body to its consumer or finalizes at once. */
  method Answer(channel: Channel, r: Request, host: string, reply: Option<Outcome>, lastErr: Option<string>,
                polls: seq<Polled>, finished: Clock, ghost p: Progress)
    returns (status: Option<nat>)
    requires p.ended == reply && p.lastErr == lastErr && (reply.Some? ==> reply.value.Responded?)
    modifies channel
    ensures status == ToldStatus(p)
    ensures channel.sent == old(channel.sent) + [InsertRequest(RequestOutcome(r, host, p, polls, finished))]
  {
    hide ExpectedRecord, RecordFor;
    var sent := if reply.Some? then reply.value else Responded(502, None, 0);
    var meta := RequestMeta(r.clientIp, host, r.path, r.verb, sent.status, sent.chosen, false, sent.ttfbMs);
    var state := new RecordState(channel, meta, lastErr);
    if reply.Some? {
      var stream := new CountingStream(state);
      var _ := ConsumeBody(stream, polls, finished);
    } else {
      state.Finalize(finished);
    }
    return Some(sent.status);
  }
}
