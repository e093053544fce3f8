/** The upstream attempt loop of one proxy request, interleaved with any other calls on the selector. */
module Retries {
  import opened Common
  import opened Candidates
  import opened Selectors
  import opened SelectorRuns
  import opened SelectorService

  /** How an attempt went: the upstream replied within the header timeout (the reply carries the address actually used),
      the attempt failed, or the client went away and the handler was dropped while it waited. */
  datatype Outcome = Responded(status: nat, chosen: Option<IpAddr>, ttfbMs: nat) | Failed(error: string) | Dropped

  /** One attempt as the environment plays it: other selector calls before the pick, the clock at the pick, whether the
      request could be built, the outcome, other calls while it was awaited, the clock when a failure is marked. */
  datatype Attempt = Attempt(
    before: seq<Op>,
    pickAt: nat,
    buildError: Option<string>,
    outcome: Outcome,
    during: seq<Op>,
    markAt: nat)

  /** The loop's variables together with the selector state; ended is the reply or the drop that ended it. */
  datatype Progress = Progress(
    sel: Sel,
    picks: seq<Option<IpAddr>>,
    lastErr: Option<string>,
    ended: Option<Outcome>,
    stopped: bool)

  function Start(s: Sel): Progress {
    Progress(s, [], None, None, false)
  }

  function MarkFailed(s: Sel, host: string, ip: Option<IpAddr>, at: nat): (r: Sel)
    ensures |r.groups| == |s.groups|
  {
    if ip.Some? then Apply(s, Report(host, ip.value, Event(at, None, None, false))) else s
  }

  /** The rest of one attempt after the pick. */
  function Continue(host: string, p: Progress, seen: Sel, ip: Option<IpAddr>, a: Attempt): (r: Progress)
    ensures |r.sel.groups| == |seen.groups|
  {
    if a.buildError.Some? then
      Progress(seen, p.picks + [ip], a.buildError, p.ended, true)
    else
      var later := Run(seen, a.during);
      match a.outcome
      case Failed(e) => Progress(MarkFailed(later, host, ip, a.markAt), p.picks + [ip], Some(e), p.ended, false)
      case _ => Progress(later, p.picks + [ip], p.lastErr, Some(a.outcome), true)
  }

  function Try(host: string, p: Progress, a: Attempt): (r: Progress)
    ensures |r.sel.groups| == |p.sel.groups|
  {
    if p.stopped then p
    else
      var seen := Run(p.sel, a.before);
      Continue(host, p, seen, BestIp(seen, host, a.pickAt), a)
  }

  /** The loop's variables after its first k passes (a pass after the loop stopped changes nothing). */
  function After(host: string, s: Sel, script: seq<Attempt>, k: nat): (r: Progress)
    requires k <= |script|
    ensures |r.sel.groups| == |s.groups|
  {
    if k == 0 then Start(s) else Try(host, After(host, s, script, k - 1), script[k - 1])
  }

  function TryAll(host: string, s: Sel, script: seq<Attempt>): Progress {
    After(host, s, script, |script|)
  }

  /** The selector as the k-th pick (from 0) sees it. */
  function SeenAt(host: string, s: Sel, script: seq<Attempt>, k: nat): (r: Sel)
    requires k < |script|
    ensures |r.groups| == |s.groups|
  {
    Run(After(host, s, script, k).sel, script[k].before)
  }

  /** One pass through the loop's body; the ghost argument is what was picked before. */
  method AttemptOnce(selector: Selector, host: string, a: Attempt, err: Option<string>,
                     ghost picks: seq<Option<IpAddr>>)
    returns (ip: Option<IpAddr>, lastErr: Option<string>, ended: Option<Outcome>, stopped: bool)
    modifies selector`groups
    ensures Progress(selector.State(), picks + [ip], lastErr, ended, stopped)
         == Try(host, Progress(old(selector.State()), picks, err, None, false), a)
    ensures !stopped ==> ended.None?
  {
    Interfere(selector, a.before);
    ip := selector.PickIp(host, a.pickAt);
    lastErr, ended, stopped := err, None, false;
    if a.buildError.Some? {
      lastErr, stopped := a.buildError, true;
    } else {
      Interfere(selector, a.during);
      match a.outcome {
        case Failed(e) =>
          lastErr := Some(e);
          if ip.Some? {
            selector.MarkFailure(host, ip.value, a.markAt);
          }
        case _ =>
          ended, stopped := Some(a.outcome), true;
      }
    }
  }

  /** The loop: up to |script| attempts (three for GET and HEAD, else one), stopping at the first reply, drop or build
      error. */
  method AttemptLoop(selector: Selector, host: string, script: seq<Attempt>)
    returns (picks: seq<Option<IpAddr>>, lastErr: Option<string>, ended: Option<Outcome>, attempts: nat)
    modifies selector`groups
    ensures var p := TryAll(host, old(selector.State()), script);
            && selector.State() == p.sel && picks == p.picks && lastErr == p.lastErr && ended == p.ended
            && attempts == |p.picks|
    ensures LoopRan(host, old(selector.State()), script, LeadingFailures(script), selector.State(), picks, lastErr,
                    ended)
  {
    hide BestIp, Run, Apply, Continue, LoopRan;
    ghost var s := selector.State();
    picks, lastErr, ended, attempts := [], None, None, 0;
    var stopped := false;
    while attempts < |script| && !stopped
      invariant attempts <= |script|
      invariant After(host, s, script, attempts) == Progress(selector.State(), picks, lastErr, ended, stopped)
      invariant |picks| == attempts && (!stopped ==> ended.None?)
      decreases |script| - attempts, !stopped
    {
      var ip;
      ip, lastErr, ended, stopped := AttemptOnce(selector, host, script[attempts], lastErr, picks);
      picks := picks + [ip];
      attempts := attempts + 1;
    }
    StoppedStays(host, s, script, attempts, |script|);
    LeadingFailuresLead(script);
    LoopOutcome(host, s, script, LeadingFailures(script));
  }

  lemma {:induction false} StoppedStays(host: string, s: Sel, script: seq<Attempt>, k: nat, n: nat)
    requires k <= n <= |script| && (After(host, s, script, k).stopped || k == n)
    ensures After(host, s, script, n) == After(host, s, script, k)
    decreases n
  {
    hide BestIp, Run, Apply, Continue;
    if k < n {
      StoppedStays(host, s, script, k, n - 1);
    }
  }

  predicate PlainFailure(a: Attempt) {
    a.buildError.None? && a.outcome.Failed?
  }

  /** The number of plain failures before the first attempt that is none. */
  function LeadingFailures(script: seq<Attempt>): nat {
    if script == [] || !PlainFailure(script[0]) then 0 else 1 + LeadingFailures(script[1..])
  }

  lemma {:induction false} LeadingFailuresLead(script: seq<Attempt>)
    ensures var n := LeadingFailures(script);
            && n <= |script| && (forall i :: 0 <= i < n ==> PlainFailure(script[i]))
            && (n < |script| ==> !PlainFailure(script[n]))
  {
    if script != [] && PlainFailure(script[0]) {
      LeadingFailuresLead(script[1..]);
      assert forall i :: 0 < i < |script| ==> script[i] == script[1..][i - 1];
    }
  }

  /** The selector calls of attempts that plainly failed: for each, other tasks' calls, and a failure report for its
      pick, without latency or speed, at the time of the mark; none if it picked nothing. */
  function FailedCalls(host: string, script: seq<Attempt>, picks: seq<Option<IpAddr>>): seq<Op>
    requires |picks| <= |script|
  {
    if picks == [] then []
    else
      var k := |picks| - 1;
      FailedCalls(host, script, picks[..k]) + script[k].before + script[k].during
      + if picks[k].Some? then [Report(host, picks[k].value, Event(script[k].markAt, None, None, false))] else []
  }

  /** With n leading plain failures: one attempt more is made if the script has one. It adds other tasks' calls and
      nothing else to what the failures left in the selector, and ends the loop with its outcome if it was built.
      Every pick is the best address in the state that the calls before it left. The error kept is that of the last
      failure, or the build error. */
  ghost predicate LoopRan(host: string, s: Sel, script: seq<Attempt>, n: nat, after: Sel, picks: seq<Option<IpAddr>>,
                          lastErr: Option<string>, ended: Option<Outcome>)
  {
    && n <= |script| && (forall i :: 0 <= i < n ==> script[i].buildError.None? && script[i].outcome.Failed?)
    && |picks| == (if n < |script| then n + 1 else n)
    && (n == |script| ==> after == Run(s, FailedCalls(host, script, picks)) && ended == None)
    && (n < |script| ==>
          var a, failed := script[n], FailedCalls(host, script, picks[..n]);
          && !(a.buildError.None? && a.outcome.Failed?)
          && after == Run(s, failed + a.before + if a.buildError.None? then a.during else [])
          && ended == (if a.buildError.None? then Some(a.outcome) else None))
    && lastErr == (if n < |script| && script[n].buildError.Some? then script[n].buildError
                   else if n > 0 then Some(script[n - 1].outcome.error) else None)
    && forall k :: 0 <= k < |picks| ==>
         picks[k] == BestIp(Run(s, FailedCalls(host, script, picks[..k]) + script[k].before), host, script[k].pickAt)
  }

  lemma {:induction false} LoopOutcome(host: string, s: Sel, script: seq<Attempt>, n: nat)
    requires n <= |script| && (forall i :: 0 <= i < n ==> PlainFailure(script[i]))
    requires n < |script| ==> !PlainFailure(script[n])
    ensures var p := TryAll(host, s, script);
            LoopRan(host, s, script, n, p.sel, p.picks, p.lastErr, p.ended)
  {
    hide BestIp, Run, Apply, FailedCalls;
    FailuresGoOn(host, s, script, n);
    if n < |script| {
      LastAttempt(host, s, script, n);
      StoppedStays(host, s, script, n + 1, |script|);
    } else {
      assert TryAll(host, s, script).picks[..n] == TryAll(host, s, script).picks;
    }
  }

  /** The picks of failed attempts, and the selector they leave. */
  lemma {:induction false} FailuresGoOn(host: string, s: Sel, script: seq<Attempt>, n: nat)
    requires n <= |script| && (forall i :: 0 <= i < n ==> PlainFailure(script[i]))
    ensures var p := After(host, s, script, n);
            && !p.stopped && |p.picks| == n && p.ended == None
            && p.lastErr == (if n > 0 then Some(script[n - 1].outcome.error) else None)
            && p.sel == Run(s, FailedCalls(host, script, p.picks))
            && PicksBest(host, s, script, p.picks)
  {
    hide BestIp, Run, Apply, FailedCalls;
    if n == 0 {
      NoFailedCalls(host, s, script);
    } else {
      FailuresGoOn(host, s, script, n - 1);
      var p, q, a := After(host, s, script, n - 1), After(host, s, script, n), script[n - 1];
      assert q.picks[..n - 1] == p.picks;
      PickFollows(host, s, script, p.picks, q.picks[n - 1]);
      FailureLeaves(host, s, script, p.picks, q.picks[n - 1]);
    }
  }

  ghost predicate PicksBest(host: string, s: Sel, script: seq<Attempt>, picks: seq<Option<IpAddr>>) {
    |picks| <= |script|
    && forall k :: 0 <= k < |picks| ==>
         picks[k] == BestIp(Run(s, FailedCalls(host, script, picks[..k]) + script[k].before), host, script[k].pickAt)
  }

  lemma NoFailedCalls(host: string, s: Sel, script: seq<Attempt>)
    ensures Run(s, FailedCalls(host, script, [])) == s
  {
  }

  lemma PickFollows(host: string, s: Sel, script: seq<Attempt>, picks: seq<Option<IpAddr>>, ip: Option<IpAddr>)
    requires |picks| < |script| && PicksBest(host, s, script, picks)
    requires ip == BestIp(Run(Run(s, FailedCalls(host, script, picks)), script[|picks|].before), host,
                          script[|picks|].pickAt)
    ensures PicksBest(host, s, script, picks + [ip])
  {
    hide BestIp, Run, FailedCalls;
    var all := picks + [ip];
    RunAppend(s, FailedCalls(host, script, picks), script[|picks|].before);
    assert all[..|picks|] == picks;
    assert forall k :: 0 <= k < |picks| ==> all[..k] == picks[..k];
  }

  lemma FailureLeaves(host: string, s: Sel, script: seq<Attempt>, picks: seq<Option<IpAddr>>, ip: Option<IpAddr>)
    requires |picks| < |script|
    ensures var a := script[|picks|];
            Run(s, FailedCalls(host, script, picks + [ip]))
            == MarkFailed(Run(Run(Run(s, FailedCalls(host, script, picks)), a.before), a.during), host, ip, a.markAt)
  {
    hide BestIp, Run, Apply;
    var a, calls := script[|picks|], FailedCalls(host, script, picks);
    assert (picks + [ip])[..|picks|] == picks;
    RunAppend(s, calls, a.before);
    RunAppend(s, calls + a.before, a.during);
    if ip.Some? {
      var op := Report(host, ip.value, Event(a.markAt, None, None, false));
      RunAppend(s, calls + a.before + a.during, [op]);
      ApplyIsRun(Run(s, calls + a.before + a.during), op);
    } else {
      assert calls + a.before + a.during + [] == calls + a.before + a.during;
    }
  }

  /** The attempt after n plain failures leaves to the selector no more than other tasks' calls. */
  lemma LastAttempt(host: string, s: Sel, script: seq<Attempt>, n: nat)
    requires n < |script| && (forall i :: 0 <= i < n ==> PlainFailure(script[i])) && !PlainFailure(script[n])
    ensures var p, a := After(host, s, script, n + 1), script[n];
            && p.stopped && |p.picks| == n + 1
            && p.sel == Run(s, FailedCalls(host, script, p.picks[..n]) + a.before
                               + if a.buildError.None? then a.during else [])
            && p.ended == (if a.buildError.None? then Some(a.outcome) else None)
            && p.lastErr == (if a.buildError.Some? then a.buildError
                             else if n > 0 && script[n - 1].outcome.Failed?
                             then Some(script[n - 1].outcome.error) else None)
            && PicksBest(host, s, script, p.picks)
  {
    hide BestIp, Run, Apply, FailedCalls, PicksBest;
    FailuresGoOn(host, s, script, n);
    var p, q, a := After(host, s, script, n), After(host, s, script, n + 1), script[n];
    assert q.picks[..n] == p.picks;
    PickFollows(host, s, script, p.picks, q.picks[n]);
    var calls := FailedCalls(host, script, p.picks);
    RunAppend(s, calls, a.before);
    RunAppend(s, calls + a.before, a.during);
    assert calls + a.before + [] == calls + a.before;
  }

  /** In particular a reply, or a drop, at once leaves the selector to other tasks' calls. */
  lemma AnsweredAtOnce(host: string, s: Sel, script: seq<Attempt>)
    requires script != [] && script[0].buildError.None? && !script[0].outcome.Failed?
    ensures TryAll(host, s, script).sel == Run(Run(s, script[0].before), script[0].during)
    ensures TryAll(host, s, script).ended == Some(script[0].outcome) && TryAll(host, s, script).lastErr == None
  {
    hide BestIp, Run, Apply;
    LoopOutcome(host, s, script, 0);
    var p := TryAll(host, s, script);
    assert p.picks[..0] == [] && FailedCalls(host, script, []) == [];
    assert [] + script[0].before + script[0].during == script[0].before + script[0].during;
    RunAppend(s, script[0].before, script[0].during);
  }

  // ---- Distinct addresses over the attempts ----

  /** The clock never runs backwards; an attempt takes at most timeout seconds, so at most timeout + 1 as the difference
      of two whole-second readings; marking a failure and picking again are at most gap seconds apart. */
  ghost predicate WellTimed(script: seq<Attempt>, timeout: nat, gap: nat) {
    && (forall i :: 0 <= i < |script| ==> script[i].pickAt <= script[i].markAt <= script[i].pickAt + timeout + 1)
    && (forall i :: 0 < i < |script| ==>
          script[i - 1].markAt <= script[i].pickAt <= script[i - 1].markAt + gap)
  }

  /** No call of other tasks re-pins group g, and none dates a failure in g before the attempt it falls in. */
  ghost predicate Undisturbed(s: Sel, g: nat, script: seq<Attempt>) {
    forall i :: 0 <= i < |script| ==>
      (forall op :: op in script[i].before ==> Harmless(s, g, op, if i == 0 then 0 else script[i - 1].markAt))
      && (forall op :: op in script[i].during ==> Harmless(s, g, op, script[i].pickAt))
  }

  predicate Harmless(s: Sel, g: nat, op: Op, t: nat) {
    !Resets(s, op, g) && (op.Report? && Reaches(s, op, g) && !op.event.success ==> op.event.at >= t)
  }

  /** The definitions, bundled lists and penalty, which no call changes. */
  ghost predicate SameTable(s: Sel, t: Sel) {
    && Defs(t.groups) == Defs(s.groups) && t.penalty == s.penalty && |t.groups| == |s.groups|
    && forall g: nat :: g < |s.groups| ==> t.groups[g].bundled == s.groups[g].bundled
  }

  lemma SameTableRefl(s: Sel)
    ensures SameTable(s, s)
  {
  }

  lemma RunSameTable(s: Sel, t: Sel, ops: seq<Op>)
    requires SameTable(s, t) && Valid(t)
    ensures SameTable(s, Run(t, ops)) && Valid(Run(t, ops))
  {
    RunFrame(t, ops);
    RunValid(t, ops);
  }

  lemma MarkSameTable(s: Sel, t: Sel, host: string, ip: Option<IpAddr>, at: nat)
    requires SameTable(s, t) && Valid(t)
    ensures SameTable(s, MarkFailed(t, host, ip, at)) && Valid(MarkFailed(t, host, ip, at))
  {
    if ip.Some? {
      var op := Report(host, ip.value, Event(at, None, None, false));
      ApplyIsRun(t, op);
      RunSameTable(s, t, [op]);
    }
  }

  lemma ContinueSameTable(host: string, s: Sel, p: Progress, seen: Sel, ip: Option<IpAddr>, a: Attempt)
    requires SameTable(s, seen) && Valid(seen)
    ensures SameTable(s, Continue(host, p, seen, ip, a).sel) && Valid(Continue(host, p, seen, ip, a).sel)
  {
    RunSameTable(s, seen, a.during);
    MarkSameTable(s, Run(seen, a.during), host, ip, a.markAt);
  }

  lemma {:induction false} AfterFrame(host: string, s: Sel, script: seq<Attempt>, k: nat)
    requires Valid(s) && k <= |script|
    ensures SameTable(s, After(host, s, script, k).sel) && Valid(After(host, s, script, k).sel)
  {
    hide BestIp, Run, Apply, Continue, SameTable, Valid;
    SameTableRefl(s);
    if k > 0 {
      var a, p := script[k - 1], After(host, s, script, k - 1);
      AfterFrame(host, s, script, k - 1);
      RunSameTable(s, p.sel, a.before);
      var seen := Run(p.sel, a.before);
      ContinueSameTable(host, s, p, seen, BestIp(seen, host, a.pickAt), a);
    }
  }

  lemma ApplyIsRun(s: Sel, op: Op)
    ensures Run(s, [op]) == Apply(s, op)
  {
    assert [op][..0] == [];
  }

  /** Without a re-pin of the group its address list stays. */
  lemma {:induction false} AddressesStay(s: Sel, ops: seq<Op>, g: nat)
    requires g < |s.groups| && forall op :: op in ops ==> !Resets(s, op, g)
    ensures Ips(Run(s, ops).groups[g].cands) == Ips(s.groups[g].cands)
  {
    if ops != [] {
      var init, op := ops[..|ops| - 1], ops[|ops| - 1];
      assert op in ops && forall o :: o in init ==> o in ops;
      AddressesStay(s, init, g);
      RunFrame(s, init);
      ReachesFrame(s, Run(s, init), op, g);
      ApplyFrame(Run(s, init), op);
      if op.Report? {
        UpdateFirstAt(Run(s, init).groups[g].cands, op.ip, op.event, s.penalty);
      }
    }
  }

  lemma PickIsAnAddress(s: Sel, host: string, g: nat, now: nat)
    requires Find(s, host) == Some(g) && BestIp(s, host, now).Some?
    ensures BestIp(s, host, now).value in Ips(s.groups[g].cands)
  {
    RoutedWithinGroup(s, host, g, now);
  }

  lemma HarmlessKeepsFailures(s: Sel, t: Sel, g: nat, ops: seq<Op>, ip: IpAddr, from: nat, since: nat)
    requires SameTable(s, t) && g < |s.groups|
    requires forall op :: op in ops ==> Harmless(s, g, op, from)
    requires since <= from
    ensures forall op :: op in ops ==> KeepsFailure(t, op, g, ip, since)
  {
    forall op | op in ops
      ensures KeepsFailure(t, op, g, ip, since)
    {
      ReachesFrame(s, t, op, g);
    }
  }

  /** The attempt that fails on an address leaves that failure in the selector. */
  lemma NewFailureRecorded(host: string, s: Sel, g: nat, p: Progress, seen: Sel, ip: IpAddr, a: Attempt)
    requires SameTable(s, seen) && Valid(seen) && Find(s, host) == Some(g)
    requires ip in Ips(seen.groups[g].cands) && PlainFailure(a)
    requires forall op :: op in a.during ==> Harmless(s, g, op, a.pickAt)
    ensures FailedSince(Continue(host, p, seen, Some(ip), a).sel, g, ip, a.markAt)
  {
    RunSameTable(s, seen, a.during);
    HarmlessKeepsFailures(s, seen, g, a.during, ip, a.pickAt, 0);
    AddressesStay(seen, a.during, g);
    FailureRecorded(Run(seen, a.during), g, host, ip, Event(a.markAt, None, None, false));
  }

  /** A further attempt keeps a failure that was there when it picked. */
  lemma OldFailureKept(host: string, s: Sel, g: nat, p: Progress, seen: Sel, ip: Option<IpAddr>, a: Attempt,
                       old_ip: IpAddr, t: nat)
    requires SameTable(s, seen) && Valid(seen) && Find(s, host) == Some(g)
    requires FailedSince(seen, g, old_ip, t) && PlainFailure(a) && t <= a.pickAt <= a.markAt
    requires forall op :: op in a.during ==> Harmless(s, g, op, a.pickAt)
    ensures FailedSince(Continue(host, p, seen, ip, a).sel, g, old_ip, t)
  {
    HarmlessKeepsFailures(s, seen, g, a.during, old_ip, a.pickAt, t);
    FailurePersists(seen, a.during, g, old_ip, t);
    RunSameTable(s, seen, a.during);
    if ip.Some? {
      var op := Report(host, ip.value, Event(a.markAt, None, None, false));
      FailurePersists(Run(seen, a.during), [op], g, old_ip, t);
      ApplyIsRun(Run(seen, a.during), op);
    }
  }

  lemma SeenSameTable(host: string, s: Sel, script: seq<Attempt>, k: nat)
    requires Valid(s) && k < |script|
    ensures SameTable(s, SeenAt(host, s, script, k)) && Valid(SeenAt(host, s, script, k))
  {
    AfterFrame(host, s, script, k);
    RunSameTable(s, After(host, s, script, k).sel, script[k].before);
  }

  /** Attempt k, having failed, leaves its own failure in the selector. */
  lemma OwnFailureRecorded(host: string, s: Sel, g: nat, script: seq<Attempt>, k: nat)
    requires Valid(s) && Find(s, host) == Some(g) && Undisturbed(s, g, script)
    requires k < |script| && !After(host, s, script, k + 1).stopped && PickAt(host, s, script, k).Some?
    ensures FailedSince(After(host, s, script, k + 1).sel, g, PickAt(host, s, script, k).value, script[k].markAt)
  {
    SeenSameTable(host, s, script, k);
    StepTaken(host, s, script, k);
    PickIsAnAddress(SeenAt(host, s, script, k), host, g, script[k].pickAt);
    NewFailureRecorded(host, s, g, After(host, s, script, k), SeenAt(host, s, script, k),
                       PickAt(host, s, script, k).value, script[k]);
  }

  /** Attempt k keeps a failure its pick could see. */
  lemma SeenFailureKept(host: string, s: Sel, g: nat, script: seq<Attempt>, k: nat, ip: IpAddr, t: nat)
    requires Valid(s) && Find(s, host) == Some(g) && Undisturbed(s, g, script)
    requires k < |script| && !After(host, s, script, k + 1).stopped
    requires FailedSince(SeenAt(host, s, script, k), g, ip, t) && t <= script[k].pickAt <= script[k].markAt
    ensures FailedSince(After(host, s, script, k + 1).sel, g, ip, t)
  {
    SeenSameTable(host, s, script, k);
    StepTaken(host, s, script, k);
    OldFailureKept(host, s, g, After(host, s, script, k), SeenAt(host, s, script, k),
                   PickAt(host, s, script, k), script[k], ip, t);
  }

  /** What is recorded before attempt k > 0 is there when it picks. */
  lemma RecordedFailureSeen(host: string, s: Sel, g: nat, script: seq<Attempt>, k: nat, ip: IpAddr, t: nat)
    requires Valid(s) && Find(s, host) == Some(g) && Undisturbed(s, g, script)
    requires 0 < k < |script| && t <= script[k - 1].markAt
    requires FailedSince(After(host, s, script, k).sel, g, ip, t)
    ensures FailedSince(SeenAt(host, s, script, k), g, ip, t)
  {
    AfterFrame(host, s, script, k);
    HarmlessKeepsFailures(s, After(host, s, script, k).sel, g, script[k].before, ip, script[k - 1].markAt, t);
    FailurePersists(After(host, s, script, k).sel, script[k].before, g, ip, t);
  }

  /** Once an attempt fails on an address, the pick of every later attempt still sees that failure. */
  lemma {:induction false} FailureSeenLater(host: string, s: Sel, g: nat, script: seq<Attempt>, timeout: nat,
                                            gap: nat, j: nat, k: nat)
    requires Valid(s) && Find(s, host) == Some(g)
    requires WellTimed(script, timeout, gap) && Undisturbed(s, g, script)
    requires j < k < |script| && !After(host, s, script, k).stopped && PickAt(host, s, script, j).Some?
    ensures FailedSince(SeenAt(host, s, script, k), g, PickAt(host, s, script, j).value, script[j].markAt)
    decreases k
  {
    hide *;
    var ip, t := PickAt(host, s, script, j).value, script[j].markAt;
    if j == k - 1 {
      OwnFailureRecorded(host, s, g, script, j);
    } else {
      StepTaken(host, s, script, k - 1);
      FailureSeenLater(host, s, g, script, timeout, gap, j, k - 1);
      MarksOrdered(script, timeout, gap, j, k - 2);
      MarkBeforePick(script, timeout, gap, k - 1);
      SeenFailureKept(host, s, g, script, k - 1, ip, t);
    }
    MarksOrdered(script, timeout, gap, j, k - 1);
    RecordedFailureSeen(host, s, g, script, k, ip, t);
  }

  lemma {:induction false} PicksAre(host: string, s: Sel, script: seq<Attempt>, j: nat, k: nat)
    requires j < k <= |script| && !After(host, s, script, k).stopped
    ensures |After(host, s, script, k).picks| == k && After(host, s, script, k).picks[j] == PickAt(host, s, script, j)
    decreases k
  {
    hide *;
    PicksCounted(host, s, script, k);
    StepTaken(host, s, script, k - 1);
    PicksCounted(host, s, script, k - 1);
    if j < k - 1 {
      PicksAre(host, s, script, j, k - 1);
    }
  }

  lemma {:induction false} PicksCounted(host: string, s: Sel, script: seq<Attempt>, k: nat)
    requires k <= |script| && !After(host, s, script, k).stopped
    ensures |After(host, s, script, k).picks| == k
  {
    hide SeenAt, BestIp, Run, Apply, Try, Continue;
    if k > 0 {
      StepTaken(host, s, script, k - 1);
      PicksCounted(host, s, script, k - 1);
    }
  }

  function PickAt(host: string, s: Sel, script: seq<Attempt>, k: nat): Option<IpAddr>
    requires k < |script|
  {
    BestIp(SeenAt(host, s, script, k), host, script[k].pickAt)
  }

  /** When the loop is still going after attempt k, that attempt was made and plainly failed. */
  lemma StepTaken(host: string, s: Sel, script: seq<Attempt>, k: nat)
    requires k < |script| && !After(host, s, script, k + 1).stopped
    ensures !After(host, s, script, k).stopped && PlainFailure(script[k])
    ensures After(host, s, script, k + 1)
         == Continue(host, After(host, s, script, k), SeenAt(host, s, script, k), PickAt(host, s, script, k), script[k])
    ensures After(host, s, script, k + 1).picks == After(host, s, script, k).picks + [PickAt(host, s, script, k)]
  {
    hide BestIp, Run, Apply;
  }

  lemma {:induction false} MarksOrdered(script: seq<Attempt>, timeout: nat, gap: nat, j: nat, k: nat)
    requires WellTimed(script, timeout, gap) && j <= k < |script|
    ensures script[j].markAt <= script[k].markAt
  {
    if j < k {
      MarksOrdered(script, timeout, gap, j, k - 1);
    }
  }

  lemma MarkBeforePick(script: seq<Attempt>, timeout: nat, gap: nat, k: nat)
    requires WellTimed(script, timeout, gap) && 0 < k < |script|
    ensures script[k - 1].pickAt <= script[k - 1].markAt <= script[k].pickAt <= script[k].markAt
  {
  }

  /** How long after the mark of attempt j the pick of attempt k can be. */
  lemma {:induction false} PickSoonAfterMark(script: seq<Attempt>, timeout: nat, gap: nat, j: nat, k: nat)
    requires WellTimed(script, timeout, gap) && j < k < |script|
    ensures script[k].pickAt <= script[j].markAt + (k - j) * gap + (k - j - 1) * (timeout + 1)
  {
    if j + 1 < k {
      PickSoonAfterMark(script, timeout, gap, j, k - 1);
      assert (k - j) * gap == (k - 1 - j) * gap + gap;
      assert (k - j - 1) * (timeout + 1) == (k - j - 2) * (timeout + 1) + (timeout + 1);
    }
  }

  /** The attempts fit in the penalty window. */
  predicate Fits(n: nat, timeout: nat, gap: nat, penalty: nat) {
    n < 2 || (n - 1) * gap + (n - 2) * (timeout + 1) <= penalty
  }

  lemma MulMono(a: nat, b: nat, c: nat)
    requires a <= b
    ensures a * c <= b * c
  {
  }

  /** Every attempt that sees a healthy candidate picks an address none of this request's earlier attempts failed on,
      whatever other tasks report meanwhile, successes of the failed addresses included. */
  lemma RetryPicksNewAddress(host: string, s: Sel, g: nat, script: seq<Attempt>, timeout: nat, gap: nat, j: nat, k: nat)
    requires Valid(s) && Find(s, host) == Some(g)
    requires WellTimed(script, timeout, gap) && Undisturbed(s, g, script)
    requires Fits(|script|, timeout, gap, s.penalty)
    requires j < k < |script| && !After(host, s, script, k).stopped
    ensures Healthy(SeenAt(host, s, script, k).groups[g].cands, script[k].pickAt, s.penalty) != [] ==>
              PickAt(host, s, script, k).Some? && PickAt(host, s, script, k) != PickAt(host, s, script, j)
  {
    var seen, now := SeenAt(host, s, script, k), script[k].pickAt;
    SeenSameTable(host, s, script, k);
    if Healthy(seen.groups[g].cands, now, s.penalty) != [] {
      PickMade(seen, host, g, now);
      if PickAt(host, s, script, j).Some? {
        FailureSeenLater(host, s, g, script, timeout, gap, j, k);
        LaterPickInWindow(script, timeout, gap, s.penalty, j, k);
        FailedIsNotBest(seen, g, host, PickAt(host, s, script, j).value, script[j].markAt, now);
      }
    }
  }

  lemma PickMade(s: Sel, host: string, g: nat, now: nat)
    requires Find(s, host) == Some(g) && s.groups[g].cands != []
    ensures BestIp(s, host, now).Some?
  {
  }

  lemma LaterPickInWindow(script: seq<Attempt>, timeout: nat, gap: nat, penalty: nat, j: nat, k: nat)
    requires WellTimed(script, timeout, gap) && Fits(|script|, timeout, gap, penalty) && j < k < |script|
    ensures script[k].pickAt <= script[j].markAt + penalty
  {
    PickSoonAfterMark(script, timeout, gap, j, k);
    MulMono(k - j, |script| - 1, gap);
    MulMono(k - j - 1, |script| - 2, timeout + 1);
  }

  // ---- Enough healthy candidates at the start ----

  /** The address is in group g and each of its candidates there last failed before the window. */
  ghost predicate HealthyIp(s: Sel, g: nat, ip: IpAddr, now: nat) {
    && g < |s.groups| && ip in Ips(s.groups[g].cands)
    && forall c :: c in s.groups[g].cands && c.ip == ip ==> !InWindow(c, now, s.penalty)
  }

  ghost function HealthyAddresses(s: Sel, g: nat, now: nat): set<IpAddr>
    requires g < |s.groups|
  {
    set c | c in Healthy(s.groups[g].cands, now, s.penalty) :: c.ip
  }

  predicate Spares(s: Sel, op: Op, g: nat, ip: IpAddr) {
    !Resets(s, op, g) && (op.Report? && Reaches(s, op, g) && op.ip == ip ==> op.event.success)
  }

  /** Other tasks report no failure in group g and do not re-pin it, from the first pick on. */
  ghost predicate NoOutsideFailures(s: Sel, g: nat, script: seq<Attempt>) {
    forall i :: 0 <= i < |script| ==>
      (forall op :: op in script[i].before ==> if i == 0 then !Resets(s, op, g) else Quiet(s, g, op))
      && (forall op :: op in script[i].during ==> Quiet(s, g, op))
  }

  predicate Quiet(s: Sel, g: nat, op: Op) {
    !Resets(s, op, g) && (op.Report? && Reaches(s, op, g) ==> op.event.success)
  }

  lemma {:induction false} HealthPersists(s: Sel, ops: seq<Op>, g: nat, ip: IpAddr, now: nat)
    requires Valid(s) && HealthyIp(s, g, ip, now)
    requires forall op :: op in ops ==> Spares(s, op, g, ip)
    ensures HealthyIp(Run(s, ops), g, ip, now)
  {
    if ops != [] {
      var init, op := ops[..|ops| - 1], ops[|ops| - 1];
      assert op in ops && forall o :: o in init ==> o in ops;
      HealthPersists(s, init, g, ip, now);
      var u := Run(s, init);
      RunFrame(s, init);
      RunValid(s, init);
      ReachesFrame(s, u, op, g);
      ApplyFrame(u, op);
      if Reaches(u, op, g) {
        var cands := u.groups[g].cands;
        ValidDistinct(u.groups[g]);
        UpdateFirstAt(cands, op.ip, op.event, u.penalty);
        forall k | 0 <= k < |cands| && UpdateFirst(cands, op.ip, op.event, u.penalty)[k].ip == ip
          ensures !InWindow(UpdateFirst(cands, op.ip, op.event, u.penalty)[k], now, u.penalty)
        {
          UpdateAtDistinct(cands, op.ip, op.event, u.penalty, k);
          assert cands[k] in cands;
        }
      }
    }
  }

  lemma HealthKeptThroughAttempt(host: string, s: Sel, g: nat, p: Progress, seen: Sel, picked: Option<IpAddr>,
                                 a: Attempt, ip: IpAddr, now: nat)
    requires SameTable(s, seen) && Valid(seen) && Find(s, host) == Some(g)
    requires HealthyIp(seen, g, ip, now) && picked != Some(ip) && PlainFailure(a)
    requires forall op :: op in a.during ==> Quiet(s, g, op)
    ensures HealthyIp(Continue(host, p, seen, picked, a).sel, g, ip, now)
  {
    forall op | op in a.during
      ensures Spares(seen, op, g, ip)
    {
      ReachesFrame(s, seen, op, g);
    }
    HealthPersists(seen, a.during, g, ip, now);
    RunSameTable(s, seen, a.during);
    if picked.Some? {
      var op := Report(host, picked.value, Event(a.markAt, None, None, false));
      HealthPersists(Run(seen, a.during), [op], g, ip, now);
      ApplyIsRun(Run(seen, a.during), op);
    }
  }

  /** Attempt k leaves an address healthy that it did not pick. */
  lemma HealthKeptByAttempt(host: string, s: Sel, g: nat, script: seq<Attempt>, k: nat, ip: IpAddr, now: nat)
    requires Valid(s) && Find(s, host) == Some(g) && NoOutsideFailures(s, g, script)
    requires k < |script| && !After(host, s, script, k + 1).stopped && PickAt(host, s, script, k) != Some(ip)
    requires HealthyIp(SeenAt(host, s, script, k), g, ip, now)
    ensures HealthyIp(After(host, s, script, k + 1).sel, g, ip, now)
  {
    SeenSameTable(host, s, script, k);
    StepTaken(host, s, script, k);
    HealthKeptThroughAttempt(host, s, g, After(host, s, script, k), SeenAt(host, s, script, k),
                             PickAt(host, s, script, k), script[k], ip, now);
  }

  lemma HealthKeptUntilPick(host: string, s: Sel, g: nat, script: seq<Attempt>, k: nat, ip: IpAddr, now: nat)
    requires Valid(s) && Find(s, host) == Some(g) && NoOutsideFailures(s, g, script)
    requires 0 < k < |script| && now <= script[k].pickAt
    requires HealthyIp(After(host, s, script, k).sel, g, ip, now)
    ensures HealthyIp(SeenAt(host, s, script, k), g, ip, script[k].pickAt)
  {
    var t := After(host, s, script, k).sel;
    AfterFrame(host, s, script, k);
    forall op | op in script[k].before
      ensures Spares(t, op, g, ip)
    {
      ReachesFrame(s, t, op, g);
    }
    HealthPersists(t, script[k].before, g, ip, now);
  }

  /** An address healthy at the first pick and not yet picked is still healthy at the k-th. */
  lemma {:induction false} UnpickedStaysHealthy(host: string, s: Sel, g: nat, script: seq<Attempt>, timeout: nat,
                                                gap: nat, ip: IpAddr, k: nat)
    requires Valid(s) && Find(s, host) == Some(g)
    requires WellTimed(script, timeout, gap) && NoOutsideFailures(s, g, script)
    requires k < |script| && !After(host, s, script, k).stopped
    requires HealthyIp(SeenAt(host, s, script, 0), g, ip, script[0].pickAt)
    requires forall j: nat :: j < k ==> PickAt(host, s, script, j) != Some(ip)
    ensures HealthyIp(SeenAt(host, s, script, k), g, ip, script[k].pickAt)
  {
    hide *;
    if k > 0 {
      MarkBeforePick(script, timeout, gap, k);
      StepTaken(host, s, script, k - 1);
      UnpickedStaysHealthy(host, s, g, script, timeout, gap, ip, k - 1);
      HealthKeptByAttempt(host, s, g, script, k - 1, ip, script[k - 1].pickAt);
      HealthKeptUntilPick(host, s, g, script, k, ip, script[k - 1].pickAt);
    }
  }

  lemma SomeUnpicked(healthy: set<IpAddr>, picks: seq<Option<IpAddr>>) returns (ip: IpAddr)
    requires |picks| < |healthy|
    ensures ip in healthy && Some(ip) !in picks
  {
    var picked := set p | p in picks && p.Some? :: p.value;
    PickedAtMost(picks);
    if healthy <= picked {
      SubsetAtMost(healthy, picked);
    }
    ip :| ip in healthy && ip !in picked;
  }

  lemma {:induction false} SubsetAtMost(a: set<IpAddr>, b: set<IpAddr>)
    requires a <= b
    ensures |a| <= |b|
  {
    if a != {} {
      var x :| x in a;
      SubsetAtMost(a - {x}, b - {x});
    }
  }

  lemma {:induction false} PickedAtMost(picks: seq<Option<IpAddr>>)
    ensures |set p | p in picks && p.Some? :: p.value| <= |picks|
  {
    var all := set p | p in picks && p.Some? :: p.value;
    if picks != [] {
      var init, last := picks[..|picks| - 1], picks[|picks| - 1];
      var fewer := set p | p in init && p.Some? :: p.value;
      PickedAtMost(init);
      assert picks == init + [last];
      if last.Some? {
        assert all == fewer + {last.value};
      } else {
        assert all == fewer;
      }
    }
  }

  /** A request that starts with as many healthy candidates as it may make attempts, while other tasks report no
      failure in the group, tries pairwise distinct addresses. */
  lemma {:induction false} PicksDistinct(host: string, s: Sel, g: nat, script: seq<Attempt>, timeout: nat, gap: nat,
                                         m: nat)
    requires Valid(s) && Find(s, host) == Some(g) && script != [] && m <= |script|
    requires WellTimed(script, timeout, gap) && NoOutsideFailures(s, g, script)
    requires Fits(|script|, timeout, gap, s.penalty)
    requires |HealthyAddresses(SeenAt(host, s, script, 0), g, script[0].pickAt)| >= |script|
    ensures Distinct(After(host, s, script, m).picks)
    ensures forall p :: p in After(host, s, script, m).picks ==> p.Some?
  {
    hide Run, Apply, BestIp, WellTimed, NoOutsideFailures;
    if m > 0 {
      var k := m - 1;
      PicksDistinct(host, s, g, script, timeout, gap, k);
      var p := After(host, s, script, k);
      if !p.stopped {
        PicksCounted(host, s, script, k);
        NextPickIsNew(host, s, g, script, timeout, gap, k);
        PickAppended(host, s, script, k);
      }
    }
  }

  lemma PickAppended(host: string, s: Sel, script: seq<Attempt>, k: nat)
    requires k < |script| && !After(host, s, script, k).stopped
    ensures After(host, s, script, k + 1).picks == After(host, s, script, k).picks + [PickAt(host, s, script, k)]
  {
    hide Run, Apply, BestIp;
  }

  lemma QuietIsUndisturbed(s: Sel, g: nat, script: seq<Attempt>)
    requires NoOutsideFailures(s, g, script)
    ensures forall i :: 0 <= i < |script| ==>
              (forall op :: op in script[i].before && i > 0 ==> Harmless(s, g, op, script[i - 1].markAt))
              && (forall op :: op in script[i].during ==> Harmless(s, g, op, script[i].pickAt))
              && (forall op :: op in script[i].before ==> Harmless(s, g, op, 0))
    ensures Undisturbed(s, g, script)
  {
  }

  /** Fewer addresses have been picked than were healthy, so one that was is still healthy. */
  lemma SomeStillHealthy(host: string, s: Sel, g: nat, script: seq<Attempt>, timeout: nat, gap: nat, k: nat)
    requires Valid(s) && Find(s, host) == Some(g)
    requires WellTimed(script, timeout, gap) && NoOutsideFailures(s, g, script)
    requires k < |script| && !After(host, s, script, k).stopped && |After(host, s, script, k).picks| == k
    requires |HealthyAddresses(SeenAt(host, s, script, 0), g, script[0].pickAt)| >= |script|
    ensures g < |SeenAt(host, s, script, k).groups| == |s.groups|
    ensures Healthy(SeenAt(host, s, script, k).groups[g].cands, script[k].pickAt, s.penalty) != []
  {
    hide *;
    var first, p := SeenAt(host, s, script, 0), After(host, s, script, k);
    SeenSameTable(host, s, script, 0);
    SameTableSizes(s, first);
    var ip := SomeUnpicked(HealthyAddresses(first, g, script[0].pickAt), p.picks);
    HealthyAddressIsHealthy(first, g, script[0].pickAt, ip);
    forall j: nat | j < k
      ensures PickAt(host, s, script, j) != Some(ip)
    {
      PicksAre(host, s, script, j, k);
    }
    UnpickedStaysHealthy(host, s, g, script, timeout, gap, ip, k);
    SeenSameTable(host, s, script, k);
    SameTableSizes(s, SeenAt(host, s, script, k));
    HealthyIpInPool(SeenAt(host, s, script, k), g, ip, script[k].pickAt);
  }

  lemma SameTableSizes(s: Sel, t: Sel)
    requires SameTable(s, t)
    ensures |t.groups| == |s.groups| && t.penalty == s.penalty
    ensures forall host :: Find(t, host) == Find(s, host)
  {
  }

  lemma NextPickIsNew(host: string, s: Sel, g: nat, script: seq<Attempt>, timeout: nat, gap: nat, k: nat)
    requires Valid(s) && Find(s, host) == Some(g)
    requires WellTimed(script, timeout, gap) && NoOutsideFailures(s, g, script)
    requires Fits(|script|, timeout, gap, s.penalty)
    requires k < |script| && !After(host, s, script, k).stopped && |After(host, s, script, k).picks| == k
    requires |HealthyAddresses(SeenAt(host, s, script, 0), g, script[0].pickAt)| >= |script|
    ensures var ip := PickAt(host, s, script, k);
            ip.Some? && ip !in After(host, s, script, k).picks
  {
    hide Run, Apply, BestIp, After, SeenAt, WellTimed, NoOutsideFailures, Undisturbed, SameTable, Valid;
    QuietIsUndisturbed(s, g, script);
    SomeStillHealthy(host, s, g, script, timeout, gap, k);
    SeenSameTable(host, s, script, k);
    SameTableSizes(s, SeenAt(host, s, script, k));
    PickMade(SeenAt(host, s, script, k), host, g, script[k].pickAt);
    NewAgainstAll(host, s, g, script, timeout, gap, k);
  }

  lemma NewAgainstAll(host: string, s: Sel, g: nat, script: seq<Attempt>, timeout: nat, gap: nat, k: nat)
    requires Valid(s) && Find(s, host) == Some(g)
    requires WellTimed(script, timeout, gap) && Undisturbed(s, g, script)
    requires Fits(|script|, timeout, gap, s.penalty)
    requires k < |script| && !After(host, s, script, k).stopped && |After(host, s, script, k).picks| == k
    requires Healthy(SeenAt(host, s, script, k).groups[g].cands, script[k].pickAt, s.penalty) != []
    ensures PickAt(host, s, script, k) !in After(host, s, script, k).picks
  {
    var picks := After(host, s, script, k).picks;
    forall j: nat | j < k
      ensures PickAt(host, s, script, k) != picks[j]
    {
      PicksAre(host, s, script, j, k);
      RetryPicksNewAddress(host, s, g, script, timeout, gap, j, k);
    }
  }

  lemma HealthyAddressIsHealthy(s: Sel, g: nat, now: nat, ip: IpAddr)
    requires g < |s.groups| && GroupOk(s.groups[g]) && ip in HealthyAddresses(s, g, now)
    ensures HealthyIp(s, g, ip, now)
  {
    var cands := s.groups[g].cands;
    var c :| c in Healthy(cands, now, s.penalty) && c.ip == ip;
    var k :| 0 <= k < |cands| && cands[k] == c;
    assert Ips(cands)[k] == ip;
    ValidDistinct(s.groups[g]);
    forall d | d in cands && d.ip == ip
      ensures d == c
    {
      var j :| 0 <= j < |cands| && cands[j] == d;
      assert Ips(cands)[j] == Ips(cands)[k];
    }
  }

  lemma HealthyIpInPool(s: Sel, g: nat, ip: IpAddr, now: nat)
    requires HealthyIp(s, g, ip, now)
    ensures Healthy(s.groups[g].cands, now, s.penalty) != [] && s.groups[g].cands != []
  {
    var cands := s.groups[g].cands;
    var k :| 0 <= k < |Ips(cands)| && Ips(cands)[k] == ip;
    assert cands[k] in Healthy(cands, now, s.penalty);
  }

  /** The deployed numbers: three attempts, a 30 s header timeout, a 60 s penalty. With three healthy candidates at the
      start and no outside failures, the addresses tried are pairwise distinct as long as no more than 14 s pass between
      marking a failure and the next pick. */
  lemma ThreeAttemptsDistinct(host: string, s: Sel, g: nat, script: seq<Attempt>, gap: nat)
    requires Valid(s) && Find(s, host) == Some(g) && s.penalty == 60 && |script| == 3 && gap <= 14
    requires WellTimed(script, 30, gap) && NoOutsideFailures(s, g, script)
    requires |HealthyAddresses(SeenAt(host, s, script, 0), g, script[0].pickAt)| >= 3
    ensures Distinct(TryAll(host, s, script).picks)
    ensures forall p :: p in TryAll(host, s, script).picks ==> p.Some?
  {
    PicksDistinct(host, s, g, script, 30, gap, 3);
  }
}
