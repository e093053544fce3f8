/** What every run of selector calls keeps: the pin relation, the history each candidate summarizes, the cool-down. */
module SelectorRuns {
  import opened Common
  import opened HostNames
  import opened Candidates
  import opened Selectors
  import opened Ranking

  // ---- One update ----

  /** Position k holds the first candidate with this address. */
  predicate FirstWith(cands: seq<Candidate>, ip: IpAddr, k: nat) {
    k < |cands| && cands[k].ip == ip && forall j :: 0 <= j < k ==> cands[j].ip != ip
  }

  lemma {:induction false} UpdateFirstAtOne(cands: seq<Candidate>, ip: IpAddr, e: Event, penalty: nat, k: nat)
    requires k < |cands|
    ensures UpdateFirst(cands, ip, e, penalty)[k]
         == if FirstWith(cands, ip, k) then Updated(cands[k], e, penalty) else cands[k]
  {
    if cands[0].ip != ip && k > 0 {
      UpdateFirstAtOne(cands[1..], ip, e, penalty, k - 1);
      assert FirstWith(cands[1..], ip, k - 1) <==> FirstWith(cands, ip, k) by {
        assert forall j :: 0 <= j < k ==> cands[1..][j] == cands[j + 1];
      }
    }
  }

  /** An update keeps the address list and replaces exactly the first candidate with that address. */
  lemma UpdateFirstAt(cands: seq<Candidate>, ip: IpAddr, e: Event, penalty: nat)
    ensures Ips(UpdateFirst(cands, ip, e, penalty)) == Ips(cands)
    ensures forall k: nat :: k < |cands| ==>
              UpdateFirst(cands, ip, e, penalty)[k]
              == if FirstWith(cands, ip, k) then Updated(cands[k], e, penalty) else cands[k]
  {
    forall k: nat | k < |cands|
      ensures UpdateFirst(cands, ip, e, penalty)[k]
           == if FirstWith(cands, ip, k) then Updated(cands[k], e, penalty) else cands[k]
    {
      UpdateFirstAtOne(cands, ip, e, penalty, k);
    }
  }

  lemma {:induction false} UpdateFirstReplaces(cands: seq<Candidate>, ip: IpAddr, e: Event, penalty: nat, k: nat)
    requires k <= |cands| && (forall j :: 0 <= j < k ==> cands[j].ip != ip)
    requires k < |cands| ==> cands[k].ip == ip
    ensures UpdateFirst(cands, ip, e, penalty)
         == if k < |cands| then cands[k := Updated(cands[k], e, penalty)] else cands
  {
    if k > 0 {
      UpdateFirstReplaces(cands[1..], ip, e, penalty, k - 1);
    }
  }

  // ---- The invariant ----

  /** A pinned group holds the pinned address alone, an unpinned one the bundled list in order,
      and every candidate is flagged down exactly while its failure count, a u32, is positive. */
  ghost predicate GroupOk(g: Group) {
    && Ips(g.cands) == PinList(g, g.pinned)
    && Distinct(g.bundled)
    && forall c :: c in g.cands ==> (c.down <==> c.fails > 0) && c.fails <= U32_MAX
  }

  ghost predicate Valid(s: Sel) {
    forall g :: 0 <= g < |s.groups| ==> GroupOk(s.groups[g])
  }

  lemma {:induction false} CreateValid(defs: seq<HostDef>, penalty: nat)
    requires forall i :: 0 <= i < |defs| ==> Distinct(defs[i].ips)
    ensures Valid(Create(defs, penalty))
    ensures Defs(Create(defs, penalty).groups) == defs
  {
    forall i | 0 <= i < |defs|
      ensures GroupOk(Create(defs, penalty).groups[i])
    {
      assert Ips(FreshAll(defs[i].ips)) == defs[i].ips;
    }
  }

  lemma ChangeKeepsGroupOk(g: Group, op: Op, penalty: nat)
    requires GroupOk(g)
    ensures GroupOk(Change(g, op, penalty))
  {
    match op {
      case Report(_, ip, e) =>
        UpdateFirstAt(g.cands, ip, e, penalty);
        assert forall c :: c in g.cands ==> c.fails <= U32_MAX;
      case Pin(_, target) =>
        assert Ips(FreshAll(PinList(g, target))) == PinList(g, target);
    }
  }

  /** Every run of whole calls keeps the invariant. */
  lemma {:induction false} RunValid(s: Sel, ops: seq<Op>)
    requires Valid(s)
    ensures Valid(Run(s, ops))
  {
    if ops != [] {
      var init, last := ops[..|ops| - 1], ops[|ops| - 1];
      RunValid(s, init);
      var t := Run(s, init);
      ApplyFrame(t, last);
      forall g | 0 <= g < |t.groups|
        ensures GroupOk(Apply(t, last).groups[g])
      {
        ChangeKeepsGroupOk(t.groups[g], last, t.penalty);
      }
    }
  }

  lemma ValidDistinct(g: Group)
    requires GroupOk(g)
    ensures Distinct(Ips(g.cands))
  {
  }

  /** Over every run from a loaded table: a pinned group is its pin alone, an unpinned one is the bundled list,
      reports never change an address list, and no list becomes empty, so routing and resolving a managed host always
      succeed. */
  lemma {:induction false} PinInvariantOverRuns(defs: seq<HostDef>, penalty: nat, ops: seq<Op>, g: nat)
    requires g < |defs|
    requires forall i :: 0 <= i < |defs| ==> Distinct(defs[i].ips) && defs[i].ips != []
    ensures var s := Run(Create(defs, penalty), ops);
            var group := s.groups[g];
            && Defs(s.groups) == defs
            && (match group.pinned case Some(p) => Ips(group.cands) == [p] case None => Ips(group.cands) == defs[g].ips)
            && group.cands != []
            && (forall host, now: nat :: Find(s, host) == Some(g) ==>
                  BestIp(s, host, now).Some? && BestIp(s, host, now).value in Ips(group.cands))
            && (forall host, port: nat, now: nat :: Find(s, host) == Some(g) && HostFor(defs, host).Some? ==>
                  Resolve(s, None, host, port, now)
                  == Some((BestIp(s, host, now).value, defs[g].upstreamPort)))
  {
    var s0 := Create(defs, penalty);
    CreateValid(defs, penalty);
    RunValid(s0, ops);
    RunFrame(s0, ops);
    var s := Run(s0, ops);
    var group := s.groups[g];
    assert GroupOk(group);
    assert |Ips(group.cands)| == |PinList(group, group.pinned)|;
    assert s.groups[g].def == Defs(s.groups)[g] == defs[g];
    forall host, now: nat | Find(s, host) == Some(g)
      ensures BestIp(s, host, now).Some? && BestIp(s, host, now).value in Ips(group.cands)
    {
      RoutedWithinGroup(s, host, g, now);
    }
    forall host, port: nat, now: nat | Find(s, host) == Some(g) && HostFor(defs, host).Some?
      ensures Resolve(s, None, host, port, now) == Some((BestIp(s, host, now).value, defs[g].upstreamPort))
    {
      RoutedWithinGroup(s, host, g, now);
      hide BestIp;
    }
  }

  /** So a managed host resolves after every run: to an address of its group's current list, the one routing picks, and
      the group's port. */
  lemma {:induction false} ManagedHostsResolve(defs: seq<HostDef>, penalty: nat, ops: seq<Op>, host: string,
                                               port: nat, now: nat)
    requires forall i :: 0 <= i < |defs| ==> Distinct(defs[i].ips) && defs[i].ips != []
    requires HostFor(defs, host).Some?
    ensures IndexOf(defs, host).Some?
    ensures var s, g := Run(Create(defs, penalty), ops), IndexOf(defs, host).value;
            && Resolve(s, None, host, port, now).Some? && BestIp(s, host, now).Some?
            && Resolve(s, None, host, port, now).value == (BestIp(s, host, now).value, defs[g].upstreamPort)
            && BestIp(s, host, now).value in Ips(s.groups[g].cands)
  {
    hide BestIp, Resolve;
    ManagedHostHasIndex(defs, host);
    PinInvariantOverRuns(defs, penalty, ops, IndexOf(defs, host).value);
    assert Find(Run(Create(defs, penalty), ops), host) == IndexOf(defs, host);
  }

  /** What the connector is told: the address in use for this request with the caller's port, whatever the host, or,
      when none is in use, nothing for an unmanaged host. */
  lemma ResolveExtremes(s: Sel, host: string, port: nat, now: nat)
    ensures forall ip :: Resolve(s, Some(ip), host, port, now) == Some((ip, port))
    ensures HostFor(Defs(s.groups), host).None? ==> Resolve(s, None, host, port, now) == None
  {
  }

  /** The live definitions follow the pins: after every run a pinned group's has the pin alone, an unpinned one's the
      bundled list, and nothing else of a definition ever changes. */
  lemma {:induction false} LiveDefsFollowPins(defs: seq<HostDef>, penalty: nat, ops: seq<Op>, g: nat)
    requires g < |defs|
    requires forall i :: 0 <= i < |defs| ==> Distinct(defs[i].ips) && defs[i].ips != []
    ensures var s := Run(Create(defs, penalty), ops);
            var live := AllLive(s)[g];
            && live.ips == (if s.groups[g].pinned.Some? then [s.groups[g].pinned.value] else defs[g].ips)
            && live.name == defs[g].name && live.domainMap == defs[g].domainMap
            && live.upstreamPort == defs[g].upstreamPort && live.testUrl == defs[g].testUrl
  {
    hide Run;
    PinInvariantOverRuns(defs, penalty, ops, g);
    RunFrame(Create(defs, penalty), ops);
    assert Create(defs, penalty).groups[g].def == defs[g];
  }

  lemma RoutedWithinGroup(s: Sel, host: string, g: nat, now: nat)
    requires Find(s, host) == Some(g) && s.groups[g].cands != []
    ensures BestIp(s, host, now).Some? && BestIp(s, host, now).value in Ips(s.groups[g].cands)
  {
    var cands := s.groups[g].cands;
    var i := BestIsLastOfPool(cands, now, s.penalty);
    var k :| 0 <= k < |cands| && cands[k] == Best(cands, now, s.penalty);
    assert Ips(cands)[k] == BestIp(s, host, now).value;
  }

  /** After every run the two views of a group relate as follows: the dashboard shows an address as down exactly while
      it is failing within the window, and the ranking's head scores what the routed address scores, except exactly
      when a recovered address outscores the whole healthy pool. */
  lemma ViewsOverRuns(s: Sel, ops: seq<Op>, g: nat, now: nat)
    requires Valid(s) && g < |s.groups|
    ensures var cands := Run(s, ops).groups[g].cands;
            && (forall c :: c in cands ==>
                  (Refreshed(c, now, s.penalty).down <==> c.fails > 0 && SatSub(now, c.lastFail) <= s.penalty))
            && (cands != [] ==>
                  (ScoreAt(Ranked(cands, now, s.penalty)[0], now, s.penalty)
                   == ScoreAt(Best(cands, now, s.penalty), now, s.penalty)
                   <==> !exists c :: RecoveredOutscores(cands, now, s.penalty, c)))
  {
    hide Run, Ranked, Best, ScoreAt, RecoveredOutscores;
    RunValid(s, ops);
    var group := Run(s, ops).groups[g];
    assert GroupOk(group);
    if group.cands != [] {
      HeadAgreesWithBest(group.cands, now, s.penalty);
    }
  }

  /** The exception does occur: one address of two fails and recovers at once, and the ranking puts it first while
      routing still avoids it. */
  lemma {:induction false} ViewsCanDisagree(def: HostDef, a: IpAddr, b: IpAddr, host: string, penalty: nat)
    returns (ops: seq<Op>, now: nat)
    requires def.ips == [a, b] && a != b && IndexOf([def], host) == Some(0)
    ensures var s := Run(Create([def], penalty), ops);
            && s.groups[0].cands != []
            && (exists c :: RecoveredOutscores(s.groups[0].cands, now, penalty, c))
            && Ranked(s.groups[0].cands, now, penalty)[0].ip == a
            && BestIp(s, host, now) == Some(b)
  {
    now := penalty + 1;
    var failure, success := Event(now, None, None, false), Event(now, Some(1), Some(2.0), true);
    ops := [Report(host, a, failure), Report(host, a, success)];
    var s0 := Create([def], penalty);
    assert Find(s0, host) == Some(0) && s0.groups[0].cands == [Fresh(a), Fresh(b)];
    FailThenRecover(s0, host, a, b, failure, success, penalty);
    RunFrame(s0, ops);
    RecoveredComesFirst([Candidate(a, Some(1), Some(2.0), now, now, 0, false), Fresh(b)], now, penalty);
  }

  lemma FailThenRecover(s: Sel, host: string, a: IpAddr, b: IpAddr, failure: Event, success: Event, penalty: nat)
    requires s.penalty == penalty && Find(s, host) == Some(0) && s.groups[0].cands == [Fresh(a), Fresh(b)]
    ensures Run(s, [Report(host, a, failure), Report(host, a, success)]).groups[0].cands
         == [Updated(Updated(Fresh(a), failure, penalty), success, penalty), Fresh(b)]
  {
    var first, second := Report(host, a, failure), Report(host, a, success);
    var t := Apply(s, first);
    assert [first, second][..1] == [first] && [first][..0] == [];
    assert Run(s, [first]) == t;
    ApplyFrame(s, first);
    ApplyFrame(t, second);
    assert Reaches(s, first, 0) && Reaches(t, second, 0);
  }

  // ---- History ----

  /** The call replaces group g's candidates by fresh ones. */
  predicate Resets(s: Sel, op: Op, g: nat) {
    op.Pin? && Reaches(s, op, g)
  }

  /** The events reported for one address of one group since its candidates were last replaced. */
  function EventsOf(s: Sel, ops: seq<Op>, g: nat, ip: IpAddr): seq<Event> {
    if ops == [] then []
    else
      var earlier := EventsOf(s, ops[..|ops| - 1], g, ip);
      var op := ops[|ops| - 1];
      if Resets(s, op, g) then []
      else if op.Report? && Reaches(s, op, g) && op.ip == ip then earlier + [op.event]
      else earlier
  }

  /** Over every run, each candidate is the summary of exactly the events reported for it since the last pin or
      restore. */
  lemma {:induction false} CandidateIsItsHistory(s: Sel, ops: seq<Op>, g: nat, k: nat)
    requires Valid(s) && g < |s.groups|
    requires forall i :: 0 <= i < |s.groups[g].cands| ==> s.groups[g].cands[i] == Fresh(s.groups[g].cands[i].ip)
    requires k < |Run(s, ops).groups[g].cands|
    ensures var c := Run(s, ops).groups[g].cands[k];
            c == Replay(c.ip, EventsOf(s, ops, g, c.ip), s.penalty) && Describes(c, EventsOf(s, ops, g, c.ip))
  {
    HistoryStep(s, ops, g, k);
    var c := Run(s, ops).groups[g].cands[k];
    ReplayDescribes(c.ip, EventsOf(s, ops, g, c.ip), s.penalty);
  }

  lemma {:induction false} HistoryStep(s: Sel, ops: seq<Op>, g: nat, k: nat)
    requires Valid(s) && g < |s.groups|
    requires forall i :: 0 <= i < |s.groups[g].cands| ==> s.groups[g].cands[i] == Fresh(s.groups[g].cands[i].ip)
    requires k < |Run(s, ops).groups[g].cands|
    ensures var c := Run(s, ops).groups[g].cands[k];
            c == Replay(c.ip, EventsOf(s, ops, g, c.ip), s.penalty)
  {
    if ops != [] {
      var init, op := ops[..|ops| - 1], ops[|ops| - 1];
      var t := Run(s, init);
      RunFrame(s, init);
      ReachesFrame(s, t, op, g);
      ApplyFrame(t, op);
      RunValid(s, init);
      if !Resets(s, op, g) {
        HistoryStep(s, init, g, k);
        if Reaches(t, op, g) {
          HistoryOfReport(t, op, g, k, EventsOf(s, init, g, t.groups[g].cands[k].ip));
        }
      }
    }
  }

  lemma HistoryOfReport(t: Sel, op: Op, g: nat, k: nat, past: seq<Event>)
    requires g < |t.groups| && GroupOk(t.groups[g]) && Reaches(t, op, g) && op.Report?
    requires k < |t.groups[g].cands|
    requires t.groups[g].cands[k] == Replay(t.groups[g].cands[k].ip, past, t.penalty)
    ensures k < |Apply(t, op).groups[g].cands|
    ensures var ip := t.groups[g].cands[k].ip;
            Apply(t, op).groups[g].cands[k]
            == Replay(ip, if op.ip == ip then past + [op.event] else past, t.penalty)
  {
    ApplyFrame(t, op);
    ValidDistinct(t.groups[g]);
    UpdateAtDistinct(t.groups[g].cands, op.ip, op.event, t.penalty, k);
    ReplayAppend(t.groups[g].cands[k].ip, past, op.event, t.penalty);
  }

  lemma ReplayAppend(ip: IpAddr, past: seq<Event>, e: Event, penalty: nat)
    ensures Replay(ip, past + [e], penalty) == Updated(Replay(ip, past, penalty), e, penalty)
  {
    assert (past + [e])[..|past|] == past;
  }

  /** With distinct addresses an update touches a candidate exactly when it carries the address. */
  lemma UpdateAtDistinct(cands: seq<Candidate>, ip: IpAddr, e: Event, penalty: nat, k: nat)
    requires Distinct(Ips(cands)) && k < |cands|
    ensures UpdateFirst(cands, ip, e, penalty)[k]
         == if cands[k].ip == ip then Updated(cands[k], e, penalty) else cands[k]
  {
    UpdateFirstAt(cands, ip, e, penalty);
    forall j | 0 <= j < k
      ensures cands[j].ip != cands[k].ip
    {
      assert Ips(cands)[j] != Ips(cands)[k];
    }
  }

  // ---- Cool-down ----

  /** The address is in group g and its last recorded failure is not before t. */
  ghost predicate FailedSince(s: Sel, g: nat, ip: IpAddr, t: nat) {
    && g < |s.groups| && ip in Ips(s.groups[g].cands)
    && forall c :: c in s.groups[g].cands && c.ip == ip ==> c.lastFail >= t
  }

  /** The call neither replaces group g's candidates nor records a failure of this address there dated before t. */
  predicate KeepsFailure(s: Sel, op: Op, g: nat, ip: IpAddr, t: nat) {
    && !Resets(s, op, g)
    && (op.Report? && Reaches(s, op, g) && op.ip == ip && !op.event.success ==> op.event.at >= t)
  }

  lemma FailureRecorded(s: Sel, g: nat, host: string, ip: IpAddr, e: Event)
    requires Valid(s) && Find(s, host) == Some(g) && ip in Ips(s.groups[g].cands) && !e.success
    ensures FailedSince(Apply(s, Report(host, ip, e)), g, ip, e.at)
  {
    ApplyFrame(s, Report(host, ip, e));
    var cands := s.groups[g].cands;
    ValidDistinct(s.groups[g]);
    UpdateFirstAt(cands, ip, e, s.penalty);
    forall k | 0 <= k < |cands| && UpdateFirst(cands, ip, e, s.penalty)[k].ip == ip
      ensures UpdateFirst(cands, ip, e, s.penalty)[k].lastFail == e.at
    {
      UpdateAtDistinct(cands, ip, e, s.penalty, k);
    }
  }

  lemma {:induction false} FailurePersists(s: Sel, ops: seq<Op>, g: nat, ip: IpAddr, t: nat)
    requires Valid(s) && FailedSince(s, g, ip, t)
    requires forall op :: op in ops ==> KeepsFailure(s, op, g, ip, t)
    ensures FailedSince(Run(s, ops), g, ip, t)
  {
    if ops != [] {
      var init, op := ops[..|ops| - 1], ops[|ops| - 1];
      assert op in ops && forall o :: o in init ==> o in ops;
      FailurePersists(s, init, g, ip, t);
      var u := Run(s, init);
      RunFrame(s, init);
      RunValid(s, init);
      ReachesFrame(s, u, op, g);
      ApplyFrame(u, op);
      if Reaches(u, op, g) {
        var cands := u.groups[g].cands;
        ValidDistinct(u.groups[g]);
        UpdateFirstAt(cands, op.ip, op.event, u.penalty);
        forall k | 0 <= k < |cands| && UpdateFirst(cands, op.ip, op.event, u.penalty)[k].ip == ip
          ensures UpdateFirst(cands, op.ip, op.event, u.penalty)[k].lastFail >= t
        {
          UpdateAtDistinct(cands, op.ip, op.event, u.penalty, k);
          assert cands[k] in cands;
        }
      }
    }
  }

  /** An address that failed within the window is not routed to while some candidate of its group is outside its own. */
  lemma FailedIsNotBest(s: Sel, g: nat, host: string, ip: IpAddr, t: nat, now: nat)
    requires FailedSince(s, g, ip, t) && Find(s, host) == Some(g)
    requires now <= t + s.penalty
    requires Healthy(s.groups[g].cands, now, s.penalty) != []
    ensures BestIp(s, host, now).Some? && BestIp(s, host, now) != Some(ip)
    ensures exists c :: c in s.groups[g].cands && c.ip == BestIp(s, host, now).value && !InWindow(c, now, s.penalty)
  {
    var i := BestIsLastOfPool(s.groups[g].cands, now, s.penalty);
    assert Best(s.groups[g].cands, now, s.penalty) in s.groups[g].cands;
  }

  /** Cool-down over whole runs: after a failure recorded at t, whatever calls follow on any groups (successes of the
      same address included, but no re-pin of this group), the address is not routed to at any moment up to t + penalty
      at which its group has a candidate outside its own window. */
  lemma CoolDown(s: Sel, g: nat, failedHost: string, ip: IpAddr, e: Event, ops: seq<Op>, host: string, now: nat)
    requires Valid(s) && Find(s, failedHost) == Some(g) && Find(s, host) == Some(g)
    requires ip in Ips(s.groups[g].cands) && !e.success
    requires forall op :: op in ops ==> KeepsFailure(s, op, g, ip, e.at)
    requires now <= e.at + s.penalty
    ensures var after := Run(Apply(s, Report(failedHost, ip, e)), ops);
            Healthy(after.groups[g].cands, now, s.penalty) != [] ==>
              BestIp(after, host, now).Some? && BestIp(after, host, now) != Some(ip)
  {
    var failed := Report(failedHost, ip, e);
    var s1 := Apply(s, failed);
    FailureRecorded(s, g, failedHost, ip, e);
    ApplyFrame(s, failed);
    RunValid(s, [failed]);
    assert Run(s, [failed]) == s1 by {
      assert [failed][..0] == [];
    }
    forall op | op in ops
      ensures KeepsFailure(s1, op, g, ip, e.at)
    {
      ReachesFrame(s, s1, op, g);
    }
    FailurePersists(s1, ops, g, ip, e.at);
    RunFrame(s1, ops);
    var after := Run(s1, ops);
    if Healthy(after.groups[g].cands, now, s.penalty) != [] {
      FailedIsNotBest(after, g, host, ip, e.at, now);
    }
  }

  /** Pinning does cut the cool-down short: right after it the pinned address is routed to at every moment. */
  lemma PinEndsCoolDown(s: Sel, g: nat, name: string, ip: IpAddr, host: string, now: nat)
    requires Find(s, name) == Some(g) && Find(s, host) == Some(g)
    ensures BestIp(Apply(s, Pin(name, Some(ip))), host, now) == Some(ip)
  {
    var t := Apply(s, Pin(name, Some(ip)));
    ApplyFrame(s, Pin(name, Some(ip)));
    assert t.groups[g].cands == [Fresh(ip)];
    hide Apply, Best;
    var i := BestIsLastOfPool(t.groups[g].cands, now, s.penalty);
  }
}
