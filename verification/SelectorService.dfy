/** The shared selector object: each method is one call under the group's locks, proved against the state functions. */
module SelectorService {
  import opened Common
  import opened HostNames
  import opened Scores
  import opened Candidates
  import opened Selectors
  import opened Ranking
  import opened SelectorRuns

  /** One group as the dashboard sees it. */
  datatype HostState = HostState(
    name: string,
    domains: seq<string>,
    upstreamPort: nat,
    candidates: seq<Candidate>,
    pinnedIp: Option<IpAddr>)

  /** The entry is that of the group at this moment: its candidates with refreshed flags, the up ones first and fastest
      first, ties in list order. */
  ghost predicate Shows(view: HostState, g: Group, now: nat, penalty: nat) {
    && view.name == g.def.name && view.upstreamPort == g.def.upstreamPort && view.pinnedIp == g.pinned
    && |view.domains| == |g.def.domainMap|
    && (forall k :: 0 <= k < |view.domains| ==> view.domains[k] == g.def.domainMap[k].0)
    && multiset(view.candidates) == multiset(RefreshedAll(g.cands, now, penalty))
    && FastestFirst(view.candidates)
    && view.candidates == Ranked(g.cands, now, penalty)
  }

  lemma RefreshedIs(c: Candidate, now: nat, penalty: nat)
    ensures Refreshed(c, now, penalty) == c.(down := c.down && SatSub(now, c.lastFail) <= penalty)
  {
  }

  lemma ReportChanges(s: Sel, host: string, ip: IpAddr, e: Event, i: nat)
    requires Find(s, host) == Some(i)
    ensures Apply(s, Report(host, ip, e))
         == Sel(s.groups[i := s.groups[i].(cands := UpdateFirst(s.groups[i].cands, ip, e, s.penalty))], s.penalty)
  {
  }

  class Selector {
    var groups: seq<Group>
    const penalty: nat

    ghost function State(): Sel
      reads this
    {
      Sel(groups, penalty)
    }

    constructor (defs: seq<HostDef>, penalty: nat)
      ensures State() == Create(defs, penalty)
    {
      this.groups := seq(|defs|,
                         i requires 0 <= i < |defs| => Group(defs[i], defs[i].ips, None, FreshAll(defs[i].ips)));
      this.penalty := penalty;
    }

    /** Applies one outcome to the first candidate of the host's group with this address; unknown hosts and
        addresses are ignored. */
    method UpdateResult(host: string, ip: IpAddr, e: Event)
      modifies this`groups
      ensures State() == Apply(old(State()), Report(host, ip, e))
    {
      hide UpdateFirst;
      var found := IndexOf(Defs(groups), host);
      if found.None? {
        return;
      }
      hide Apply;
      var i := found.value;
      ReportChanges(State(), host, ip, e, i);
      var cands := RecordFirst(groups[i].cands, ip, e);
      groups := groups[i := groups[i].(cands := cands)];
    }

    /** Writes one outcome into the first candidate with this address. */
    method RecordFirst(before: seq<Candidate>, ip: IpAddr, e: Event) returns (cands: seq<Candidate>)
      ensures cands == UpdateFirst(before, ip, e, penalty)
    {
      hide UpdateFirst, Updated;
      cands := before;
      var k := 0;
      while k < |cands| && cands[k].ip != ip
        invariant 0 <= k <= |cands| && cands == before
        invariant forall j :: 0 <= j < k ==> cands[j].ip != ip
      {
        k := k + 1;
      }
      UpdateFirstReplaces(before, ip, e, penalty, k);
      if k < |cands| {
        var c := Record(cands[k], e);
        cands := cands[k := c];
      }
    }

    /** Writes one outcome into a candidate, field by field. */
    method Record(before: Candidate, e: Event) returns (c: Candidate)
      ensures c == Updated(before, e, penalty)
    {
      c := before;
      if e.success {
        if e.latencyMs.Some? {
          c := c.(latencyMs := e.latencyMs);
        }
        if e.speedKbps.Some? {
          c := c.(speedKbps := e.speedKbps);
        }
        c := c.(lastOk := e.at, fails := 0);
      } else {
        c := c.(lastFail := e.at);
        c := c.(fails := if c.fails >= U32_MAX then U32_MAX else c.fails + 1);
      }
      c := c.(down := SatSub(e.at, c.lastFail) <= penalty && c.fails > 0);
    }

    method MarkFailure(host: string, ip: IpAddr, at: nat)
      modifies this`groups
      ensures State() == Apply(old(State()), Report(host, ip, Event(at, None, None, false)))
    {
      UpdateResult(host, ip, Event(at, None, None, false));
    }

    /** Pins a group, or restores its bundled list; fails on an unknown group and on an empty list to restore. */
    method SetPinnedIp(name: string, target: Option<IpAddr>) returns (ok: bool)
      modifies this`groups
      ensures State() == Apply(old(State()), Pin(name, target))
      ensures ok <==> exists g: nat :: g < |old(groups)| && Reaches(old(State()), Pin(name, target), g)
    {
      var found := IndexOf(Defs(groups), name);
      if found.None? {
        return false;
      }
      var i := found.value;
      var ips := if target.Some? then [target.value] else groups[i].bundled;
      if ips == [] {
        return false;
      }
      groups := groups[i := groups[i].(pinned := target)];
      groups := groups[i := groups[i].(cands := FreshAll(ips))];
      assert Reaches(old(State()), Pin(name, target), i);
      return true;
    }

    /** The address to route a host to: none exactly when no group is found or its list is empty, else the one at the
        position of the list that holds the last best of the eligible candidates. */
    method PickIp(host: string, now: nat) returns (r: Option<IpAddr>)
      ensures r.None? <==> Find(State(), host).None? || groups[Find(State(), host).value].cands == []
      ensures r.Some? ==> exists p: nat :: RoutedAt(groups[Find(State(), host).value].cands, now, penalty, p)
                                           && r.value == groups[Find(State(), host).value].cands[p].ip
      ensures r == BestIp(State(), host, now)
    {
      hide LastMaxOf, Healthy, RoutedAt;
      var found := IndexOf(Defs(groups), host);
      if found.None? {
        return None;
      }
      var cands := groups[found.value].cands;
      if cands == [] {
        return None;
      }
      ghost var p := BestIsLastEligible(cands, now, penalty);
      var healthy := PickHealthy(cands, now);
      var pool := if healthy == [] then cands else healthy;
      var best := PickLastMax(pool, now);
      r := Some(best.ip);
    }

    /** The candidates that last failed before the penalty window. */
    method PickHealthy(cands: seq<Candidate>, now: nat) returns (healthy: seq<Candidate>)
      ensures healthy == Healthy(cands, now, penalty)
    {
      healthy := [];
      for i := 0 to |cands|
        invariant healthy == Filter(cands[..i], Outside(now, penalty))
      {
        assert cands[..i + 1][..i] == cands[..i];
        if SatSub(now, cands[i].lastFail) > penalty {
          healthy := healthy + [cands[i]];
        }
      }
      assert cands[..|cands|] == cands;
    }

    /** A running maximum that a later candidate replaces unless it scores less. */
    method PickLastMax(pool: seq<Candidate>, now: nat) returns (best: Candidate)
      requires pool != []
      ensures best == LastMaxOf(pool, Key(now, penalty))
    {
      hide ScoreAt;
      best := pool[0];
      for i := 1 to |pool|
        invariant best == LastMaxOf(pool[..i], Key(now, penalty))
      {
        assert pool[..i + 1][..i] == pool[..i];
        if !Less(ScoreAt(pool[i], now, penalty), ScoreAt(best, now, penalty)) {
          best := pool[i];
        }
      }
      assert pool[..|pool|] == pool;
    }

    /** The dashboard's view; group i is read at clock reading clock[i]. */
    method Snapshot(clock: seq<nat>) returns (out: seq<HostState>)
      requires |clock| == |groups|
      ensures |out| == |groups|
      ensures forall i :: 0 <= i < |groups| ==> Shows(out[i], groups[i], clock[i], penalty)
    {
      hide Shows;
      out := [];
      for i := 0 to |groups|
        invariant |out| == i
        invariant forall k :: 0 <= k < i ==> Shows(out[k], groups[k], clock[k], penalty)
      {
        var view := Show(groups[i], clock[i]);
        out := out + [view];
      }
    }

    /** One group's entry: its candidates with refreshed flags, sorted. */
    method Show(h: Group, now: nat) returns (view: HostState)
      ensures Shows(view, h, now, penalty)
    {
      hide Refreshed, FastestFirst;
      var sorted := h.cands;
      for k := 0 to |sorted|
        invariant |sorted| == |h.cands|
        invariant forall j :: 0 <= j < |sorted| ==>
                    sorted[j] == if j < k then Refreshed(h.cands[j], now, penalty) else h.cands[j]
      {
        assert sorted[k].(down := sorted[k].down && SatSub(now, sorted[k].lastFail) <= penalty)
            == Refreshed(h.cands[k], now, penalty) by {
          RefreshedIs(h.cands[k], now, penalty);
        }
        sorted := sorted[k := sorted[k].(down := sorted[k].down && SatSub(now, sorted[k].lastFail) <= penalty)];
      }
      assert sorted == RefreshedAll(h.cands, now, penalty);
      sorted := SortDesc(sorted, Key(now, penalty));
      RankedFastestFirst(h.cands, now, penalty);
      var domains := seq(|h.def.domainMap|, i requires 0 <= i < |h.def.domainMap| => h.def.domainMap[i].0);
      view := HostState(h.def.name, domains, h.def.upstreamPort, sorted, h.pinned);
    }

    /** The definitions with the live address lists. */
    method LiveDefs() returns (out: seq<HostDef>)
      ensures |out| == |groups| && forall i :: 0 <= i < |out| ==> IsLive(out[i], groups[i])
      ensures out == AllLive(State())
    {
      out := [];
      for i := 0 to |groups|
        invariant |out| == i
        invariant forall k :: 0 <= k < i ==> out[k] == LiveDef(groups[k])
      {
        var def := groups[i].def;
        def := def.(ips := Ips(groups[i].cands));
        out := out + [def];
      }
    }

    /** The definition of the group that claims the host first, by name or by domain, with its live addresses;
        none exactly when no group claims it. */
    method DefForHost(host: string) returns (r: Option<HostDef>)
      ensures r.None? <==> forall g: nat :: !Claims(Defs(groups), host, g)
      ensures r.Some? ==> exists g: nat :: Claims(Defs(groups), host, g) && IsLive(r.value, groups[g])
                                           && forall k: nat :: k < g ==> !Claims(Defs(groups), host, k)
      ensures r == LiveFor(State(), host)
    {
      var found := IndexOf(Defs(groups), host);
      IndexOfFinds(Defs(groups), host);
      if found.None? {
        return None;
      }
      var def := groups[found.value].def;
      def := def.(ips := Ips(groups[found.value].cands));
      return Some(def);
    }
  }

  /** Other tasks' calls on the shared selector. */
  method Interfere(selector: Selector, ops: seq<Op>)
    modifies selector`groups
    ensures selector.State() == Run(old(selector.State()), ops)
  {
    for i := 0 to |ops|
      invariant selector.State() == Run(old(selector.State()), ops[..i])
    {
      assert ops[..i + 1][..i] == ops[..i];
      match ops[i] {
        case Report(host, ip, e) => selector.UpdateResult(host, ip, e);
        case Pin(name, target) => var _ := selector.SetPinnedIp(name, target);
      }
    }
    assert ops[..|ops|] == ops;
  }

  // ---- Overlapping pin calls ----

  /** One of the two separate lock acquisitions of a pin call on a group. */
  datatype LockStep = WritePinned(target: Option<IpAddr>) | WriteList(target: Option<IpAddr>)

  function TakeLock(g: Group, step: LockStep): Group {
    match step
    case WritePinned(target) => g.(pinned := target)
    case WriteList(target) => g.(cands := FreshAll(PinList(g, target)))
  }

  function TakeLocks(g: Group, steps: seq<LockStep>): Group
    decreases |steps|
  {
    if steps == [] then g else TakeLocks(TakeLock(g, steps[0]), steps[1..])
  }

  /** The value that the last write of the pin asked for, or the one given when there is none. */
  function LastPinned(steps: seq<LockStep>, initial: Option<IpAddr>): Option<IpAddr>
    decreases |steps|
  {
    if steps == [] then initial
    else LastPinned(steps[1..], if steps[0].WritePinned? then steps[0].target else initial)
  }

  /** The value that the last write of the address list was computed from. */
  function LastListed(steps: seq<LockStep>, initial: Option<IpAddr>): Option<IpAddr>
    decreases |steps|
  {
    if steps == [] then initial
    else LastListed(steps[1..], if steps[0].WriteList? then steps[0].target else initial)
  }

  /** Any number of pin calls on one group, their lock acquisitions interleaved in any way and possibly incomplete,
      leave the pin and the address list in agreement exactly when the last pin write and the last list write ask for
      the same list. */
  lemma {:induction false} OverlappingPins(g: Group, listed: Option<IpAddr>, steps: seq<LockStep>)
    requires Ips(g.cands) == PinList(g, listed)
    ensures var r := TakeLocks(g, steps);
            && r.pinned == LastPinned(steps, g.pinned) && Ips(r.cands) == PinList(g, LastListed(steps, listed))
            && (Ips(r.cands) == PinList(r, r.pinned)
                <==> PinList(g, LastPinned(steps, g.pinned)) == PinList(g, LastListed(steps, listed)))
    ensures TakeLocks(g, steps).bundled == g.bundled
    decreases |steps|
  {
    if steps != [] {
      var h := TakeLock(g, steps[0]);
      if steps[0].WriteList? {
        assert Ips(h.cands) == PinList(g, steps[0].target);
        OverlappingPins(h, steps[0].target, steps[1..]);
      } else {
        OverlappingPins(h, listed, steps[1..]);
      }
    }
  }
}
