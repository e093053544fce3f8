/** The selector: groups of candidates behind locks, the routing choice, the dashboard ranking, and runs of its
    calls. */
module Selectors {
  import opened Common
  import opened HostNames
  import opened Scores
  import opened Candidates

  datatype Group = Group(def: HostDef, bundled: seq<IpAddr>, pinned: Option<IpAddr>, cands: seq<Candidate>)

  /** The whole selector state as a value. */
  datatype Sel = Sel(groups: seq<Group>, penalty: nat)

  /** The two calls that change the selector; a report carries the clock reading taken when it is applied. */
  datatype Op =
    | Report(host: string, ip: IpAddr, event: Event)
    | Pin(name: string, target: Option<IpAddr>)

  function FreshAll(ips: seq<IpAddr>): seq<Candidate> {
    seq(|ips|, i requires 0 <= i < |ips| => Fresh(ips[i]))
  }

  function Ips(cands: seq<Candidate>): seq<IpAddr> {
    seq(|cands|, i requires 0 <= i < |cands| => cands[i].ip)
  }

  function Defs(groups: seq<Group>): seq<HostDef> {
    seq(|groups|, i requires 0 <= i < |groups| => groups[i].def)
  }

  function Create(defs: seq<HostDef>, penalty: nat): Sel {
    Sel(seq(|defs|, i requires 0 <= i < |defs| => Group(defs[i], defs[i].ips, None, FreshAll(defs[i].ips))), penalty)
  }

  /** The group a host string leads to. */
  function Find(s: Sel, host: string): (r: Option<nat>)
    ensures r.Some? ==> r.value < |s.groups|
  {
    IndexOf(Defs(s.groups), host)
  }

  // ---- Reading ----

  function Key(now: nat, penalty: nat): Candidate -> Score {
    (c: Candidate) => ScoreAt(c, now, penalty)
  }

  function Outside(now: nat, penalty: nat): Candidate -> bool {
    (c: Candidate) => !InWindow(c, now, penalty)
  }

  /** The candidates whose last failure lies outside the penalty window. */
  function Healthy(cands: seq<Candidate>, now: nat, penalty: nat): (r: seq<Candidate>)
    ensures forall c :: c in r <==> c in cands && !InWindow(c, now, penalty)
  {
    FilterMembers(cands, Outside(now, penalty));
    Filter(cands, Outside(now, penalty))
  }

  function Pool(cands: seq<Candidate>, now: nat, penalty: nat): seq<Candidate> {
    if Healthy(cands, now, penalty) == [] then cands else Healthy(cands, now, penalty)
  }

  /** The candidate the routing picks: the last best of the pool. */
  function Best(cands: seq<Candidate>, now: nat, penalty: nat): Candidate
    requires cands != []
  {
    LastMaxOf(Pool(cands, now, penalty), Key(now, penalty))
  }

  function BestIp(s: Sel, host: string, now: nat): Option<IpAddr> {
    match Find(s, host)
    case None => None
    case Some(i) =>
      var cands := s.groups[i].cands;
      if cands == [] then None else Some(Best(cands, now, s.penalty).ip)
  }

  function Refreshed(c: Candidate, now: nat, penalty: nat): Candidate {
    c.(down := c.down && InWindow(c, now, penalty))
  }

  function RefreshedAll(cands: seq<Candidate>, now: nat, penalty: nat): seq<Candidate> {
    seq(|cands|, i requires 0 <= i < |cands| => Refreshed(cands[i], now, penalty))
  }

  /** The dashboard's order of one group's candidates. */
  function Ranked(cands: seq<Candidate>, now: nat, penalty: nat): seq<Candidate> {
    SortDesc(RefreshedAll(cands, now, penalty), Key(now, penalty))
  }

  function Resolve(s: Sel, current: Option<IpAddr>, host: string, port: nat, now: nat): Option<(IpAddr, nat)> {
    if current.Some? then Some((current.value, port))
    else if HostFor(Defs(s.groups), host).Some? then
      match BestIp(s, host, now)
      case Some(ip) => Some((ip, if Find(s, host).Some? then s.groups[Find(s, host).value].def.upstreamPort else port))
      case None => None
    else None
  }

  /** The definition with the live address list. */
  function LiveDef(g: Group): HostDef {
    g.def.(ips := Ips(g.cands))
  }

  /** The definition says what the group's does, but for the addresses: those are the candidates', in order. */
  predicate IsLive(def: HostDef, g: Group) {
    && def.name == g.def.name && def.domainMap == g.def.domainMap
    && def.upstreamPort == g.def.upstreamPort && def.testUrl == g.def.testUrl
    && |def.ips| == |g.cands| && forall k :: 0 <= k < |def.ips| ==> def.ips[k] == g.cands[k].ip
  }

  function AllLive(s: Sel): (r: seq<HostDef>)
    ensures |r| == |s.groups|
    ensures forall i :: 0 <= i < |s.groups| ==> r[i] == LiveDef(s.groups[i])
  {
    seq(|s.groups|, i requires 0 <= i < |s.groups| => LiveDef(s.groups[i]))
  }

  function LiveFor(s: Sel, host: string): Option<HostDef> {
    match Find(s, host)
    case None => None
    case Some(i) => Some(LiveDef(s.groups[i]))
  }

  // ---- Changing ----

  /** Updates the first candidate with this address, if there is one. */
  function UpdateFirst(cands: seq<Candidate>, ip: IpAddr, e: Event, penalty: nat): (r: seq<Candidate>)
    ensures |r| == |cands|
  {
    if cands == [] then []
    else if cands[0].ip == ip then [Updated(cands[0], e, penalty)] + cands[1..]
    else [cands[0]] + UpdateFirst(cands[1..], ip, e, penalty)
  }

  function PinList(g: Group, target: Option<IpAddr>): seq<IpAddr> {
    if target.Some? then [target.value] else g.bundled
  }

  /** The call changes group g. */
  predicate Reaches(s: Sel, op: Op, g: nat) {
    match op
    case Report(host, _, _) => Find(s, host) == Some(g)
    case Pin(name, target) => Find(s, name) == Some(g) && PinList(s.groups[g], target) != []
  }

  function Change(group: Group, op: Op, penalty: nat): Group {
    match op
    case Report(_, ip, e) => group.(cands := UpdateFirst(group.cands, ip, e, penalty))
    case Pin(_, target) => group.(pinned := target, cands := FreshAll(PinList(group, target)))
  }

  function Apply(s: Sel, op: Op): (r: Sel)
    ensures r.penalty == s.penalty && |r.groups| == |s.groups|
  {
    var i := match op case Report(host, _, _) => Find(s, host) case Pin(name, _) => Find(s, name);
    if i.None? || (op.Pin? && PinList(s.groups[i.value], op.target) == []) then s
    else s.(groups := s.groups[i.value := Change(s.groups[i.value], op, s.penalty)])
  }

  function Run(s: Sel, ops: seq<Op>): (r: Sel)
    ensures r.penalty == s.penalty && |r.groups| == |s.groups|
  {
    if ops == [] then s else Apply(Run(s, ops[..|ops| - 1]), ops[|ops| - 1])
  }

  // ---- Frames ----

  lemma ApplyFrame(s: Sel, op: Op)
    ensures Defs(Apply(s, op).groups) == Defs(s.groups)
    ensures forall g: nat :: g < |s.groups| ==>
              Apply(s, op).groups[g].bundled == s.groups[g].bundled
              && Apply(s, op).groups[g].def == s.groups[g].def
              && Apply(s, op).groups[g] == if Reaches(s, op, g) then Change(s.groups[g], op, s.penalty) else s.groups[g]
  {
  }

  lemma ReachesFrame(s: Sel, t: Sel, op: Op, g: nat)
    requires g < |s.groups| == |t.groups| && Defs(s.groups) == Defs(t.groups)
    requires s.groups[g].bundled == t.groups[g].bundled
    ensures Reaches(s, op, g) <==> Reaches(t, op, g)
  {
  }

  lemma {:induction false} RunFrame(s: Sel, ops: seq<Op>)
    ensures Defs(Run(s, ops).groups) == Defs(s.groups)
    ensures forall g: nat :: g < |s.groups| ==>
              Run(s, ops).groups[g].bundled == s.groups[g].bundled && Run(s, ops).groups[g].def == s.groups[g].def
    ensures forall g: nat :: g < |s.groups| && (forall op :: op in ops ==> !Reaches(s, op, g)) ==>
              Run(s, ops).groups[g] == s.groups[g]
  {
    if ops != [] {
      var init, last := ops[..|ops| - 1], ops[|ops| - 1];
      RunFrame(s, init);
      ApplyFrame(Run(s, init), last);
      forall g: nat | g < |s.groups|
        ensures Reaches(Run(s, init), last, g) <==> Reaches(s, last, g)
      {
        ReachesFrame(s, Run(s, init), last, g);
      }
      assert last in ops && forall op :: op in init ==> op in ops;
    }
  }

  lemma {:induction false} RunAppend(s: Sel, a: seq<Op>, b: seq<Op>)
    ensures Run(s, a + b) == Run(Run(s, a), b)
  {
    if b == [] {
      assert a + b == a;
    } else {
      var n := |b| - 1;
      RunAppend(s, a, b[..n]);
      assert (a + b)[..|a + b| - 1] == a + b[..n];
    }
  }

  function Reaching(s: Sel, g: nat): Op -> bool {
    (op: Op) => Reaches(s, op, g)
  }

  /** What a run makes of one group is decided by the calls that reach the group alone. */
  lemma {:induction false} RunProjects(s: Sel, ops: seq<Op>, g: nat)
    requires g < |s.groups|
    ensures Run(s, ops).groups[g] == Run(s, Filter(ops, Reaching(s, g))).groups[g]
  {
    hide Reaches, Apply;
    if ops != [] {
      var init, op := ops[..|ops| - 1], ops[|ops| - 1];
      var few := Filter(init, Reaching(s, g));
      RunProjects(s, init, g);
      SameChange(s, init, few, op, g);
      assert (few + [op])[..|few|] == few;
      assert few + [] == few;
    }
  }

  lemma SameChange(s: Sel, a: seq<Op>, b: seq<Op>, op: Op, g: nat)
    requires g < |s.groups| && Run(s, a).groups[g] == Run(s, b).groups[g]
    ensures Apply(Run(s, a), op).groups[g]
         == if Reaches(s, op, g) then Apply(Run(s, b), op).groups[g] else Run(s, b).groups[g]
  {
    RunFrame(s, a);
    RunFrame(s, b);
    ReachesFrame(s, Run(s, a), op, g);
    ReachesFrame(s, Run(s, b), op, g);
    ApplyFrame(Run(s, a), op);
    ApplyFrame(Run(s, b), op);
  }
}
