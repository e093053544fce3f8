/** What a speed-test pass guarantees: each task once, the same outcome in any completion order, other groups
    untouched. */
module PassProperties {
  import Activity
  import opened Common
  import opened HostNames
  import opened Endpoints
  import opened Candidates
  import opened Selectors
  import opened SelectorRuns
  import opened SpeedTest

  // ---- Each measured task is reported exactly once ----

  /** The elements of w at the given positions. */
  function Pick<T>(w: seq<T>, at: seq<nat>): (r: seq<T>)
    requires forall i :: 0 <= i < |at| ==> at[i] < |w|
    ensures |r| == |at|
    ensures forall i :: 0 <= i < |at| ==> r[i] == w[at[i]]
  {
    seq(|at|, i requires 0 <= i < |at| => w[at[i]])
  }

  function Renumber(at: seq<nat>, v: nat): (r: seq<nat>)
    ensures |r| == |at|
    ensures forall i :: 0 <= i < |at| ==> r[i] == if at[i] > v then at[i] - 1 else at[i]
  {
    seq(|at|, i requires 0 <= i < |at| => if at[i] > v then at[i] - 1 else at[i])
  }

  lemma {:induction false} PickWithin<T>(w: seq<T>, at: seq<nat>)
    requires Distinct(at) && forall i :: 0 <= i < |at| ==> at[i] < |w|
    ensures |at| <= |w| && multiset(Pick(w, at)) <= multiset(w)
    decreases |at|
  {
    if at != [] {
      var n := |at| - 1;
      var v := at[n];
      var rest, front := w[..v] + w[v + 1..], Renumber(at[..n], v);
      assert forall i :: 0 <= i < n ==> at[i] != v;
      PickWithin(rest, front);
      assert Pick(rest, front) == Pick(w, at[..n]);
      assert Pick(w, at) == Pick(w, at[..n]) + [w[v]];
      CutOut(w, v);
    }
  }

  lemma SubMultisetOfSameSize<T>(a: multiset<T>, b: multiset<T>)
    requires a <= b && |a| == |b|
    ensures a == b
  {
    assert b == a + (b - a);
    assert |b - a| == 0;
  }

  /** Picking every position once permutes. */
  lemma PickPermutes<T>(w: seq<T>, at: seq<nat>)
    requires Distinct(at) && |at| == |w| && forall i :: 0 <= i < |at| ==> at[i] < |w|
    ensures multiset(Pick(w, at)) == multiset(w)
  {
    PickWithin(w, at);
    SubMultisetOfSameSize(multiset(Pick(w, at)), multiset(w));
  }

  /** The tasks that a list of reports is about. */
  function TasksIn(ops: seq<Op>): (r: seq<Task>)
    requires forall op :: op in ops ==> op.Report?
    ensures |r| == |ops|
    ensures forall i :: 0 <= i < |ops| ==> r[i] == Task(ops[i].host, ops[i].ip)
  {
    seq(|ops|, i requires 0 <= i < |ops| => Task(ops[i].host, ops[i].ip))
  }

  /** The calls are reports, one for each of the tasks. */
  ghost predicate ReportEachOnce(ops: seq<Op>, tasks: seq<Task>) {
    (forall op :: op in ops ==> op.Report?) && multiset(TasksIn(ops)) == multiset(tasks)
  }

  lemma WaveReportsOnce(wave: seq<Task>, done: seq<Completion>)
    requires CompletesAll(done, |wave|) && forall c :: c in done ==> c.index < |wave|
    ensures ReportEachOnce(WaveOps(wave, done), wave)
  {
    var at: seq<nat> := seq(|done|, i requires 0 <= i < |done| => done[i].index);
    PickPermutes(wave, at);
    assert TasksIn(WaveOps(wave, done)) == Pick(wave, at);
  }

  lemma BothOnce(a: seq<Op>, b: seq<Op>, first: seq<Task>, second: seq<Task>)
    requires ReportEachOnce(a, first) && ReportEachOnce(b, second)
    ensures ReportEachOnce(a + b, first + second)
  {
    assert TasksIn(a + b) == TasksIn(a) + TasksIn(b);
  }

  /** Over the first waves of a pass, every task covered so far is reported exactly once and no other is. */
  lemma {:induction false} EachTaskOnce(tasks: seq<Task>, script: seq<Wave>, width: nat, k: nat)
    requires width > 0 && Plays(script, tasks, width) && k <= |script|
    ensures |PassOps(tasks, script, width, k)| == Covered(|tasks|, width, k) == |PassRecords(tasks, script, width, k)|
    ensures Covered(|tasks|, width, k) <= |tasks|
    ensures ReportEachOnce(PassOps(tasks, script, width, k), tasks[..Covered(|tasks|, width, k)])
  {
    hide Covered, CompletesAll, Plays, WaveOps, WaveRecords, WaveOf, ReportEachOnce;
    if k == 0 {
      NothingCovered(|tasks|, width);
      NothingReported();
      assert tasks[..0] == [];
    } else {
      EachTaskOnce(tasks, script, width, k - 1);
      var wave := WaveOf(tasks, width, k - 1);
      PlaysWave(tasks, script, width, k - 1);
      WaveReportsOnce(wave, script[k - 1].done);
      NextPrefix(tasks, width, k - 1);
      BothOnce(PassOps(tasks, script, width, k - 1), WaveOps(wave, script[k - 1].done),
               tasks[..Covered(|tasks|, width, k - 1)], wave);
    }
  }

  /** The calls made while a pass runs are its own and those of other tasks, no more and no fewer. */
  lemma {:induction false} CallsAreOwnAndOthers(tasks: seq<Task>, script: seq<Wave>, width: nat, k: nat)
    requires width > 0 && Plays(script, tasks, width) && k <= |script|
    ensures multiset(PassCalls(tasks, script, width, k))
         == multiset(PassOps(tasks, script, width, k)) + multiset(PassOthers(script, k))
  {
    hide Plays, WaveOps, WaveCalls, WaveOf;
    if k > 0 {
      CallsAreOwnAndOthers(tasks, script, width, k - 1);
      PlaysWave(tasks, script, width, k - 1);
      var wave, w := WaveOf(tasks, width, k - 1), script[k - 1];
      WaveOwnAndOthers(wave, w.done);
      Mix(PassCalls(tasks, script, width, k - 1), PassOps(tasks, script, width, k - 1), PassOthers(script, k - 1),
          w.before, WaveCalls(wave, w.done), WaveOps(wave, w.done), WaveOthers(w.done));
    }
  }

  lemma Mix(calls: seq<Op>, ops: seq<Op>, others: seq<Op>, before: seq<Op>, more: seq<Op>, moreOps: seq<Op>,
            moreOthers: seq<Op>)
    requires multiset(calls) == multiset(ops) + multiset(others)
    requires multiset(more) == multiset(moreOps) + multiset(moreOthers)
    ensures multiset(calls + before + more) == multiset(ops + moreOps) + multiset(others + before + moreOthers)
  {
  }

  lemma {:induction false} WaveOwnAndOthers(wave: seq<Task>, done: seq<Completion>)
    requires forall c :: c in done ==> c.index < |wave|
    ensures multiset(WaveCalls(wave, done)) == multiset(WaveOps(wave, done)) + multiset(WaveOthers(done))
  {
    hide WaveOps;
    if done == [] {
      assert WaveOps(wave, done) == [];
    } else {
      WaveOwnAndOthers(wave, done[..|done| - 1]);
      OpsOneMore(wave, done);
    }
  }

  lemma NothingReported()
    ensures ReportEachOnce([], [])
  {
  }

  lemma NextPrefix(tasks: seq<Task>, width: nat, k: nat)
    ensures Covered(|tasks|, width, k) <= Covered(|tasks|, width, k + 1) <= |tasks|
    ensures tasks[..Covered(|tasks|, width, k + 1)] == tasks[..Covered(|tasks|, width, k)] + WaveOf(tasks, width, k)
  {
    CoveredGrows(|tasks|, width, k);
  }

  lemma NothingCovered(total: nat, width: nat)
    ensures Covered(total, width, 0) == 0
  {
  }

  lemma PlaysWave(tasks: seq<Task>, script: seq<Wave>, width: nat, k: nat)
    requires Plays(script, tasks, width) && k < |script|
    ensures Covered(|tasks|, width, k) <= Covered(|tasks|, width, k + 1)
    ensures CompletesAll(script[k].done, |WaveOf(tasks, width, k)|)
    ensures forall c :: c in script[k].done ==> c.index < |WaveOf(tasks, width, k)|
    ensures |script[k].done| == Covered(|tasks|, width, k + 1) - Covered(|tasks|, width, k) <= width
  {
    CoveredGrows(|tasks|, width, k);
  }

  // ---- Completion order does not matter ----

  /** The group a call is addressed to. */
  function Addressee(s: Sel, op: Op): Option<nat> {
    match op
    case Report(host, _, _) => Find(s, host)
    case Pin(name, _) => Find(s, name)
  }

  /** Two calls that cannot touch the same candidate: they go to different groups, or report about different
      addresses. */
  predicate Independent(s: Sel, a: Op, b: Op) {
    Addressee(s, a).None? || Addressee(s, a) != Addressee(s, b) || (a.Report? && b.Report? && a.ip != b.ip)
  }

  lemma {:induction false} UpdatesCommute(cands: seq<Candidate>, ip1: IpAddr, e1: Event, ip2: IpAddr, e2: Event,
                                          penalty: nat)
    requires ip1 != ip2
    ensures UpdateFirst(UpdateFirst(cands, ip1, e1, penalty), ip2, e2, penalty)
         == UpdateFirst(UpdateFirst(cands, ip2, e2, penalty), ip1, e1, penalty)
  {
    if cands != [] {
      UpdatesCommute(cands[1..], ip1, e1, ip2, e2, penalty);
    }
  }

  lemma CallsCommute(s: Sel, a: Op, b: Op)
    requires Independent(s, a, b)
    ensures Apply(Apply(s, a), b) == Apply(Apply(s, b), a)
  {
    ApplyFrame(s, a);
    ApplyFrame(s, b);
    var i, j := Addressee(s, a), Addressee(s, b);
    if i.Some? && i == j {
      UpdatesCommute(s.groups[i.value].cands, a.ip, a.event, b.ip, b.event, s.penalty);
    }
  }

  lemma IndependentFrame(s: Sel, t: Sel, a: Op, b: Op)
    requires Defs(s.groups) == Defs(t.groups)
    ensures Independent(s, a, b) <==> Independent(t, a, b)
  {
  }

  /** A call can be moved behind any that it is independent of (or equal to). */
  lemma {:induction false} MoveBehind(s: Sel, x: Op, ops: seq<Op>)
    requires forall y :: y in ops ==> y == x || Independent(s, x, y)
    ensures Run(Apply(s, x), ops) == Apply(Run(s, ops), x)
  {
    if ops != [] {
      var front, y := ops[..|ops| - 1], ops[|ops| - 1];
      assert y in ops && forall z :: z in front ==> z in ops;
      MoveBehind(s, x, front);
      RunFrame(s, front);
      if y != x {
        IndependentFrame(s, Run(s, front), x, y);
        CallsCommute(Run(s, front), x, y);
      }
    }
  }

  ghost predicate PairwiseIndependent(s: Sel, ops: seq<Op>) {
    forall x, y :: x in ops && y in ops && x != y ==> Independent(s, x, y)
  }

  /** Pairwise independent calls lead to the same state in every order. */
  lemma {:induction false} CallsConfluent(s: Sel, a: seq<Op>, b: seq<Op>)
    requires multiset(a) == multiset(b) && PairwiseIndependent(s, a)
    ensures Run(s, a) == Run(s, b)
    decreases |a|
  {
    hide Run, Apply, Independent;
    if a == [] {
      EmptyPermutation(b);
    } else {
      var i := TakeOutLast(a, b);
      var front, x, l, r := a[..|a| - 1], b[i], b[..i], b[i + 1..];
      CallsConfluent(s, front, l + r);
      LastStep(s, front, x);
      assert a == front + [x];
      SameElements(a, b);
      assert x in a && forall y :: y in r ==> y in b;
      assert forall y :: y in r ==> y == x || Independent(s, x, y);
      MoveToEnd(s, l, x, r);
    }
  }

  lemma LastStep(s: Sel, front: seq<Op>, x: Op)
    ensures Run(s, front + [x]) == Apply(Run(s, front), x)
  {
    assert (front + [x])[..|front|] == front;
  }

  lemma MoveToEnd(s: Sel, l: seq<Op>, x: Op, r: seq<Op>)
    requires forall y :: y in r ==> y == x || Independent(s, x, y)
    ensures Run(s, l + [x] + r) == Apply(Run(s, l + r), x)
  {
    hide Run, Apply, Independent;
    forall y | y in r
      ensures y == x || Independent(Run(s, l), x, y)
    {
      RunFrame(s, l);
      if y != x {
        IndependentFrame(s, Run(s, l), x, y);
      }
    }
    LastStep(s, l, x);
    MoveBehind(Run(s, l), x, r);
    RunAppend(s, l + [x], r);
    RunAppend(s, l, r);
  }

  /** No two groups are reached by each other's names. */
  ghost predicate NamesApart(s: Sel) {
    forall i, j :: 0 <= i < j < |s.groups| ==>
      Find(s, s.groups[i].def.name).None? || Find(s, s.groups[i].def.name) != Find(s, s.groups[j].def.name)
  }

  predicate TasksApart(s: Sel, t: Task, u: Task) {
    Find(s, t.group).None? || Find(s, t.group) != Find(s, u.group) || t.ip != u.ip
  }

  /** The tasks at two positions concern different candidates. */
  ghost predicate AllApart(s: Sel, tasks: seq<Task>) {
    forall i, j :: 0 <= i < j < |tasks| ==> TasksApart(s, tasks[i], tasks[j])
  }

  lemma {:induction false} TaskOrigin(defs: seq<HostDef>, usable: HostDef -> bool, t: Task)
    requires t in AllTasks(defs, usable)
    ensures exists i :: 0 <= i < |defs| && defs[i].name == t.group
  {
    var front, last := defs[..|defs| - 1], defs[|defs| - 1];
    if t in AllTasks(front, usable) {
      TaskOrigin(front, usable, t);
      var i :| 0 <= i < |front| && front[i].name == t.group;
      assert defs[i].name == t.group;
    } else {
      assert t in TasksOf(last);
      assert defs[|defs| - 1].name == t.group;
    }
  }

  /** Distinct live addresses and names apart make all tasks of the list concern different candidates. */
  lemma {:induction false} TasksAreApart(s: Sel, defs: seq<HostDef>, usable: HostDef -> bool)
    requires forall i :: 0 <= i < |defs| ==> Distinct(defs[i].ips)
    requires forall i, j :: 0 <= i < j < |defs| ==>
               Find(s, defs[i].name).None? || Find(s, defs[i].name) != Find(s, defs[j].name)
    ensures AllApart(s, AllTasks(defs, usable))
  {
    if defs != [] {
      var n := |defs| - 1;
      var front, last := AllTasks(defs[..n], usable), TasksOf(defs[n]);
      TasksAreApart(s, defs[..n], usable);
      forall t, u | t in front && u in last
        ensures TasksApart(s, t, u)
      {
        TaskOrigin(defs[..n], usable, t);
        var i :| 0 <= i < n && defs[..n][i].name == t.group;
      }
      AppendApart(s, front, if usable(defs[n]) then last else []);
    }
  }

  lemma AppendApart(s: Sel, a: seq<Task>, b: seq<Task>)
    requires AllApart(s, a) && AllApart(s, b)
    requires forall t, u :: t in a && u in b ==> TasksApart(s, t, u)
    ensures AllApart(s, a + b)
  {
  }

  /** In every reachable selector state the task list of any pass concerns pairwise different candidates. */
  lemma TaskListApart(s: Sel, target: Target, parses: string -> bool)
    requires Valid(s) && NamesApart(s)
    ensures AllApart(s, TaskList(s, target, parses))
  {
    var targets := Targets(s, target);
    if targets.Some? {
      forall i | 0 <= i < |targets.value|
        ensures Distinct(targets.value[i].ips)
      {
        if target.AllGroups? {
          ValidDistinct(s.groups[i]);
        } else {
          ValidDistinct(s.groups[Find(s, target.host).value]);
        }
      }
      TasksAreApart(s, targets.value, Usable(target, parses));
    }
  }

  lemma WaveOpsIndependent(s: Sel, wave: seq<Task>, done: seq<Completion>)
    requires AllApart(s, wave) && CompletesAll(done, |wave|) && forall c :: c in done ==> c.index < |wave|
    ensures PairwiseIndependent(s, WaveOps(wave, done))
  {
    hide AllApart, Independent;
    var ops := WaveOps(wave, done);
    forall x, y | x in ops && y in ops && x != y
      ensures Independent(s, x, y)
    {
      var i :| 0 <= i < |ops| && ops[i] == x;
      var j :| 0 <= j < |ops| && ops[j] == y;
      var p, q := done[i].index, done[j].index;
      assert p != q;
      ReportsApart(s, wave, p, q, done[i].result, done[j].result);
    }
  }

  lemma ReportsApart(s: Sel, wave: seq<Task>, p: nat, q: nat, a: Measured, b: Measured)
    requires AllApart(s, wave) && p < |wave| && q < |wave| && p != q
    ensures Independent(s, ReportOf(wave[p], a), ReportOf(wave[q], b))
  {
    assert TasksApart(s, wave[if p < q then p else q], wave[if p < q then q else p]);
  }

  lemma {:induction false} WaveOpsPermute(wave: seq<Task>, a: seq<Completion>, b: seq<Completion>)
    requires multiset(a) == multiset(b)
    requires forall c :: c in a ==> c.index < |wave|
    requires forall c :: c in b ==> c.index < |wave|
    ensures multiset(WaveOps(wave, a)) == multiset(WaveOps(wave, b))
    decreases |a|
  {
    hide WaveOps;
    if a == [] {
      EmptyPermutation(b);
    } else {
      var i := TakeOutLast(a, b);
      var front, x, l, r := a[..|a| - 1], b[i], b[..i], b[i + 1..];
      WaveOpsPermute(wave, front, l + r);
      assert a == front + [x];
      WaveOpsAppend(wave, front, [x]);
      WaveOpsAppend(wave, l, [x]);
      WaveOpsAppend(wave, l + [x], r);
      WaveOpsAppend(wave, l, r);
    }
  }

  lemma WaveOpsAppend(wave: seq<Task>, a: seq<Completion>, b: seq<Completion>)
    requires forall c :: c in a ==> c.index < |wave|
    requires forall c :: c in b ==> c.index < |wave|
    ensures forall c :: c in a + b ==> c.index < |wave|
    ensures WaveOps(wave, a + b) == WaveOps(wave, a) + WaveOps(wave, b)
  {
  }

  /** The completions without the calls in between. */
  function Bare(done: seq<Completion>): (r: seq<Completion>)
    ensures |r| == |done|
    ensures forall i :: 0 <= i < |done| ==> r[i] == done[i].(others := [])
  {
    seq(|done|, i requires 0 <= i < |done| => done[i].(others := []))
  }

  /** The same wave with its results in another order among the same calls of other tasks. */
  predicate SameWave(a: Wave, b: Wave) {
    a.before == b.before && WaveOthers(a.done) == WaveOthers(b.done) && multiset(Bare(a.done)) == multiset(Bare(b.done))
  }

  ghost predicate Reordered(a: seq<Wave>, b: seq<Wave>) {
    |a| == |b| && forall k :: 0 <= k < |a| ==> SameWave(a[k], b[k])
  }

  /** The call touches no candidate the wave is about. */
  predicate Bystander(s: Sel, wave: seq<Task>, op: Op) {
    forall t :: t in wave ==>
      Find(s, t.group).None? || Find(s, t.group) != Addressee(s, op) || (op.Report? && op.ip != t.ip)
  }

  ghost predicate AllBystanders(s: Sel, wave: seq<Task>, ops: seq<Op>) {
    forall op :: op in ops ==> Bystander(s, wave, op)
  }

  /** From the moment a wave's first result is applied until its last is, other tasks' calls touch no candidate of the
      wave; before that moment they may touch any. */
  ghost predicate Undisturbed(s: Sel, tasks: seq<Task>, script: seq<Wave>, width: nat) {
    forall k: nat :: k < |script| ==> AllBystanders(s, WaveOf(tasks, width, k), WaveOthers(script[k].done))
  }

  lemma ApartFrame(s: Sel, t: Sel, tasks: seq<Task>)
    requires Defs(s.groups) == Defs(t.groups) && AllApart(s, tasks)
    ensures AllApart(t, tasks)
  {
    forall i, j | 0 <= i < j < |tasks|
      ensures TasksApart(t, tasks[i], tasks[j])
    {
      assert TasksApart(s, tasks[i], tasks[j]);
    }
  }

  /** Blocks of mutually independent calls can be swapped. */
  lemma {:induction false} SwapBlocks(s: Sel, own: seq<Op>, others: seq<Op>)
    requires forall x, y :: x in own && y in others ==> Independent(s, x, y)
    ensures Run(Run(s, own), others) == Run(Run(s, others), own)
  {
    hide Apply, Independent;
    if own != [] {
      var front, x := own[..|own| - 1], own[|own| - 1];
      assert x in own && forall z :: z in front ==> z in own;
      SwapBlocks(s, front, others);
      RunFrame(s, front);
      forall y | y in others
        ensures Independent(Run(s, front), x, y)
      {
        IndependentFrame(s, Run(s, front), x, y);
      }
      MoveBehind(Run(s, front), x, others);
    }
  }

  lemma WaveOpsAreOwn(s: Sel, wave: seq<Task>, done: seq<Completion>, others: seq<Op>)
    requires forall c :: c in done ==> c.index < |wave|
    requires AllBystanders(s, wave, others)
    ensures forall x, y :: x in WaveOps(wave, done) && y in others ==> Independent(s, x, y)
  {
    forall x, y | x in WaveOps(wave, done) && y in others
      ensures Independent(s, x, y)
    {
      var i :| 0 <= i < |done| && WaveOps(wave, done)[i] == x;
      assert wave[done[i].index] in wave && Bystander(s, wave, y);
    }
  }

  /** When other tasks' calls touch no candidate of the wave, they might as well all have come first. */
  lemma {:induction false} OthersFirst(s: Sel, wave: seq<Task>, done: seq<Completion>)
    requires forall c :: c in done ==> c.index < |wave|
    requires AllBystanders(s, wave, WaveOthers(done))
    ensures Run(s, WaveCalls(wave, done)) == Run(Run(s, WaveOthers(done)), WaveOps(wave, done))
  {
    hide Run, Apply, Independent, Bystander, WaveOps;
    if done == [] {
      RunNothing(s);
    } else {
      var n := |done| - 1;
      var front, c := done[..n], done[n];
      var mine, theirs := WaveOps(wave, front), WaveOthers(front);
      assert forall op :: op in theirs || op in c.others ==> op in WaveOthers(done);
      OthersFirst(s, wave, front);
      var u := Run(s, theirs);
      RunFrame(s, theirs);
      BystandersFrame(s, u, wave, c.others);
      WaveOpsAreOwn(u, wave, front, c.others);
      SwapBlocks(u, mine, c.others);
      RunAppend(s, theirs, c.others);
      CallsOneMore(s, wave, done, n);
      assert done[..n + 1] == done;
      OpsOneMore(wave, done);
      LastStep(Run(u, c.others), mine, ReportOf(wave[c.index], c.result));
    }
  }

  lemma OpsOneMore(wave: seq<Task>, done: seq<Completion>)
    requires done != [] && forall c :: c in done ==> c.index < |wave|
    ensures var n := |done| - 1;
            WaveOps(wave, done) == WaveOps(wave, done[..n]) + [ReportOf(wave[done[n].index], done[n].result)]
  {
  }

  lemma BystandersFrame(s: Sel, t: Sel, wave: seq<Task>, ops: seq<Op>)
    requires Defs(s.groups) == Defs(t.groups) && AllBystanders(s, wave, ops)
    ensures AllBystanders(t, wave, ops)
  {
    forall op | op in ops
      ensures Bystander(t, wave, op)
    {
      assert Bystander(s, wave, op);
    }
  }

  /** However the tasks of each wave happen to complete, amid the same calls of other tasks, the selector ends in the
      same state. */
  lemma {:induction false} PassConfluent(s: Sel, tasks: seq<Task>, width: nat, a: seq<Wave>, b: seq<Wave>, k: nat)
    requires width > 0 && AllApart(s, tasks) && Reordered(a, b) && k <= |a|
    requires Plays(a, tasks, width) && Plays(b, tasks, width)
    requires Undisturbed(s, tasks, a, width)
    ensures Run(s, PassCalls(tasks, a, width, k)) == Run(s, PassCalls(tasks, b, width, k))
  {
    hide Run, Plays, WaveOps, WaveCalls, Covered, AllApart, CompletesAll, AllBystanders, SameWave;
    if k > 0 {
      PassConfluent(s, tasks, width, a, b, k - 1);
      PlaysWave(tasks, a, width, k - 1);
      PlaysWave(tasks, b, width, k - 1);
      var earlier := PassCalls(tasks, a, width, k - 1);
      assert SameWave(a[k - 1], b[k - 1]);
      RunFrame(s, earlier);
      WaveConfluent(s, tasks, width, k - 1, Run(s, earlier), a[k - 1], b[k - 1]);
      var wave := WaveOf(tasks, width, k - 1);
      AppendWave(s, earlier, a[k - 1].before, WaveCalls(wave, a[k - 1].done));
      AppendWave(s, PassCalls(tasks, b, width, k - 1), b[k - 1].before, WaveCalls(wave, b[k - 1].done));
    }
  }

  lemma AppendWave(s: Sel, earlier: seq<Op>, before: seq<Op>, calls: seq<Op>)
    ensures Run(s, earlier + before + calls) == Run(Run(Run(s, earlier), before), calls)
  {
    RunAppend(s, earlier + before, calls);
    RunAppend(s, earlier, before);
  }

  lemma WaveConfluent(s: Sel, tasks: seq<Task>, width: nat, k: nat, u: Sel, a: Wave, b: Wave)
    requires AllApart(s, tasks)
    requires Defs(s.groups) == Defs(u.groups) && SameWave(a, b)
    requires CompletesAll(a.done, |WaveOf(tasks, width, k)|)
    requires forall c :: c in a.done ==> c.index < |WaveOf(tasks, width, k)|
    requires forall c :: c in b.done ==> c.index < |WaveOf(tasks, width, k)|
    requires AllBystanders(s, WaveOf(tasks, width, k), WaveOthers(a.done))
    ensures var wave := WaveOf(tasks, width, k);
            Run(Run(u, a.before), WaveCalls(wave, a.done)) == Run(Run(u, b.before), WaveCalls(wave, b.done))
  {
    hide Run, Apply, Covered, AllApart, CompletesAll, AllBystanders, WaveOps, WaveCalls;
    var wave, v := WaveOf(tasks, width, k), Run(u, a.before);
    var t := Run(v, WaveOthers(a.done));
    RunFrame(u, a.before);
    RunFrame(v, WaveOthers(a.done));
    BystandersFrame(s, v, wave, WaveOthers(a.done));
    OthersFirst(v, wave, a.done);
    OthersFirst(v, wave, b.done);
    CoveredGrows(|tasks|, width, k);
    PartApart(s, t, tasks, Covered(|tasks|, width, k), Covered(|tasks|, width, k + 1));
    WaveOpsIndependent(t, wave, a.done);
    BareOps(wave, a.done);
    BareOps(wave, b.done);
    WaveOpsPermute(wave, Bare(a.done), Bare(b.done));
    CallsConfluent(t, WaveOps(wave, a.done), WaveOps(wave, b.done));
  }

  lemma PartApart(s: Sel, t: Sel, tasks: seq<Task>, i: nat, j: nat)
    requires Defs(s.groups) == Defs(t.groups) && AllApart(s, tasks) && i <= j <= |tasks|
    ensures AllApart(t, tasks[i..j])
  {
    ApartFrame(s, t, tasks);
  }

  lemma BareOps(wave: seq<Task>, done: seq<Completion>)
    requires forall c :: c in done ==> c.index < |wave|
    ensures forall c :: c in Bare(done) ==> c.index < |wave|
    ensures WaveOps(wave, Bare(done)) == WaveOps(wave, done)
  {
  }

  // ---- Whole passes ----

  /** The forced flag, or the same answers of the activity check. */
  predicate SameAnswers(forced: bool, a: seq<Wave>, b: seq<Wave>) {
    forced || (|a| == |b| && forall k :: 0 <= k < |a| ==> a[k].busy == b[k].busy)
  }

  lemma {:induction false} CoveredMonotone(total: nat, width: nat, j: nat, k: nat)
    requires j <= k
    ensures Covered(total, width, j) <= Covered(total, width, k) <= total
  {
    hide Covered;
    if j < k {
      CoveredMonotone(total, width, j, k - 1);
      CoveredGrows(total, width, k - 1);
    } else {
      CoveredGrows(total, width, k);
    }
  }

  /** A pass does not stop before another that gets the same answers. */
  lemma NotBefore(s: Sel, target: Target, parses: string -> bool, maxConcurrency: nat, forced: bool,
                  a: seq<Wave>, after: Sel, measured: seq<Task>, ka: nat,
                  b: seq<Wave>, other: Sel, otherMeasured: seq<Task>, kb: nat)
    requires PassEnds(s, target, parses, maxConcurrency, forced, a, after, measured, ka)
    requires PassEnds(s, target, parses, maxConcurrency, forced, b, other, otherMeasured, kb)
    requires SameAnswers(forced, a, b)
    ensures ka >= kb
  {
    hide Plays, Run, PassCalls, Covered;
    var tasks, width := TaskList(s, target, parses), Width(maxConcurrency);
    CoveredMonotone(|tasks|, width, ka, ka);
    assert |measured| == Covered(|tasks|, width, ka);
    if ka < kb {
      CoveredMonotone(|tasks|, width, ka, kb - 1);
    }
  }

  /** Two passes over the same state, forced or with the same answers of the activity check, whose waves have the same
      results in any order, measure the same tasks and end in the same selector state; a forced pass measures them
      all. */
  lemma PassesAgree(s: Sel, target: Target, parses: string -> bool, maxConcurrency: nat, forced: bool,
                    a: seq<Wave>, after: Sel, measured: seq<Task>, ka: nat,
                    b: seq<Wave>, other: Sel, otherMeasured: seq<Task>, kb: nat)
    requires Valid(s) && NamesApart(s)
    requires PassEnds(s, target, parses, maxConcurrency, forced, a, after, measured, ka)
    requires PassEnds(s, target, parses, maxConcurrency, forced, b, other, otherMeasured, kb)
    requires SameAnswers(forced, a, b) && Reordered(a, b)
    requires Undisturbed(s, TaskList(s, target, parses), a, Width(maxConcurrency))
    ensures after == other && measured == otherMeasured && ka == kb
    ensures forced ==> measured == TaskList(s, target, parses)
  {
    hide Plays, Run, PassCalls, Covered, TaskList, Reordered, Undisturbed, Valid, NamesApart;
    NotBefore(s, target, parses, maxConcurrency, forced, a, after, measured, ka, b, other, otherMeasured, kb);
    NotBefore(s, target, parses, maxConcurrency, forced, b, other, otherMeasured, kb, a, after, measured, ka) by {
      assert SameAnswers(forced, b, a);
    }
    TaskListApart(s, target, parses);
    PassConfluent(s, TaskList(s, target, parses), Width(maxConcurrency), a, b, ka);
  }

  /** So it is for the bundled table in every state that a run of calls leads to. */
  lemma {:induction false} BundledPassesAgree(defs: seq<HostDef>, penalty: nat, ops: seq<Op>, s: Sel, target: Target,
                                              parses: string -> bool, maxConcurrency: nat, forced: bool,
                                              a: seq<Wave>, after: Sel, measured: seq<Task>, ka: nat,
                                              b: seq<Wave>, other: Sel, otherMeasured: seq<Task>, kb: nat)
    requires IsBundled(defs) && forall i :: 0 <= i < |defs| ==> Distinct(defs[i].ips)
    requires s == Run(Create(defs, penalty), ops)
    requires PassEnds(s, target, parses, maxConcurrency, forced, a, after, measured, ka)
    requires PassEnds(s, target, parses, maxConcurrency, forced, b, other, otherMeasured, kb)
    requires SameAnswers(forced, a, b) && Reordered(a, b)
    requires Undisturbed(s, TaskList(s, target, parses), a, Width(maxConcurrency))
    ensures after == other && measured == otherMeasured && ka == kb
    ensures forced ==> measured == TaskList(s, target, parses)
  {
    hide *;
    CreateValid(defs, penalty);
    RunValid(Create(defs, penalty), ops);
    RunFrame(Create(defs, penalty), ops);
    BundledNamesApart(s);
    PassesAgree(s, target, parses, maxConcurrency, forced, a, after, measured, ka, b, other, otherMeasured, kb);
  }

  // ---- Downloads are not starved ----

  /** One activity check: the states in which it reads the counter, the clock and the stamp. */
  datatype Check = Check(counter: Activity.State, clock: Activity.State, stamp: Activity.State)

  /** The three states follow one another in a run with serialized stamps. */
  ghost predicate IsCheck(start: nat, c: Check) {
    exists earlier: seq<Activity.Step>, first: seq<Activity.Step>, second: seq<Activity.Step> ::
      && Activity.Reaches(Activity.Initial(start), earlier, c.counter, true)
      && Activity.Reaches(c.counter, first, c.clock, true)
      && Activity.Reaches(c.clock, second, c.stamp, true)
  }

  predicate AnswersBusy(c: Check) {
    c.counter.active > 0 || SatSub(c.clock.clock, c.stamp.last) < ACTIVITY_GRACE
  }

  /** A wave of an unforced pass starts only if, as its check reads the counter, a guard is between its decrement and
      its stamp, or no handler is in flight and none was for a grace period before the check's clock reading. */
  lemma WavesStartIdle(before: Sel, target: Target, parses: string -> bool, maxConcurrency: nat, script: seq<Wave>,
                       after: Sel, measured: seq<Task>, waves: nat, k: nat, start: nat, c: Check)
    requires PassEnds(before, target, parses, maxConcurrency, false, script, after, measured, waves) && k < waves
    requires IsCheck(start, c) && script[k].busy == AnswersBusy(c)
    requires |Activity.CountedGuards(c.counter.guards)| < U64_SPAN
    ensures || Activity.InGap(c.counter)
            || (Activity.CountedGuards(c.counter.guards) == {} && c.clock.clock - c.counter.lastCounted >= 60)
  {
    hide Activity.Reaches, Activity.CountedGuards, Activity.InGap;
    var earlier: seq<Activity.Step>, first: seq<Activity.Step>, second: seq<Activity.Step> :|
      && Activity.Reaches(Activity.Initial(start), earlier, c.counter, true)
      && Activity.Reaches(c.counter, first, c.clock, true)
      && Activity.Reaches(c.clock, second, c.stamp, true);
    assert !script[k].busy;
    if !Activity.InGap(c.counter)
       && (Activity.CountedGuards(c.counter.guards) != {} || c.clock.clock - c.counter.lastCounted < ACTIVITY_GRACE) {
      Activity.CheckAnswersBusy(start, earlier, c.counter, first, c.clock, second, c.stamp, ACTIVITY_GRACE);
    }
  }

  // ---- A URL-limited pass leaves other groups alone ----

  /** The two states have the same pins and address lists everywhere and are the same outside group i. */
  ghost predicate SameOutside(t: Sel, u: Sel, i: nat) {
    && Defs(t.groups) == Defs(u.groups) && t.penalty == u.penalty && |t.groups| == |u.groups|
    && forall g: nat :: g < |t.groups| ==> SameGroup(t.groups[g], u.groups[g], g != i)
  }

  predicate SameGroup(a: Group, b: Group, whole: bool) {
    && a.def == b.def && a.bundled == b.bundled && a.pinned == b.pinned && Ips(a.cands) == Ips(b.cands)
    && (whole ==> a == b)
  }

  lemma ChangeSameGroup(a: Group, b: Group, whole: bool, op: Op, penalty: nat)
    requires SameGroup(a, b, whole)
    ensures SameGroup(Change(a, op, penalty), Change(b, op, penalty), whole)
  {
    if op.Report? {
      UpdateFirstAt(a.cands, op.ip, op.event, penalty);
      UpdateFirstAt(b.cands, op.ip, op.event, penalty);
    }
  }

  lemma ReportSameGroup(a: Group, b: Group, op: Op, penalty: nat)
    requires SameGroup(a, b, false) && op.Report?
    ensures SameGroup(Change(a, op, penalty), b, false)
  {
    UpdateFirstAt(a.cands, op.ip, op.event, penalty);
  }

  /** A call of another task, made in both states. */
  lemma OtherCall(t: Sel, u: Sel, i: nat, op: Op)
    requires SameOutside(t, u, i)
    ensures SameOutside(Apply(t, op), Apply(u, op), i)
  {
    hide SameGroup, Apply, Change, Reaches;
    ApplyFrame(t, op);
    ApplyFrame(u, op);
    forall g: nat | g < |t.groups|
      ensures SameGroup(Apply(t, op).groups[g], Apply(u, op).groups[g], g != i)
    {
      assert SameGroup(t.groups[g], u.groups[g], g != i);
      SameBundled(t.groups[g], u.groups[g], g != i);
      ReachesFrame(t, u, op, g);
      ChangeSameGroup(t.groups[g], u.groups[g], g != i, op, t.penalty);
    }
  }

  lemma SameBundled(a: Group, b: Group, whole: bool)
    requires SameGroup(a, b, whole)
    ensures a.bundled == b.bundled
  {
  }

  lemma {:induction false} OtherCalls(t: Sel, u: Sel, i: nat, ops: seq<Op>)
    requires SameOutside(t, u, i)
    ensures SameOutside(Run(t, ops), Run(u, ops), i)
  {
    hide SameOutside, Apply;
    if ops != [] {
      var init, op := ops[..|ops| - 1], ops[|ops| - 1];
      OtherCalls(t, u, i, init);
      OtherCall(Run(t, init), Run(u, init), i, op);
    }
  }

  /** A report to group i, made in one state only. */
  lemma OwnReport(t: Sel, u: Sel, i: nat, op: Op)
    requires SameOutside(t, u, i) && op.Report? && Find(t, op.host) == Some(i)
    ensures SameOutside(Apply(t, op), u, i)
  {
    hide SameGroup, Apply, Change;
    ApplyFrame(t, op);
    forall g: nat | g < |t.groups|
      ensures SameGroup(Apply(t, op).groups[g], u.groups[g], g != i)
    {
      assert SameGroup(t.groups[g], u.groups[g], g != i);
      if g == i {
        ReportSameGroup(t.groups[g], u.groups[g], op, t.penalty);
      }
    }
  }

  lemma {:induction false} WaveOutside(t: Sel, u: Sel, i: nat, wave: seq<Task>, done: seq<Completion>, name: string)
    requires SameOutside(t, u, i) && Find(t, name) == Some(i)
    requires forall x :: x in wave ==> x.group == name
    requires forall c :: c in done ==> c.index < |wave|
    ensures SameOutside(Run(t, WaveCalls(wave, done)), Run(u, WaveOthers(done)), i)
  {
    hide SameOutside, Apply, Run;
    if done == [] {
      RunNothing(t);
      RunNothing(u);
    } else {
      var n := |done| - 1;
      var calls, others, c := WaveCalls(wave, done[..n]), WaveOthers(done[..n]), done[n];
      WaveOutside(t, u, i, wave, done[..n], name);
      OtherCalls(Run(t, calls), Run(u, others), i, c.others);
      CallsOneMore(t, wave, done, n);
      assert done[..n + 1] == done;
      RunAppend(u, others, c.others);
      RunAppend(t, calls, c.others);
      RunFrame(t, calls + c.others);
      OwnReport(Run(t, calls + c.others), Run(u, others + c.others), i, ReportOf(wave[c.index], c.result));
    }
  }

  lemma {:induction false} PassOutside(s: Sel, i: nat, name: string, tasks: seq<Task>, script: seq<Wave>, width: nat,
                                       k: nat)
    requires Find(s, name) == Some(i) && width > 0 && k <= |script| && Plays(script, tasks, width)
    requires forall t :: t in tasks ==> t.group == name
    ensures SameOutside(Run(s, PassCalls(tasks, script, width, k)), Run(s, PassOthers(script, k)), i)
  {
    hide SameOutside, Apply, Run, Plays, WaveCalls;
    if k == 0 {
      SameOutsideRefl(Run(s, []), i);
    } else {
      var calls, others, w := PassCalls(tasks, script, width, k - 1), PassOthers(script, k - 1), script[k - 1];
      PassOutside(s, i, name, tasks, script, width, k - 1);
      PlaysWave(tasks, script, width, k - 1);
      var wave := WaveOf(tasks, width, k - 1);
      assert forall x :: x in wave ==> x in tasks;
      OtherCalls(Run(s, calls), Run(s, others), i, w.before);
      AppendWave(s, calls, w.before, WaveCalls(wave, w.done));
      AppendWave(s, others, w.before, WaveOthers(w.done));
      RunFrame(s, calls);
      RunFrame(Run(s, calls), w.before);
      WaveOutside(Run(Run(s, calls), w.before), Run(Run(s, others), w.before), i, wave, w.done, name);
    }
  }

  lemma SameOutsideRefl(s: Sel, i: nat)
    ensures SameOutside(s, s, i)
  {
  }

  lemma OneGroupTasks(def: HostDef, usable: HostDef -> bool)
    requires usable(def)
    ensures AllTasks([def], usable) == TasksOf(def)
  {
    assert [def][..0] == [];
    assert AllTasks([def], usable) == AllTasks([], usable) + TasksOf(def);
    assert AllTasks([], usable) + TasksOf(def) == TasksOf(def);
  }

  /** A pass limited to the group that owns the URL's host, amid any calls of other tasks: every other group ends
      exactly as those calls alone would have left it, and so do this group's pin and address list, provided the
      group's own name leads back to it (see NameResolvesExactly for when it does). */
  lemma LimitedPassIsolated(s: Sel, host: string, i: nat, parses: string -> bool, script: seq<Wave>, width: nat,
                            k: nat, g: nat)
    requires Find(s, host) == Some(i) && Find(s, s.groups[i].def.name) == Some(i)
    requires width > 0 && k <= |script| && g < |s.groups|
    requires Plays(script, TaskList(s, UrlHost(host), parses), width)
    ensures var t := Run(s, PassCalls(TaskList(s, UrlHost(host), parses), script, width, k));
            var u := Run(s, PassOthers(script, k));
            && (g != i ==> t.groups[g] == u.groups[g])
            && t.groups[g].pinned == u.groups[g].pinned
            && Ips(t.groups[g].cands) == Ips(u.groups[g].cands)
  {
    hide Run, Apply, Plays;
    var tasks, name := TaskList(s, UrlHost(host), parses), s.groups[i].def.name;
    var def := LiveDef(s.groups[i]);
    OneGroupTasks(def, Usable(UrlHost(host), parses));
    assert forall t :: t in tasks ==> t.group == name;
    PassOutside(s, i, name, tasks, script, width, k);
    assert SameGroup(Run(s, PassCalls(tasks, script, width, k)).groups[g], Run(s, PassOthers(script, k)).groups[g],
                     g != i);
  }

  /** On the bundled table, in every reachable state, both groups' names lead back to them, so every pass is confluent
      and every URL-limited pass is isolated. */
  lemma BundledNamesApart(s: Sel)
    requires IsBundled(Defs(s.groups))
    ensures NamesApart(s)
    ensures forall i :: 0 <= i < |s.groups| ==> Find(s, s.groups[i].def.name) == Some(i)
  {
    var defs := Defs(s.groups);
    assert |defs| == |s.groups| == 2;
    forall i: nat | i < 2
      ensures Find(s, s.groups[i].def.name) == Some(i)
    {
      BundledNamesResolve(defs, i);
      assert defs[i] == s.groups[i].def;
    }
  }
}
