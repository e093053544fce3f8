/** The speed-test pass: its targets, its task list, the waves, and how results reach the selector and the log. */
module SpeedTest {
  import opened Common
  import opened HostNames
  import opened Candidates
  import opened Selectors
  import opened SelectorService
  import opened Log

  /** One measurement to make: the group's name and one of its live addresses. */
  datatype Task = Task(group: string, ip: IpAddr)

  /** What a measurement returned, and the clock readings of its two uses. */
  datatype Measured = Measured(latencyMs: Option<nat>, speedKbps: Option<real>, success: bool, appliedAt: nat,
                               recordedAt: nat)

  /** One finished task of a wave, by its position in the wave, and the calls other tasks make on the selector between
      the wave's previous result and this one. */
  datatype Completion = Completion(index: nat, result: Measured, others: seq<Op>)

  /** One turn of the wave loop as the environment plays it: what the activity check answers, the calls other tasks make
      before the wave's first result, and the order and results in which the wave's tasks complete. */
  datatype Wave = Wave(busy: bool, before: seq<Op>, done: seq<Completion>)

  /** The optional URL of a pass after parsing: none, unparsable, without a host, or with one. */
  datatype Target = AllGroups | BadUrl | NoHost | UrlHost(host: string)

  /** The grace period of the activity check, in seconds. */
  const ACTIVITY_GRACE: nat := 60

  // ---- Targets and tasks ----

  /** The definitions a pass tests, or None when it is skipped. */
  function Targets(s: Sel, target: Target): Option<seq<HostDef>> {
    match target
    case AllGroups => Some(AllLive(s))
    case BadUrl => None
    case NoHost => None
    case UrlHost(host) =>
      match LiveFor(s, host)
      case None => None
      case Some(def) => Some([def])
  }

  function TasksOf(def: HostDef): (r: seq<Task>)
    ensures |r| == |def.ips|
    ensures forall i :: 0 <= i < |r| ==> r[i] == Task(def.name, def.ips[i])
  {
    seq(|def.ips|, i requires 0 <= i < |def.ips| => Task(def.name, def.ips[i]))
  }

  /** All tasks in group order and address order; usable says which test URLs parse (all of them under an override). */
  function AllTasks(defs: seq<HostDef>, usable: HostDef -> bool): seq<Task> {
    if defs == [] then []
    else
      var last := defs[|defs| - 1];
      AllTasks(defs[..|defs| - 1], usable) + if usable(last) then TasksOf(last) else []
  }

  // ---- The reports of a pass ----

  function ReportOf(t: Task, m: Measured): Op {
    Report(t.group, t.ip, Event(m.appliedAt, m.latencyMs, m.speedKbps, m.success))
  }

  function RecordOf(t: Task, m: Measured): SpeedTestRecord {
    SpeedTestRecord(m.recordedAt, t.group, t.ip, m.latencyMs, m.speedKbps, m.success)
  }

  /** The wave's completions name each of its n tasks exactly once, in any order. */
  ghost predicate CompletesAll(done: seq<Completion>, n: nat) {
    && |done| == n
    && (forall i :: 0 <= i < n ==> done[i].index < n)
    && (forall i, j :: 0 <= i < j < n ==> done[i].index != done[j].index)
  }

  /** The pass's own selector calls for the completions of one wave, in completion order. */
  function WaveOps(wave: seq<Task>, done: seq<Completion>): (r: seq<Op>)
    requires forall c :: c in done ==> c.index < |wave|
    ensures |r| == |done|
    ensures forall i :: 0 <= i < |done| ==> r[i] == ReportOf(wave[done[i].index], done[i].result)
  {
    seq(|done|, i requires 0 <= i < |done| => ReportOf(wave[done[i].index], done[i].result))
  }

  /** The own calls of one wave among those of other tasks. */
  function WaveCalls(wave: seq<Task>, done: seq<Completion>): seq<Op>
    requires forall c :: c in done ==> c.index < |wave|
  {
    if done == [] then []
    else
      var last := done[|done| - 1];
      WaveCalls(wave, done[..|done| - 1]) + last.others + [ReportOf(wave[last.index], last.result)]
  }

  /** The calls of other tasks alone. */
  function WaveOthers(done: seq<Completion>): seq<Op> {
    if done == [] then [] else WaveOthers(done[..|done| - 1]) + done[|done| - 1].others
  }

  function WaveRecords(wave: seq<Task>, done: seq<Completion>): (r: seq<DbCommand>)
    requires forall c :: c in done ==> c.index < |wave|
    ensures |r| == |done|
    ensures forall i :: 0 <= i < |done| ==> r[i] == InsertSpeedTest(RecordOf(wave[done[i].index], done[i].result))
  {
    seq(|done|, i requires 0 <= i < |done| => InsertSpeedTest(RecordOf(wave[done[i].index], done[i].result)))
  }

  /** The number of tasks covered by the first k waves. */
  function Covered(total: nat, concurrency: nat, k: nat): nat {
    Min(k * concurrency, total)
  }

  function WaveOf(tasks: seq<Task>, concurrency: nat, k: nat): seq<Task> {
    CoveredGrows(|tasks|, concurrency, k);
    tasks[Covered(|tasks|, concurrency, k)..Covered(|tasks|, concurrency, k + 1)]
  }

  lemma CoveredGrows(total: nat, concurrency: nat, k: nat)
    ensures Covered(total, concurrency, k) <= Covered(total, concurrency, k + 1) <= total
    ensures Covered(total, concurrency, k + 1) - Covered(total, concurrency, k) <= concurrency
    ensures Covered(total, concurrency, k) < total && concurrency > 0 ==>
              Covered(total, concurrency, k) < Covered(total, concurrency, k + 1)
              && Covered(total, concurrency, k) == k * concurrency
  {
    assert (k + 1) * concurrency == k * concurrency + concurrency;
  }

  /** The environment supplies a turn for every wave, and each wave's completions are its tasks. */
  ghost predicate Plays(script: seq<Wave>, tasks: seq<Task>, concurrency: nat) {
    && |script| >= |tasks|
    && forall k: nat :: k < |script| ==>
         CompletesAll(script[k].done, Covered(|tasks|, concurrency, k + 1) - Covered(|tasks|, concurrency, k))
  }

  /** The pass's own selector calls of the first k waves. */
  function PassOps(tasks: seq<Task>, script: seq<Wave>, concurrency: nat, k: nat): seq<Op>
    requires k <= |script| && Plays(script, tasks, concurrency)
  {
    if k == 0 then []
    else
      CoveredGrows(|tasks|, concurrency, k - 1);
      PassOps(tasks, script, concurrency, k - 1) + WaveOps(WaveOf(tasks, concurrency, k - 1), script[k - 1].done)
  }

  /** All selector calls made while the first k waves run. */
  function PassCalls(tasks: seq<Task>, script: seq<Wave>, concurrency: nat, k: nat): seq<Op>
    requires k <= |script| && Plays(script, tasks, concurrency)
  {
    if k == 0 then []
    else
      CoveredGrows(|tasks|, concurrency, k - 1);
      PassCalls(tasks, script, concurrency, k - 1) + script[k - 1].before
      + WaveCalls(WaveOf(tasks, concurrency, k - 1), script[k - 1].done)
  }

  /** Those of other tasks alone. */
  function PassOthers(script: seq<Wave>, k: nat): seq<Op>
    requires k <= |script|
  {
    if k == 0 then [] else PassOthers(script, k - 1) + script[k - 1].before + WaveOthers(script[k - 1].done)
  }

  function PassRecords(tasks: seq<Task>, script: seq<Wave>, concurrency: nat, k: nat): seq<DbCommand>
    requires k <= |script| && Plays(script, tasks, concurrency)
  {
    if k == 0 then []
    else
      CoveredGrows(|tasks|, concurrency, k - 1);
      PassRecords(tasks, script, concurrency, k - 1)
      + WaveRecords(WaveOf(tasks, concurrency, k - 1), script[k - 1].done)
  }

  function Usable(target: Target, parses: string -> bool): HostDef -> bool {
    (def: HostDef) => target.UrlHost? || parses(def.testUrl)
  }

  /** The task list of a pass started in this selector state. */
  function TaskList(s: Sel, target: Target, parses: string -> bool): seq<Task> {
    match Targets(s, target)
    case None => []
    case Some(defs) => AllTasks(defs, Usable(target, parses))
  }

  // ---- What the task list is, said of the groups ----

  /** How many addresses the first n groups with a usable test URL have. */
  function TestedBefore(s: Sel, parses: string -> bool, n: nat): nat
    requires n <= |s.groups|
  {
    if n == 0 then 0
    else TestedBefore(s, parses, n - 1) + if parses(s.groups[n - 1].def.testUrl) then |s.groups[n - 1].cands| else 0
  }

  /** Group g has a usable test URL and a k-th live address. */
  predicate Tested(s: Sel, parses: string -> bool, g: nat, k: nat) {
    g < |s.groups| && parses(s.groups[g].def.testUrl) && k < |s.groups[g].cands|
  }

  /** Position i of the list holds the task for the k-th live address of group g. */
  predicate HoldsTask(s: Sel, tasks: seq<Task>, i: nat, g: nat, k: nat) {
    && i < |tasks| && g < |s.groups| && k < |s.groups[g].cands|
    && tasks[i].group == s.groups[g].def.name && tasks[i].ip == s.groups[g].cands[k].ip
  }

  ghost predicate IsTaskOfFirst(s: Sel, parses: string -> bool, n: nat, tasks: seq<Task>, i: nat) {
    exists g: nat, k: nat :: g < n && Tested(s, parses, g, k) && HoldsTask(s, tasks, i, g, k)
  }

  /** Every task is that of some tested address of the first n groups. */
  ghost predicate NoOtherTasks(s: Sel, parses: string -> bool, n: nat, tasks: seq<Task>) {
    forall i: nat :: i < |tasks| ==> IsTaskOfFirst(s, parses, n, tasks, i)
  }

  /** Every tested address of the first n groups has its task, in group order and then address order. */
  ghost predicate AllTasksStand(s: Sel, parses: string -> bool, n: nat, tasks: seq<Task>)
    requires n <= |s.groups|
  {
    forall g: nat, k: nat :: g < n && Tested(s, parses, g, k) ==>
      HoldsTask(s, tasks, TestedBefore(s, parses, g) + k, g, k)
  }

  /** The list has the tasks of the first n groups, each once. */
  ghost predicate TasksOfFirst(s: Sel, parses: string -> bool, n: nat, tasks: seq<Task>)
    requires n <= |s.groups|
  {
    |tasks| == TestedBefore(s, parses, n) && NoOtherTasks(s, parses, n, tasks) && AllTasksStand(s, parses, n, tasks)
  }

  function TasksOfGroup(s: Sel, parses: string -> bool, n: nat): seq<Task>
    requires n < |s.groups|
  {
    if parses(s.groups[n].def.testUrl) then TasksOf(LiveDef(s.groups[n])) else []
  }

  lemma OneMoreNoOther(s: Sel, parses: string -> bool, n: nat, tasks: seq<Task>)
    requires n < |s.groups| && NoOtherTasks(s, parses, n, tasks)
    ensures NoOtherTasks(s, parses, n + 1, tasks + TasksOfGroup(s, parses, n))
  {
    var m, all := n + 1, tasks + TasksOfGroup(s, parses, n);
    forall i: nat | i < |all|
      ensures IsTaskOfFirst(s, parses, m, all, i)
    {
      if i < |tasks| {
        assert IsTaskOfFirst(s, parses, n, tasks, i);
        var g: nat, k: nat :| g < n && Tested(s, parses, g, k) && HoldsTask(s, tasks, i, g, k);
        assert HoldsTask(s, all, i, g, k);
      } else {
        assert Tested(s, parses, n, i - |tasks|) && HoldsTask(s, all, i, n, i - |tasks|);
      }
    }
  }

  lemma OneMoreStands(s: Sel, parses: string -> bool, n: nat, tasks: seq<Task>)
    requires n < |s.groups| && AllTasksStand(s, parses, n, tasks) && |tasks| == TestedBefore(s, parses, n)
    ensures AllTasksStand(s, parses, n + 1, tasks + TasksOfGroup(s, parses, n))
  {
    hide TestedBefore;
    var all := tasks + TasksOfGroup(s, parses, n);
    forall g: nat, k: nat | g < n + 1 && Tested(s, parses, g, k)
      ensures HoldsTask(s, all, TestedBefore(s, parses, g) + k, g, k)
    {
      if g < n {
        assert HoldsTask(s, tasks, TestedBefore(s, parses, g) + k, g, k);
      }
    }
  }

  lemma OneMoreGroup(s: Sel, parses: string -> bool, n: nat, tasks: seq<Task>)
    requires n < |s.groups| && TasksOfFirst(s, parses, n, tasks)
    ensures TasksOfFirst(s, parses, n + 1, tasks + TasksOfGroup(s, parses, n))
  {
    hide NoOtherTasks, AllTasksStand;
    OneMoreNoOther(s, parses, n, tasks);
    OneMoreStands(s, parses, n, tasks);
  }

  lemma {:induction false} TasksOfAllFirst(s: Sel, parses: string -> bool, n: nat)
    requires n <= |s.groups|
    ensures TasksOfFirst(s, parses, n, AllTasks(AllLive(s)[..n], Usable(AllGroups, parses)))
  {
    hide TasksOfFirst;
    if n == 0 {
      NoTasks(s, parses);
    } else {
      TasksOfAllFirst(s, parses, n - 1);
      OneMoreGroup(s, parses, n - 1, AllTasks(AllLive(s)[..n - 1], Usable(AllGroups, parses)));
      assert AllLive(s)[..n][..n - 1] == AllLive(s)[..n - 1];
    }
  }

  lemma NoTasks(s: Sel, parses: string -> bool)
    ensures TasksOfFirst(s, parses, 0, [])
  {
  }

  /** A pass over all groups has exactly the live addresses of the groups with a usable test URL for tasks, in group
      order and then address order; one for a URL exactly those of the group that the URL's host leads to; any other
      none. */
  lemma TaskListExactly(s: Sel, parses: string -> bool, host: string)
    ensures TasksOfFirst(s, parses, |s.groups|, TaskList(s, AllGroups, parses))
    ensures TaskList(s, BadUrl, parses) == [] && TaskList(s, NoHost, parses) == []
    ensures Find(s, host).None? ==> TaskList(s, UrlHost(host), parses) == []
    ensures Find(s, host).Some? ==>
              var tasks, g := TaskList(s, UrlHost(host), parses), s.groups[Find(s, host).value];
              |tasks| == |g.cands|
              && forall k :: 0 <= k < |tasks| ==> tasks[k].group == g.def.name && tasks[k].ip == g.cands[k].ip
  {
    hide TasksOfFirst;
    TasksOfAllFirst(s, parses, |s.groups|);
    assert AllLive(s)[..|s.groups|] == AllLive(s);
    if Find(s, host).Some? {
      var def := LiveDef(s.groups[Find(s, host).value]);
      assert [def][..0] == [];
      assert AllTasks([def], Usable(UrlHost(host), parses)) == [] + TasksOf(def);
    }
  }

  /** So a task is one of a pass over all groups if and only if it is a live address of a group with a usable test
      URL. */
  lemma TaskListMembers(s: Sel, parses: string -> bool, t: Task)
    ensures t in TaskList(s, AllGroups, parses) <==>
              exists g: nat, k: nat :: Tested(s, parses, g, k)
                                       && t == Task(s.groups[g].def.name, s.groups[g].cands[k].ip)
  {
    hide TaskList, TestedBefore;
    TaskListExactly(s, parses, "");
    var tasks := TaskList(s, AllGroups, parses);
    if t in tasks {
      var i: nat :| i < |tasks| && tasks[i] == t;
      assert IsTaskOfFirst(s, parses, |s.groups|, tasks, i);
      var g: nat, k: nat :| g < |s.groups| && Tested(s, parses, g, k) && HoldsTask(s, tasks, i, g, k);
      assert t == Task(s.groups[g].def.name, s.groups[g].cands[k].ip);
    }
    if g: nat, k: nat :| Tested(s, parses, g, k) && t == Task(s.groups[g].def.name, s.groups[g].cands[k].ip) {
      assert HoldsTask(s, tasks, TestedBefore(s, parses, g) + k, g, k);
    }
  }

  // ---- What is reported and recorded ----

  /** The i-th result of a wave reaches the selector and the log with the values measured, for the task it belongs to,
      each with the clock reading of its own use. */
  lemma ResultsCarried(wave: seq<Task>, done: seq<Completion>, i: nat)
    requires (forall c :: c in done ==> c.index < |wave|) && i < |done|
    ensures var task, m := wave[done[i].index], done[i].result;
            var op, cmd := WaveOps(wave, done)[i], WaveRecords(wave, done)[i];
            && op.Report? && op.host == task.group && op.ip == task.ip
            && op.event.latencyMs == m.latencyMs && op.event.speedKbps == m.speedKbps
            && op.event.success == m.success && op.event.at == m.appliedAt
            && cmd.InsertSpeedTest? && cmd.speedTest.host == task.group && cmd.speedTest.ip == task.ip
            && cmd.speedTest.latencyMs == m.latencyMs && cmd.speedTest.speedKbps == m.speedKbps
            && cmd.speedTest.success == m.success && cmd.speedTest.ts == m.recordedAt
  {
  }

  // ---- The pass ----

  method BuildTasks(defs: seq<HostDef>, target: Target, parses: string -> bool) returns (tasks: seq<Task>)
    ensures tasks == AllTasks(defs, Usable(target, parses))
  {
    tasks := [];
    for i := 0 to |defs|
      invariant tasks == AllTasks(defs[..i], Usable(target, parses))
    {
      assert defs[..i + 1][..i] == defs[..i];
      var def := defs[i];
      if target.UrlHost? || parses(def.testUrl) {
        ghost var before := tasks;
        for k := 0 to |def.ips|
          invariant tasks == before + TasksOf(def)[..k]
        {
          tasks := tasks + [Task(def.name, def.ips[k])];
        }
        assert TasksOf(def)[..|def.ips|] == TasksOf(def);
      } else {
        assert tasks + [] == tasks;
      }
    }
    assert defs[..|defs|] == defs;
  }

  /** Applies the completed measurements of one wave to the selector and sends their records, in completion order, while
      other tasks call the selector in between. */
  method ApplyWave(selector: Selector, channel: Channel, wave: seq<Task>, done: seq<Completion>)
    requires forall c :: c in done ==> c.index < |wave|
    modifies selector`groups, channel
    ensures selector.State() == Run(old(selector.State()), WaveCalls(wave, done))
    ensures channel.sent == old(channel.sent) + WaveRecords(wave, done)
  {
    hide Apply, Run, WaveCalls, RecordOf;
    WaveBegins(wave, done);
    ghost var s, recs := selector.State(), WaveRecords(wave, done);
    RunNothing(s);
    for i := 0 to |done|
      invariant selector.State() == Run(s, WaveCalls(wave, done[..i]))
      invariant channel.sent == old(channel.sent) + recs[..i]
    {
      assert recs[..i + 1][..i] == recs[..i];
      var task, m := wave[done[i].index], done[i].result;
      CallsOneMore(s, wave, done, i);
      Interfere(selector, done[i].others);
      selector.UpdateResult(task.group, task.ip, Event(m.appliedAt, m.latencyMs, m.speedKbps, m.success));
      channel.sent := channel.sent + [InsertSpeedTest(RecordOf(task, m))];
    }
    assert done[..|done|] == done && recs[..|done|] == recs;
  }

  lemma WaveBegins(wave: seq<Task>, done: seq<Completion>)
    ensures WaveCalls(wave, done[..0]) == []
  {
  }

  lemma RunNothing(s: Sel)
    ensures Run(s, []) == s
  {
  }

  lemma CallsOneMore(s: Sel, wave: seq<Task>, done: seq<Completion>, i: nat)
    requires i < |done| && forall c :: c in done ==> c.index < |wave|
    ensures Run(s, WaveCalls(wave, done[..i + 1]))
         == Apply(Run(Run(s, WaveCalls(wave, done[..i])), done[i].others),
                  ReportOf(wave[done[i].index], done[i].result))
  {
    var front, report := WaveCalls(wave, done[..i]) + done[i].others, ReportOf(wave[done[i].index], done[i].result);
    assert done[..i + 1][..i] == done[..i];
    assert (front + [report])[..|front|] == front;
    RunAppend(s, WaveCalls(wave, done[..i]), done[i].others);
  }

  /** What k waves of a pass have done: the tasks they measured, the selector calls they made and the records they
      sent. */
  ghost predicate WavesDone(tasks: seq<Task>, script: seq<Wave>, width: nat, k: nat, before: Sel, after: Sel,
                            measured: seq<Task>, sent: seq<DbCommand>)
    requires Plays(script, tasks, width)
  {
    && k <= |script|
    && |measured| == Covered(|tasks|, width, k) && measured == tasks[..|measured|]
    && (k > 0 ==> Covered(|tasks|, width, k - 1) < |tasks|)
    && after == Run(before, PassCalls(tasks, script, width, k))
    && sent == PassRecords(tasks, script, width, k)
  }

  /** The k-th wave: the next width tasks (or the rest), which its completions name exactly once each. */
  lemma NextWaveCompletes(tasks: seq<Task>, script: seq<Wave>, width: nat, k: nat)
    requires width > 0 && Plays(script, tasks, width) && k < |script|
    requires Covered(|tasks|, width, k) < |tasks|
    ensures Covered(|tasks|, width, k) <= Covered(|tasks|, width, k + 1)
    ensures var wave := WaveOf(tasks, width, k);
            && 0 < |wave| <= width && CompletesAll(script[k].done, |wave|)
            && (forall c :: c in script[k].done ==> c.index < |wave|)
            && PassOps(tasks, script, width, k + 1) == PassOps(tasks, script, width, k) + WaveOps(wave, script[k].done)
            && PassCalls(tasks, script, width, k + 1)
               == PassCalls(tasks, script, width, k) + script[k].before + WaveCalls(wave, script[k].done)
            && PassRecords(tasks, script, width, k + 1)
               == PassRecords(tasks, script, width, k) + WaveRecords(wave, script[k].done)
  {
    hide Covered, WaveOps, WaveCalls, WaveRecords;
    CoveredGrows(|tasks|, width, k);
  }

  lemma WaveAdded(tasks: seq<Task>, script: seq<Wave>, width: nat, k: nat, before: Sel, after: Sel,
                  measured: seq<Task>, sent: seq<DbCommand>, wave: seq<Task>)
    requires width > 0 && Plays(script, tasks, width)
    requires WavesDone(tasks, script, width, k, before, after, measured, sent)
    requires k < |script| && |measured| < |tasks|
    requires wave == tasks[|measured|..Min(|measured| + width, |tasks|)]
    ensures |wave| <= width && CompletesAll(script[k].done, |wave|)
    ensures forall c :: c in script[k].done ==> c.index < |wave|
    ensures WavesDone(tasks, script, width, k + 1, before,
                      Run(Run(after, script[k].before), WaveCalls(wave, script[k].done)),
                      measured + wave, sent + WaveRecords(wave, script[k].done))
  {
    hide Plays, Run, WaveOps, WaveCalls, WaveRecords, PassOps, PassCalls, PassRecords, CompletesAll, Covered;
    NextWave(tasks, width, k);
    NextWaveCompletes(tasks, script, width, k);
    RunAppend(before, PassCalls(tasks, script, width, k) + script[k].before, WaveCalls(wave, script[k].done));
    RunAppend(before, PassCalls(tasks, script, width, k), script[k].before);
  }

  /** The waves of at most width tasks, given up before one when the pass is not forced and the activity check answers
      busy. */
  method RunWaves(selector: Selector, channel: Channel, forced: bool, tasks: seq<Task>, width: nat, script: seq<Wave>)
    returns (measured: seq<Task>, waves: nat)
    requires width > 0 && Plays(script, tasks, width)
    modifies selector`groups, channel
    ensures old(channel.sent) <= channel.sent
    ensures WavesDone(tasks, script, width, waves, old(selector.State()), selector.State(), measured,
                      channel.sent[|old(channel.sent)|..])
    ensures forall k :: 0 <= k < waves ==> forced || !script[k].busy
    ensures measured == tasks || (!forced && waves < |script| && script[waves].busy)
  {
    hide Run, WaveOps, WaveCalls, WaveRecords, WavesDone, Plays;
    measured, waves := [], 0;
    ghost var sent: seq<DbCommand> := [];
    NoWaves(tasks, script, width, selector.State());
    while |measured| < |tasks|
      invariant WavesDone(tasks, script, width, waves, old(selector.State()), selector.State(), measured, sent)
      invariant waves <= |measured| <= |tasks| <= |script| && measured == tasks[..|measured|]
      invariant channel.sent == old(channel.sent) + sent
      invariant forall k :: 0 <= k < waves ==> forced || !script[k].busy
    {
      if !forced && script[waves].busy {
        break;
      }
      var wave := tasks[|measured|..Min(|measured| + width, |tasks|)];
      WaveAdded(tasks, script, width, waves, old(selector.State()), selector.State(), measured, sent, wave);
      Interfere(selector, script[waves].before);
      ApplyWave(selector, channel, wave, script[waves].done);
      sent := sent + WaveRecords(wave, script[waves].done);
      measured := measured + wave;
      waves := waves + 1;
    }
  }

  lemma NoWaves(tasks: seq<Task>, script: seq<Wave>, width: nat, s: Sel)
    requires Plays(script, tasks, width)
    ensures |tasks| <= |script| && WavesDone(tasks, script, width, 0, s, s, [], [])
  {
  }

  function Width(maxConcurrency: nat): nat {
    if maxConcurrency == 0 then 1 else maxConcurrency
  }

  /** The definitions to test, from the selector's own live views. */
  method TargetDefs(selector: Selector, target: Target) returns (r: Option<seq<HostDef>>)
    ensures r == Targets(selector.State(), target)
  {
    match target {
      case AllGroups =>
        var defs := selector.LiveDefs();
        r := Some(defs);
      case BadUrl => r := None;
      case NoHost => r := None;
      case UrlHost(host) =>
        var def := selector.DefForHost(host);
        r := if def.None? then None else Some([def.value]);
    }
  }

  /** How a pass that starts in state before goes: the tasks measured are a prefix of that state's task list, of length
      min(waves * width, total), all of it when the pass is forced or never finds the proxy busy; each wave but the last
      leaves tasks to measure; no wave of an unforced pass starts after a busy answer; and the state it ends in. */
  ghost predicate PassEnds(before: Sel, target: Target, parses: string -> bool, maxConcurrency: nat, forced: bool,
                           script: seq<Wave>, after: Sel, measured: seq<Task>, waves: nat)
  {
    var tasks, width := TaskList(before, target, parses), if maxConcurrency == 0 then 1 else maxConcurrency;
    && Plays(script, tasks, width) && waves <= |script|
    && measured == tasks[..Covered(|tasks|, width, waves)]
    && |measured| == (if waves * width <= |tasks| then waves * width else |tasks|)
    && after == Run(before, PassCalls(tasks, script, width, waves))
    && (waves > 0 ==> Covered(|tasks|, width, waves - 1) < |tasks|)
    && (forall k :: 0 <= k < waves ==> forced || !script[k].busy)
    && (measured == tasks || (!forced && waves < |script| && script[waves].busy))
  }

  /** One pass among any calls of other tasks: it makes no call and sends no record when its URL is unusable, else it
      runs the waves over the task list of the state it starts in; each measured task's result is applied and recorded
      in completion order. */
  method RunPass(selector: Selector, channel: Channel, forced: bool, target: Target, parses: string -> bool,
                 maxConcurrency: nat, script: seq<Wave>)
    returns (measured: seq<Task>, waves: nat)
    requires Plays(script, TaskList(selector.State(), target, parses), Width(maxConcurrency))
    modifies selector`groups, channel
    ensures PassEnds(old(selector.State()), target, parses, maxConcurrency, forced, script, selector.State(),
                     measured, waves)
    ensures channel.sent
         == old(channel.sent)
            + PassRecords(TaskList(old(selector.State()), target, parses), script, Width(maxConcurrency), waves)
  {
    var tasks: seq<Task> := [];
    var targets := TargetDefs(selector, target);
    if targets.Some? {
      tasks := BuildTasks(targets.value, target, parses);
    }
    measured, waves := RunWaves(selector, channel, forced, tasks, Width(maxConcurrency), script);
    assert channel.sent == old(channel.sent) + channel.sent[|old(channel.sent)|..];
  }

  lemma NextWave(tasks: seq<Task>, width: nat, k: nat)
    requires width > 0 && Covered(|tasks|, width, k) < |tasks|
    ensures Covered(|tasks|, width, k + 1) == Min(Covered(|tasks|, width, k) + width, |tasks|)
    ensures Covered(|tasks|, width, k) <= Covered(|tasks|, width, k + 1)
    ensures WaveOf(tasks, width, k)
         == tasks[Covered(|tasks|, width, k)..Min(Covered(|tasks|, width, k) + width, |tasks|)]
  {
    CoveredGrows(|tasks|, width, k);
  }
}
