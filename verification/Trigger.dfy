/** The wake-up protocol of the speed-test loop: dashboard triggers, a one-permit notification, and the loop's steps. */
module Trigger {
  import opened Common

  /** The notification: whether the loop is registered as its waiter and already signalled, and the stored permit. */
  datatype Waiter = Absent | Registered | Signalled
  datatype Notify = Notify(waiter: Waiter, permit: bool)

  /** `notify_one`: signals a registered waiter, else stores the single permit. */
  function NotifyOne(n: Notify): Notify {
    if n.waiter.Registered? then n.(waiter := Signalled) else n.(permit := true)
  }

  /** The shared control handle; each method is one atomic action on it. */
  class SpeedTestControl {
    var notify: Notify
    var running: bool
    var pendingUrl: Option<string>

    constructor ()
      ensures notify == Notify(Absent, false) && !running && pendingUrl == None
    {
      notify, running, pendingUrl := Notify(Absent, false), false, None;
    }

    /** First half of a trigger. */
    method SetUrl(url: Option<string>)
      modifies this`pendingUrl
      ensures pendingUrl == url
    {
      pendingUrl := url;
    }

    /** Second half of a trigger. */
    method Wake()
      modifies this`notify
      ensures notify == NotifyOne(old(notify))
    {
      if notify.waiter.Registered? {
        notify := notify.(waiter := Signalled);
      } else {
        notify := notify.(permit := true);
      }
    }

    method Trigger(url: Option<string>)
      modifies this
      ensures pendingUrl == url && notify == NotifyOne(old(notify)) && running == old(running)
    {
      SetUrl(url);
      Wake();
    }

    method TakeUrl() returns (url: Option<string>)
      modifies this`pendingUrl
      ensures url == old(pendingUrl) && pendingUrl == None
    {
      url := pendingUrl;
      pendingUrl := None;
    }
  }

  // ---- The protocol as a state machine ----

  /** Where the loop is: between turns, waiting for a notification or the timer, woken and about to take the URL,
      holding the URL it took, due for a scheduled pass, or in a pass. */
  datatype Place =
    | Between
    | Waiting
    | Woken
    | Taken(url: Option<string>)
    | Due
    | InPass(forced: bool, url: Option<string>)

  /** What happened to the pending URL, in order. */
  datatype Mark = Set(url: Option<string>) | Take(url: Option<string>)

  /** The control handle's fields, the loop's place and whether it runs automatic passes (with how many warm-up passes
      are still to start), the triggers between their two halves, and the history. */
  datatype State = State(
    notify: Notify,
    running: bool,
    pending: Option<string>,
    place: Place,
    auto: bool,
    warmups: nat,
    halfway: nat,
    marks: seq<Mark>,
    passes: seq<(bool, Option<string>)>)

  datatype Step =
    | TriggerSet(url: Option<string>)
    | TriggerNotify
    | Enter
    | Wake
    | Timer
    | TakePending
    | StartForced
    | StartScheduled
    | Finish

  /** An automatic loop begins with its warm-up passes, at least one. */
  function Initial(auto: bool, warmups: nat): State {
    var w := if !auto then 0 else if warmups == 0 then 1 else warmups;
    State(Notify(Absent, false), false, None, if auto then Due else Between, auto, w, 0, [], [])
  }

  predicate Enabled(s: State, step: Step) {
    match step
    case TriggerSet(_) => true
    case TriggerNotify => s.halfway > 0
    case Enter => s.place.Between?
    case Wake => s.place.Waiting? && s.notify.waiter.Signalled?
    case Timer => s.place.Waiting? && s.auto
    case TakePending => s.place.Woken?
    case StartForced => s.place.Taken?
    case StartScheduled => s.place.Due?
    case Finish => s.place.InPass?
  }

  /** A wait that finds the permit goes on at once; a wait that the timer beats passes a signal it had received on to
      the permit. A scheduled pass does not take the URL. */
  function Next(s: State, step: Step): State
    requires Enabled(s, step)
  {
    match step
    case TriggerSet(url) => s.(pending := url, halfway := s.halfway + 1, marks := s.marks + [Set(url)])
    case TriggerNotify => s.(notify := NotifyOne(s.notify), halfway := s.halfway - 1)
    case Enter =>
      if s.notify.permit then s.(notify := s.notify.(permit := false), place := Woken)
      else s.(notify := s.notify.(waiter := Registered), place := Waiting)
    case Wake => s.(notify := s.notify.(waiter := Absent), place := Woken)
    case Timer =>
      s.(notify := Notify(Absent, s.notify.permit || s.notify.waiter.Signalled?), place := Due)
    case TakePending => s.(pending := None, place := Taken(s.pending), marks := s.marks + [Take(s.pending)])
    case StartForced =>
      s.(place := InPass(true, s.place.url), running := true, passes := s.passes + [(true, s.place.url)])
    case StartScheduled =>
      s.(place := InPass(false, None), running := true, passes := s.passes + [(false, None)],
         warmups := if s.warmups > 0 then s.warmups - 1 else 0)
    case Finish => s.(place := if s.warmups > 0 then Due else Between, running := false)
  }

  /** A run of the protocol under any interleaving. */
  ghost predicate Reaches(s: State, steps: seq<Step>, t: State)
    decreases |steps|
  {
    if steps == [] then s == t
    else Enabled(s, steps[0]) && Reaches(Next(s, steps[0]), steps[1..], t)
  }

  // ---- Invariants ----

  function Bit(b: bool): nat {
    if b then 1 else 0
  }

  /** The wake-ups not yet turned into a started pass. */
  function Outstanding(s: State): nat {
    s.halfway + Bit(s.notify.permit) + Bit(s.notify.waiter.Signalled?) + Bit(s.place.Woken?) + Bit(s.place.Taken?)
  }

  function Triggers(marks: seq<Mark>): nat {
    if marks == [] then 0 else Triggers(marks[..|marks| - 1]) + Bit(marks[|marks| - 1].Set?)
  }

  function Forced(passes: seq<(bool, Option<string>)>): nat {
    if passes == [] then 0 else Forced(passes[..|passes| - 1]) + Bit(passes[|passes| - 1].0)
  }

  /** The URLs of the forced passes, in order. */
  function ForcedUrls(passes: seq<(bool, Option<string>)>): seq<Option<string>> {
    if passes == [] then []
    else
      var last := passes[|passes| - 1];
      ForcedUrls(passes[..|passes| - 1]) + if last.0 then [last.1] else []
  }

  /** The URLs taken, in order. */
  function TakenUrls(marks: seq<Mark>): seq<Option<string>> {
    if marks == [] then []
    else
      var last := marks[|marks| - 1];
      TakenUrls(marks[..|marks| - 1]) + if last.Take? then [last.url] else []
  }

  /** What a take at this point would yield: the URL of the immediately preceding set, None after a take or at the
      start. */
  function Pending(marks: seq<Mark>): Option<string> {
    if marks != [] && marks[|marks| - 1].Set? then marks[|marks| - 1].url else None
  }

  predicate LastIsSet(marks: seq<Mark>) {
    marks != [] && marks[|marks| - 1].Set?
  }

  /** A trigger between its halves, a stored permit, a signal, or the loop woken and about to take. */
  predicate WakeUnderWay(s: State) {
    s.halfway > 0 || s.notify.permit || s.notify.waiter.Signalled? || s.place.Woken?
  }

  predicate LoopShape(s: State) {
    && (!s.auto ==> !s.place.Due? && forall i :: 0 <= i < |s.passes| ==> s.passes[i].0)
    && (forall i :: 0 <= i < |s.passes| && !s.passes[i].0 ==> s.passes[i].1 == None)
    && (s.warmups > 0 ==> s.auto && (s.place.Due? || s.place.InPass?))
    && (s.place.Waiting? <==> !s.notify.waiter.Absent?)
    && (s.notify.waiter.Registered? ==> !s.notify.permit)
    && (s.running <==> s.place.InPass?)
  }

  /** What was set last, with a URL or without, is either taken or has a wake-up under way. */
  predicate NoneLost(s: State) {
    s.pending == Pending(s.marks) && (LastIsSet(s.marks) ==> WakeUnderWay(s))
  }

  predicate ForcedBounded(s: State) {
    Forced(s.passes) + Outstanding(s) <= Triggers(s.marks)
  }

  predicate TakesLatest(marks: seq<Mark>) {
    forall i :: 0 <= i < |marks| && marks[i].Take? ==> marks[i].url == Pending(marks[..i])
  }

  predicate PassesUseTaken(s: State) {
    TakenUrls(s.marks) == ForcedUrls(s.passes) + if s.place.Taken? then [s.place.url] else []
  }

  predicate Invariant(s: State) {
    LoopShape(s) && NoneLost(s) && ForcedBounded(s) && TakesLatest(s.marks) && PassesUseTaken(s)
  }

  lemma MarkAppended(marks: seq<Mark>, m: Mark)
    ensures Triggers(marks + [m]) == Triggers(marks) + Bit(m.Set?)
    ensures TakenUrls(marks + [m]) == TakenUrls(marks) + if m.Take? then [m.url] else []
    ensures TakesLatest(marks) && (m.Take? ==> m.url == Pending(marks)) ==> TakesLatest(marks + [m])
  {
    var all := marks + [m];
    assert all[..|marks|] == marks;
    assert forall i :: 0 <= i < |marks| ==> all[..i] == marks[..i];
  }

  lemma PassAppended(passes: seq<(bool, Option<string>)>, p: (bool, Option<string>))
    ensures Forced(passes + [p]) == Forced(passes) + Bit(p.0)
    ensures ForcedUrls(passes + [p]) == ForcedUrls(passes) + if p.0 then [p.1] else []
  {
    assert (passes + [p])[..|passes|] == passes;
  }

  lemma NextKeepsShape(s: State, step: Step)
    requires LoopShape(s) && Enabled(s, step)
    ensures LoopShape(Next(s, step))
  {
  }

  lemma NextLosesNone(s: State, step: Step)
    requires NoneLost(s) && LoopShape(s) && Enabled(s, step)
    ensures NoneLost(Next(s, step))
  {
  }

  /** The histories grow by what the step does. */
  lemma NextHistory(s: State, step: Step)
    requires Enabled(s, step)
    ensures Triggers(Next(s, step).marks) == Triggers(s.marks) + Bit(step.TriggerSet?)
    ensures TakenUrls(Next(s, step).marks) == TakenUrls(s.marks) + if step.TakePending? then [s.pending] else []
    ensures Forced(Next(s, step).passes) == Forced(s.passes) + Bit(step.StartForced?)
    ensures ForcedUrls(Next(s, step).passes) == ForcedUrls(s.passes) + if step.StartForced? then [s.place.url] else []
    ensures TakesLatest(s.marks) && s.pending == Pending(s.marks) ==> TakesLatest(Next(s, step).marks)
  {
    hide Triggers, TakenUrls, Forced, ForcedUrls, TakesLatest, Pending;
    match step {
      case TriggerSet(url) => MarkAppended(s.marks, Set(url));
      case TakePending => MarkAppended(s.marks, Take(s.pending));
      case StartForced => PassAppended(s.passes, (true, s.place.url));
      case StartScheduled => PassAppended(s.passes, (false, None));
      case _ =>
    }
  }

  lemma NextOutstanding(s: State, step: Step)
    requires Enabled(s, step) && LoopShape(s)
    ensures Outstanding(Next(s, step)) + Bit(step.StartForced?) <= Outstanding(s) + Bit(step.TriggerSet?)
  {
  }

  lemma NextUsesTaken(s: State, step: Step)
    requires Enabled(s, step) && PassesUseTaken(s)
    ensures PassesUseTaken(Next(s, step))
  {
    hide TakenUrls, ForcedUrls;
    NextHistory(s, step);
  }

  lemma NextKeepsInvariant(s: State, step: Step)
    requires Invariant(s) && Enabled(s, step)
    ensures Invariant(Next(s, step))
  {
    hide LoopShape, PassesUseTaken, TakesLatest, Next, Outstanding, Triggers, Forced;
    NextKeepsShape(s, step);
    NextLosesNone(s, step);
    NextHistory(s, step);
    NextOutstanding(s, step);
    NextUsesTaken(s, step);
  }

  lemma {:induction false} RunKeepsInvariant(s: State, steps: seq<Step>, t: State)
    requires Invariant(s) && Reaches(s, steps, t)
    ensures Invariant(t) && t.auto == s.auto
    decreases |steps|
  {
    if steps != [] {
      NextKeepsInvariant(s, steps[0]);
      RunKeepsInvariant(Next(s, steps[0]), steps[1..], t);
    }
  }

  lemma {:induction false} InitialInvariant(auto: bool, warmups: nat)
    ensures Invariant(Initial(auto, warmups))
  {
    hide Initial, LoopShape, NoneLost, ForcedBounded, TakesLatest, PassesUseTaken;
    InitialShape(auto, warmups);
    InitialHistory(auto, warmups);
  }

  lemma {:induction false} InitialShape(auto: bool, warmups: nat)
    ensures LoopShape(Initial(auto, warmups)) && NoneLost(Initial(auto, warmups))
  {
  }

  lemma {:induction false} InitialHistory(auto: bool, warmups: nat)
    ensures var s := Initial(auto, warmups);
            ForcedBounded(s) && TakesLatest(s.marks) && PassesUseTaken(s)
  {
    assert Triggers([]) == 0 && Forced([]) == 0;
    assert TakenUrls([]) == [] && ForcedUrls([]) == [];
  }

  /** The URL at position i is that of the set just before it, or None when there is none there. */
  predicate YieldsSetBefore(marks: seq<Mark>, i: nat)
    requires i < |marks|
  {
    marks[i].url == if i > 0 && marks[i - 1].Set? then marks[i - 1].url else None
  }

  /** Under every interleaving: what was set last, with a URL or without, is taken or has a wake-up on its way to the
      loop; forced passes never exceed triggers; and the forced passes use, in order, exactly the URLs taken, each
      that of the set just before its take, or None when that set had already been consumed or was None; without
      automatic passes every pass is a forced one; a scheduled pass uses no URL. */
  lemma ProtocolSafe(auto: bool, warmups: nat, steps: seq<Step>, t: State)
    requires Reaches(Initial(auto, warmups), steps, t)
    ensures LastIsSet(t.marks) ==> WakeUnderWay(t)
    ensures t.pending.Some? ==> LastIsSet(t.marks) && t.pending == t.marks[|t.marks| - 1].url
    ensures Forced(t.passes) <= Triggers(t.marks)
    ensures forall i: nat :: i < |t.marks| && t.marks[i].Take? ==> YieldsSetBefore(t.marks, i)
    ensures ForcedUrls(t.passes) <= TakenUrls(t.marks)
    ensures !t.place.Taken? ==> ForcedUrls(t.passes) == TakenUrls(t.marks)
    ensures t.running <==> t.place.InPass?
    ensures !auto ==> forall i :: 0 <= i < |t.passes| ==> t.passes[i].0
    ensures forall i :: 0 <= i < |t.passes| && !t.passes[i].0 ==> t.passes[i].1 == None
  {
    hide *;
    InitialInvariant(auto, warmups);
    RunKeepsInvariant(Initial(auto, warmups), steps, t);
    InitialAuto(auto, warmups);
    InvariantMeans(t);
    forall i: nat | i < |t.marks| && t.marks[i].Take?
      ensures YieldsSetBefore(t.marks, i)
    {
      TakeMeans(t.marks, i);
    }
  }

  lemma InitialAuto(auto: bool, warmups: nat)
    ensures Initial(auto, warmups).auto == auto
  {
  }

  lemma InvariantMeans(t: State)
    requires Invariant(t)
    ensures LastIsSet(t.marks) ==> WakeUnderWay(t)
    ensures t.pending.Some? ==> LastIsSet(t.marks) && t.pending == t.marks[|t.marks| - 1].url
    ensures Forced(t.passes) <= Triggers(t.marks)
    ensures TakesLatest(t.marks)
    ensures ForcedUrls(t.passes) <= TakenUrls(t.marks)
    ensures !t.place.Taken? ==> ForcedUrls(t.passes) == TakenUrls(t.marks)
    ensures t.running <==> t.place.InPass?
    ensures !t.auto ==> forall i :: 0 <= i < |t.passes| ==> t.passes[i].0
    ensures forall i :: 0 <= i < |t.passes| && !t.passes[i].0 ==> t.passes[i].1 == None
  {
    hide Triggers, TakenUrls, Forced, ForcedUrls, TakesLatest, WakeUnderWay;
  }

  lemma TakeMeans(marks: seq<Mark>, i: nat)
    requires TakesLatest(marks) && i < |marks| && marks[i].Take?
    ensures YieldsSetBefore(marks, i)
  {
    assert marks[i].url == Pending(marks[..i]);
  }

  /** The first n passes are scheduled, and those still to come are counted. */
  predicate WarmsUp(s: State, n: nat) {
    && s.auto && |s.passes| + s.warmups >= n && (s.warmups > 0 ==> |s.passes| + s.warmups == n)
    && forall i :: 0 <= i < |s.passes| && i < n ==> !s.passes[i].0
  }

  lemma NextWarmsUp(s: State, step: Step, n: nat)
    requires WarmsUp(s, n) && LoopShape(s) && Enabled(s, step)
    ensures WarmsUp(Next(s, step), n)
  {
  }

  lemma {:induction false} RunWarmsUp(s: State, steps: seq<Step>, t: State, n: nat)
    requires WarmsUp(s, n) && LoopShape(s) && Reaches(s, steps, t)
    ensures WarmsUp(t, n) && LoopShape(t)
    decreases |steps|
  {
    hide WarmsUp, LoopShape, Next;
    if steps != [] {
      NextWarmsUp(s, steps[0], n);
      NextKeepsShape(s, steps[0]);
      RunWarmsUp(Next(s, steps[0]), steps[1..], t, n);
    }
  }

  /** With automatic passes the loop first makes as many scheduled passes as there are warm-ups, at least one, before it
      ever waits for a trigger or lets one through. */
  lemma WarmupsFirst(warmups: nat, steps: seq<Step>, t: State)
    requires Reaches(Initial(true, warmups), steps, t)
    ensures var n := if warmups == 0 then 1 else warmups;
            && (forall i :: 0 <= i < |t.passes| && i < n ==> !t.passes[i].0)
            && (!t.place.Due? && !t.place.InPass? ==> |t.passes| >= n)
  {
    hide Reaches;
    InitialShape(true, warmups);
    RunWarmsUp(Initial(true, warmups), steps, t, if warmups == 0 then 1 else warmups);
  }

  /** When everything is at rest (no trigger halfway, the loop waiting unsignalled, no permit) no trigger is left
      behind, with a URL or without: nothing was ever set, or what was set last has been taken. */
  lemma NothingStranded(auto: bool, warmups: nat, steps: seq<Step>, t: State)
    requires Reaches(Initial(auto, warmups), steps, t)
    requires t.halfway == 0 && t.place.Waiting? && t.notify == Notify(Registered, false)
    ensures t.pending.None?
    ensures t.marks == [] || t.marks[|t.marks| - 1].Take?
  {
    hide Reaches;
    InitialInvariant(auto, warmups);
    RunKeepsInvariant(Initial(auto, warmups), steps, t);
  }

  // ---- When a trigger is served alone ----

  /** The wake-ups under way: triggers between their halves, the stored permit, a signal, the loop woken. */
  function Wakes(s: State): nat {
    s.halfway + Bit(s.notify.permit) + Bit(s.notify.waiter.Signalled?) + Bit(s.place.Woken?)
  }

  predicate NoFurtherTrigger(steps: seq<Step>) {
    forall i :: 0 <= i < |steps| ==> !steps[i].TriggerSet?
  }

  /** Every take from position n on yields this URL. */
  predicate TakesOnly(marks: seq<Mark>, n: nat, url: string) {
    forall i :: n <= i < |marks| && marks[i].Take? ==> marks[i].url == Some(url)
  }

  /** However the protocol goes on after a trigger for this URL is set in state s, without a further trigger, the loop
      takes this URL and no other: no wake-up is left over to start a pass over all groups. */
  ghost predicate ServedAlone(s: State, url: string) {
    forall steps, t :: Reaches(Next(s, TriggerSet(Some(url))), steps, t) && NoFurtherTrigger(steps) ==>
      TakesOnly(t.marks, |s.marks|, url)
  }

  /** A trigger that found no wake-up under way is either waiting with the only one, or taken. */
  predicate Serving(t: State, before: seq<Mark>, url: string) {
    || (Wakes(t) <= 1 && t.pending == Some(url) && t.marks == before + [Set(Some(url))])
    || (Wakes(t) == 0 && t.marks == before + [Set(Some(url)), Take(Some(url))])
  }

  lemma NextServing(t: State, step: Step, before: seq<Mark>, url: string)
    requires Serving(t, before, url) && Enabled(t, step) && !step.TriggerSet?
    ensures Serving(Next(t, step), before, url)
  {
    assert before + [Set(Some(url))] + [Take(Some(url))] == before + [Set(Some(url)), Take(Some(url))];
  }

  lemma {:induction false} RunServing(s: State, steps: seq<Step>, t: State, before: seq<Mark>, url: string)
    requires Serving(s, before, url) && Reaches(s, steps, t) && NoFurtherTrigger(steps)
    ensures Serving(t, before, url)
    decreases |steps|
  {
    hide Serving;
    if steps != [] {
      NextServing(s, steps[0], before, url);
      assert forall i :: 0 <= i < |steps| - 1 ==> steps[1..][i] == steps[i + 1];
      RunServing(Next(s, steps[0]), steps[1..], t, before, url);
    }
  }

  /** How far the loop is from being woken, when some wake-up is under way. */
  function Distance(s: State): nat {
    match s.place
    case Woken => 0
    case Waiting => if s.notify.waiter.Signalled? then 1 else 2
    case Between => 3
    case InPass(_, _) => 2 * s.warmups + 5
    case Due => if s.warmups == 0 then 6 else 2 * s.warmups + 4
    case Taken(_) => 2 * s.warmups + 6
  }

  /** The next step that brings the loop closer to being woken. */
  function Closer(s: State): Step
    requires !s.place.Woken?
  {
    match s.place
    case Waiting => if s.notify.waiter.Signalled? then Wake else TriggerNotify
    case Between => Enter
    case InPass(_, _) => Finish
    case Due => StartScheduled
    case Taken(_) => StartForced
  }

  lemma CloserIsCloser(s: State)
    requires LoopShape(s) && Wakes(s) > 0 && !s.place.Woken?
    ensures Enabled(s, Closer(s)) && !Closer(s).TriggerSet?
    ensures var t := Next(s, Closer(s));
            && LoopShape(t) && Wakes(t) == Wakes(s) && Distance(t) < Distance(s)
            && t.marks == s.marks && t.pending == s.pending
  {
  }

  /** With a wake-up under way the loop can be brought to be woken, no wake-up being lost. */
  lemma {:induction false} ToWoken(s: State) returns (steps: seq<Step>, t: State)
    requires LoopShape(s) && Wakes(s) > 0
    ensures Reaches(s, steps, t) && NoFurtherTrigger(steps)
    ensures LoopShape(t) && t.place.Woken? && Wakes(t) == Wakes(s) && t.marks == s.marks && t.pending == s.pending
    decreases Distance(s)
  {
    hide LoopShape, Wakes, Distance, Closer, Next;
    if s.place.Woken? {
      steps, t := [], s;
      AtEnd(s);
    } else {
      CloserIsCloser(s);
      var step := Closer(s);
      steps, t := ToWoken(Next(s, step));
      ReachesFirst(s, step, steps, t);
      steps := [step] + steps;
    }
  }

  lemma ReachesFirst(s: State, step: Step, steps: seq<Step>, t: State)
    requires Enabled(s, step) && Reaches(Next(s, step), steps, t)
    ensures Reaches(s, [step] + steps, t)
  {
    assert ([step] + steps)[1..] == steps;
  }

  /** Brings the loop to its next take. */
  lemma ToTake(s: State) returns (steps: seq<Step>, t: State)
    requires LoopShape(s) && Wakes(s) > 0
    ensures Reaches(s, steps, t) && NoFurtherTrigger(steps)
    ensures LoopShape(t) && Wakes(t) == Wakes(s) - 1 && t.pending == None && t.marks == s.marks + [Take(s.pending)]
  {
    hide Reaches;
    var woken;
    steps, woken := ToWoken(s);
    steps, t := Extend(s, steps, woken, TakePending);
  }

  /** Two wake-ups after the trigger is set: the loop takes the URL and then None. */
  lemma TwoTakes(s: State, url: string) returns (steps: seq<Step>, t: State)
    requires LoopShape(s) && Wakes(s) > 0
    ensures Reaches(Next(s, TriggerSet(Some(url))), steps, t) && NoFurtherTrigger(steps)
    ensures t.marks == s.marks + [Set(Some(url)), Take(Some(url)), Take(None)]
  {
    hide Reaches;
    var u := Next(s, TriggerSet(Some(url)));
    var first, mid := ToTake(u);
    var second;
    second, t := ToTake(mid);
    ReachesAppend(u, first, mid, second, t);
    steps := first + second;
  }

  /** In every state of the protocol, a trigger for a URL is sure to be served alone exactly when no wake-up is under
      way as it is set. */
  lemma ServedAloneExactly(s: State, url: string)
    requires Invariant(s)
    ensures ServedAlone(s, url) <==> Wakes(s) == 0
  {
    hide Reaches;
    if Wakes(s) == 0 {
      forall steps, t | Reaches(Next(s, TriggerSet(Some(url))), steps, t) && NoFurtherTrigger(steps)
        ensures TakesOnly(t.marks, |s.marks|, url)
      {
        RunServing(Next(s, TriggerSet(Some(url))), steps, t, s.marks, url);
      }
    } else {
      var steps, t := TwoTakes(s, url);
      assert t.marks[|s.marks| + 2] == Take(None);
      assert !TakesOnly(t.marks, |s.marks|, url);
    }
  }

  // ---- The protocol in memory ----

  /** The control handle's fields are those of the state. */
  ghost predicate Agrees(control: SpeedTestControl, s: State)
    reads control
  {
    control.notify == s.notify && control.running == s.running && control.pendingUrl == s.pending
  }

  /** One step on the shared control handle. */
  method Perform(control: SpeedTestControl, s: State, step: Step) returns (t: State)
    requires Agrees(control, s) && Enabled(s, step)
    modifies control
    ensures t == Next(s, step) && Agrees(control, t)
  {
    match step {
      case TriggerSet(url) => control.SetUrl(url);
      case TriggerNotify => control.Wake();
      case Enter =>
        if control.notify.permit {
          control.notify := control.notify.(permit := false);
        } else {
          control.notify := control.notify.(waiter := Registered);
        }
      case Wake => control.notify := control.notify.(waiter := Absent);
      case Timer =>
        var forward := control.notify.waiter.Signalled?;
        control.notify := control.notify.(waiter := Absent);
        if forward {
          control.Wake();
        }
      case TakePending => var _ := control.TakeUrl();
      case StartForced => control.running := true;
      case StartScheduled => control.running := true;
      case Finish => control.running := false;
    }
    t := Next(s, step);
  }

  // ---- A run with a pass nobody asked for ----

  /** Adds one step to a run. */
  lemma Extend(s: State, steps: seq<Step>, t: State, step: Step) returns (more: seq<Step>, next: State)
    requires Reaches(s, steps, t) && Enabled(t, step)
    ensures more == steps + [step] && next == Next(t, step) && Reaches(s, more, next)
  {
    more, next := steps + [step], Next(t, step);
    assert Reaches(t, [step], next) by {
      assert [step][1..] == [];
    }
    ReachesAppend(s, steps, t, [step], next);
  }

  lemma {:induction false} ReachesAppend(s: State, a: seq<Step>, mid: State, b: seq<Step>, t: State)
    requires Reaches(s, a, mid) && Reaches(mid, b, t)
    ensures Reaches(s, a + b, t)
    decreases |a|
  {
    if a == [] {
      assert a + b == b;
    } else {
      ReachesAppend(Next(s, a[0]), a[1..], mid, b, t);
      assert (a + b)[1..] == a[1..] + b;
    }
  }

  /** What a wake-up left over can do: a second trigger set while the first one's notification is still to come takes
      over its pass, and the two notifications, a signal and a permit, lead to a second pass, over all groups. */
  lemma OverlappingTriggersWidenAPass(u1: string, u2: string) returns (steps: seq<Step>, t: State)
    ensures Reaches(Initial(false, 0), steps, t)
    ensures t.marks == [Set(Some(u1)), Set(Some(u2)), Take(Some(u2)), Take(None)]
    ensures t.passes == [(true, Some(u2)), (true, None)]
  {
    hide Reaches;
    steps, t := TwoTriggersOneWake(u1, u2);
    steps, t := TakeAndRun(Initial(false, 0), steps, t);
    steps, t := Extend(Initial(false, 0), steps, t, Finish);
    steps, t := Extend(Initial(false, 0), steps, t, Enter);
    steps, t := TakeAndRun(Initial(false, 0), steps, t);
  }

  lemma TakeAndRun(s: State, steps: seq<Step>, t: State) returns (more: seq<Step>, next: State)
    requires Reaches(s, steps, t) && t.place.Woken?
    ensures Reaches(s, more, next)
    ensures next == t.(pending := None, place := InPass(true, t.pending), running := true,
                       marks := t.marks + [Take(t.pending)], passes := t.passes + [(true, t.pending)])
  {
    hide Reaches;
    more, next := Extend(s, steps, t, TakePending);
    more, next := Extend(s, more, next, StartForced);
  }

  /** Both triggers complete while the loop waits: the first signals it, the second stores the permit. */
  lemma TwoTriggersOneWake(u1: string, u2: string) returns (steps: seq<Step>, t: State)
    ensures Reaches(Initial(false, 0), steps, t)
    ensures t.notify == Notify(Absent, true) && t.pending == Some(u2) && t.place.Woken?
    ensures t.marks == [Set(Some(u1)), Set(Some(u2))] && t.passes == [] && t.warmups == 0
  {
    hide Reaches;
    var s := Initial(false, 0);
    steps, t := [], s;
    assert Reaches(s, steps, t) by {
      AtEnd(s);
    }
    steps, t := Extend(s, steps, t, Enter);
    steps, t := Extend(s, steps, t, TriggerSet(Some(u1)));
    steps, t := Extend(s, steps, t, TriggerSet(Some(u2)));
    steps, t := Extend(s, steps, t, TriggerNotify);
    steps, t := Extend(s, steps, t, TriggerNotify);
    steps, t := Extend(s, steps, t, Wake);
  }

  lemma AtEnd(s: State)
    ensures Reaches(s, [], s)
  {
  }
}
