/** The live-activity counter in single atomic steps: what "busy" is worth while requests come and go. */
module Activity {
  import opened Common

  /** The two shared counters; each method is one atomic action on one of them. */
  class MetricsStore {
    var activeRequests: nat
    var lastActivity: nat

    constructor ()
      ensures activeRequests == 0 && lastActivity == 0
    {
      activeRequests, lastActivity := 0, 0;
    }

    /** `fetch_add(1)` on a u64. */
    method Increment()
      modifies this`activeRequests
      ensures activeRequests == Add(old(activeRequests))
    {
      activeRequests := if activeRequests + 1 == U64_SPAN then 0 else activeRequests + 1;
    }

    /** `fetch_sub(1)` on a u64, which wraps below zero. */
    method Decrement()
      modifies this`activeRequests
      ensures activeRequests == Sub(old(activeRequests))
    {
      activeRequests := if activeRequests == 0 then U64_SPAN - 1 else activeRequests - 1;
    }

    method Stamp(now: nat)
      modifies this`lastActivity
      ensures lastActivity == now
    {
      lastActivity := now;
    }

    method ActiveRequests() returns (v: nat)
      ensures v == activeRequests
    {
      v := activeRequests;
    }

    method LastActivity() returns (v: nat)
      ensures v == lastActivity
    {
      v := lastActivity;
    }
  }

  function Add(v: nat): nat {
    if v + 1 == U64_SPAN then 0 else v + 1
  }

  function Sub(v: nat): nat {
    if v == 0 then U64_SPAN - 1 else v - 1
  }

  predicate Busy(active: nat, last: nat, grace: nat, now: nat) {
    active > 0 || SatSub(now, last) < grace
  }

  // ---- Guards ----

  /** The life of one guard. Beginning increments, reads the clock and stores the reading; dropping decrements, reads
      the clock and stores the reading. The reading is taken before it is stored. */
  datatype Phase =
    | Counted
    | BeginRead(at: nat)
    | Live
    | Uncounted
    | DropRead(at: nat)

  /** The counters, the guards that have begun and are not finished, and the clock. The rest is history, not part of
      the program: the requests whose handler has returned while their body goes on, with the time it returned; the
      latest time at which some guard was counted; the latest time at which some request was in flight. */
  datatype State = State(
    active: nat,
    last: nat,
    guards: map<nat, Phase>,
    clock: nat,
    streams: map<nat, nat>,
    lastCounted: nat,
    lastInFlight: nat)

  datatype Step =
    | Begin(g: nat)
    | ReadAtBegin(g: nat)
    | StampAtBegin(g: nat)
    | Drop(g: nat)
    | ReadAtDrop(g: nat)
    | StampAtDrop(g: nat)
    | EndBody(g: nat)
    | Tick(to: nat)

  predicate IsCounted(p: Phase) {
    p.Counted? || p.BeginRead? || p.Live?
  }

  /** The guards that have incremented and not yet decremented. */
  function CountedGuards(guards: map<nat, Phase>): set<nat> {
    set g | g in guards && IsCounted(guards[g])
  }

  predicate Enabled(s: State, step: Step) {
    match step
    case Begin(g) => g !in s.guards && g !in s.streams
    case ReadAtBegin(g) => g in s.guards && s.guards[g].Counted?
    case StampAtBegin(g) => g in s.guards && s.guards[g].BeginRead?
    case Drop(g) => g in s.guards && s.guards[g].Live?
    case ReadAtDrop(g) => g in s.guards && s.guards[g].Uncounted?
    case StampAtDrop(g) => g in s.guards && s.guards[g].DropRead?
    case EndBody(g) => g in s.streams && g !in s.guards
    case Tick(to) => to >= s.clock
  }

  /** Some request is in flight: its handler is, or its body. */
  predicate InFlight(s: State) {
    CountedGuards(s.guards) != {} || s.streams != map[]
  }

  function Seen(s: State): State {
    s.(lastCounted := if CountedGuards(s.guards) != {} then s.clock else s.lastCounted,
       lastInFlight := if InFlight(s) then s.clock else s.lastInFlight)
  }

  function Next(s: State, step: Step): State
    requires Enabled(s, step)
  {
    match step
    case Begin(g) => Seen(s.(active := Add(s.active), guards := s.guards[g := Counted]))
    case ReadAtBegin(g) => s.(guards := s.guards[g := BeginRead(s.clock)])
    case StampAtBegin(g) => s.(last := s.guards[g].at, guards := s.guards[g := Live])
    case Drop(g) => Seen(s).(active := Sub(s.active), guards := s.guards[g := Uncounted],
                             streams := s.streams[g := s.clock])
    case ReadAtDrop(g) => s.(guards := s.guards[g := DropRead(s.clock)])
    case StampAtDrop(g) => s.(last := s.guards[g].at, guards := s.guards - {g})
    case EndBody(g) => Seen(s).(streams := s.streams - {g})
    case Tick(to) => Seen(s).(clock := to)
  }

  /** The step does not store a reading older than the stored one: stamps are serialized. */
  predicate InOrder(s: State, step: Step)
    requires Enabled(s, step)
  {
    (step.StampAtBegin? || step.StampAtDrop?) ==> s.guards[step.g].at >= s.last
  }

  ghost predicate Reaches(s: State, steps: seq<Step>, t: State, ordered: bool)
    decreases |steps|
  {
    if steps == [] then s == t
    else
      Enabled(s, steps[0]) && (ordered ==> InOrder(s, steps[0])) && Reaches(Next(s, steps[0]), steps[1..], t, ordered)
  }

  function Initial(clock: nat): State {
    State(0, 0, map[], clock, map[], 0, 0)
  }

  /** Some guard has decremented and not yet stored its stamp. */
  predicate InGap(s: State) {
    exists g :: g in s.guards && !IsCounted(s.guards[g])
  }

  // ---- The counters in memory ----

  /** The shared counters are those of the state. */
  ghost predicate Agrees(store: MetricsStore, s: State)
    reads store
  {
    store.activeRequests == s.active && store.lastActivity == s.last
  }

  /** One atomic step on the shared counters. */
  method Perform(store: MetricsStore, s: State, step: Step) returns (t: State)
    requires Agrees(store, s) && Enabled(s, step)
    modifies store
    ensures t == Next(s, step) && Agrees(store, t)
  {
    match step {
      case Begin(_) => store.Increment();
      case Drop(_) => store.Decrement();
      case StampAtBegin(g) => store.Stamp(s.guards[g].at);
      case StampAtDrop(g) => store.Stamp(s.guards[g].at);
      case _ =>
    }
    t := Next(s, step);
  }

  method PerformAll(store: MetricsStore, s: State, steps: seq<Step>, ghost t: State) returns (u: State)
    requires Agrees(store, s) && Reaches(s, steps, t, false)
    modifies store
    ensures u == t && Agrees(store, t)
  {
    u := s;
    var n := 0;
    while n < |steps|
      invariant n <= |steps| && Agrees(store, u) && Reaches(u, steps[n..], t, false)
    {
      assert steps[n..][0] == steps[n] && steps[n..][1..] == steps[n + 1..];
      u := Perform(store, u, steps[n]);
      n := n + 1;
    }
  }

  /** The activity check in its three reads, other steps taken in between: the counter in state s, the clock in state t,
      the stamp in state u. */
  method IsBusy(store: MetricsStore, grace: nat, s: State, first: seq<Step>, ghost t: State, second: seq<Step>,
                ghost u: State)
    returns (busy: bool)
    requires Agrees(store, s) && Reaches(s, first, t, false) && Reaches(t, second, u, false)
    modifies store
    ensures busy == (s.active > 0 || SatSub(t.clock, u.last) < grace)
  {
    var active := store.ActiveRequests();
    if active > 0 {
      return true;
    }
    var atClock := PerformAll(store, s, first, t);
    var now := atClock.clock;
    var atStamp := PerformAll(store, atClock, second, u);
    var last := store.LastActivity();
    busy := SatSub(now, last) < grace;
  }

  // ---- The counter ----

  ghost predicate CounterExact(s: State) {
    s.active == |CountedGuards(s.guards)| % U64_SPAN
  }

  lemma CountedAfter(guards: map<nat, Phase>, g: nat, p: Phase)
    ensures CountedGuards(guards[g := p])
         == if IsCounted(p) then CountedGuards(guards) + {g} else CountedGuards(guards) - {g}
  {
  }

  lemma CountedWithout(guards: map<nat, Phase>, g: nat)
    ensures CountedGuards(guards - {g}) == CountedGuards(guards) - {g}
  {
  }

  lemma AddMod(n: nat)
    ensures Add(n % U64_SPAN) == (n + 1) % U64_SPAN
    ensures n > 0 ==> Sub(n % U64_SPAN) == (n - 1) % U64_SPAN
  {
  }

  lemma NextKeepsCounter(s: State, step: Step)
    requires CounterExact(s) && Enabled(s, step)
    ensures CounterExact(Next(s, step))
  {
    hide CountedGuards;
    NextCounted(s, step);
    AddMod(|CountedGuards(s.guards)|);
  }

  /** Beginning counts one guard more, dropping one less, and no other step changes which guards are counted. */
  lemma NextCounted(s: State, step: Step)
    requires Enabled(s, step)
    ensures var before, after := CountedGuards(s.guards), CountedGuards(Next(s, step).guards);
            match step
            case Begin(g) => g !in before && after == before + {g}
            case Drop(g) => g in before && after == before - {g}
            case _ => after == before
  {
    match step {
      case Begin(g) => CountedAfter(s.guards, g, Counted);
      case ReadAtBegin(g) => CountedAfter(s.guards, g, BeginRead(s.clock));
      case StampAtBegin(g) => CountedAfter(s.guards, g, Live);
      case Drop(g) => CountedAfter(s.guards, g, Uncounted);
      case ReadAtDrop(g) => CountedAfter(s.guards, g, DropRead(s.clock));
      case StampAtDrop(g) => CountedWithout(s.guards, g);
      case _ =>
    }
  }

  /** Under every interleaving the counter is the number of guards that have incremented and not yet decremented (modulo
      2^64), so a decrement never meets zero. */
  lemma {:induction false} CounterOverRuns(s: State, steps: seq<Step>, t: State, ordered: bool)
    requires CounterExact(s) && Reaches(s, steps, t, ordered)
    ensures CounterExact(t)
    ensures |CountedGuards(t.guards)| < U64_SPAN ==> t.active == |CountedGuards(t.guards)|
    ensures forall g :: Enabled(t, Drop(g)) && |CountedGuards(t.guards)| < U64_SPAN ==> t.active > 0
    decreases |steps|
  {
    if steps == [] {
      forall g | Enabled(t, Drop(g)) && |CountedGuards(t.guards)| < U64_SPAN
        ensures t.active > 0
      {
        assert g in CountedGuards(t.guards);
      }
    } else {
      NextKeepsCounter(s, steps[0]);
      CounterOverRuns(Next(s, steps[0]), steps[1..], t, ordered);
    }
  }

  // ---- Busy ----

  /** Guard g still has a stamp to store that will not be older than the last moment at which some guard was counted. */
  predicate WillCover(s: State, g: nat) {
    g in s.guards && (s.guards[g].Uncounted? || (s.guards[g].DropRead? && s.guards[g].at >= s.lastCounted))
  }

  /** A guard is counted, or the stored stamp covers the last moment one was, or a stamp that will is on its way. */
  ghost predicate Covered(s: State) {
    && s.lastCounted <= s.clock
    && (CountedGuards(s.guards) != {} || s.last >= s.lastCounted || exists g :: WillCover(s, g))
  }

  lemma NextKeepsCovered(s: State, step: Step)
    requires Covered(s) && Enabled(s, step) && InOrder(s, step)
    ensures Covered(Next(s, step))
  {
    hide CountedGuards;
    NextCounted(s, step);
    var t := Next(s, step);
    if step.Drop? {
      assert WillCover(t, step.g);
    } else if CountedGuards(t.guards) == {} && t.last < t.lastCounted {
      var g :| WillCover(s, g);
      assert WillCover(t, g);
    }
  }

  lemma {:induction false} CoveredOverRuns(s: State, steps: seq<Step>, t: State)
    requires Covered(s) && Reaches(s, steps, t, true)
    ensures Covered(t)
    decreases |steps|
  {
    if steps != [] {
      NextKeepsCovered(s, steps[0]);
      CoveredOverRuns(Next(s, steps[0]), steps[1..], t);
    }
  }

  lemma {:induction false} ClockAhead(s: State, steps: seq<Step>, t: State, ordered: bool)
    requires s.lastCounted <= s.clock && Reaches(s, steps, t, ordered)
    ensures t.lastCounted <= t.clock && s.clock <= t.clock
    ensures ordered ==> s.last <= t.last
    decreases |steps|
  {
    if steps != [] {
      ClockAhead(Next(s, steps[0]), steps[1..], t, ordered);
    }
  }

  /** For every grace period the proxy counts as busy while a handler is in flight (its guard counted) and for less than
      the grace period after the last moment one was. */
  ghost predicate HandlersSeen(t: State) {
    forall grace: nat ::
      CountedGuards(t.guards) != {} || t.clock - t.lastCounted < grace ==> Busy(t.active, t.last, grace, t.clock)
  }

  /** Under every interleaving, stamps serialized or not, this holds exactly when some guard is counted or the stored
      stamp is not older than the last moment one was. */
  lemma HandlersSeenExactly(clock: nat, steps: seq<Step>, t: State, ordered: bool)
    requires Reaches(Initial(clock), steps, t, ordered) && |CountedGuards(t.guards)| < U64_SPAN
    ensures HandlersSeen(t) <==> CountedGuards(t.guards) != {} || t.last >= t.lastCounted
  {
    hide Reaches;
    InitiallyIdle(clock);
    CounterOverRuns(Initial(clock), steps, t, ordered);
    ClockAhead(Initial(clock), steps, t, ordered);
    if CountedGuards(t.guards) != {} {
      assert |CountedGuards(t.guards)| > 0;
    } else if t.last < t.lastCounted {
      assert !Busy(t.active, t.last, t.clock - t.lastCounted + 1, t.clock);
    }
  }

  lemma InitiallyIdle(clock: nat)
    ensures CounterExact(Initial(clock)) && Covered(Initial(clock))
  {
    assert CountedGuards(map[]) == {};
  }

  /** With serialized stamps it can fail only while some guard is between its decrement and its stamp. */
  lemma HandlersMissedOnlyInGap(clock: nat, steps: seq<Step>, t: State)
    requires Reaches(Initial(clock), steps, t, true) && |CountedGuards(t.guards)| < U64_SPAN
    ensures !HandlersSeen(t) ==> InGap(t)
  {
    hide Reaches;
    HandlersSeenExactly(clock, steps, t, true);
    InitiallyIdle(clock);
    CoveredOverRuns(Initial(clock), steps, t);
    assert forall g :: WillCover(t, g) ==> g in t.guards && !IsCounted(t.guards[g]);
  }

  /** So outside every gap, with serialized stamps, the proxy counts as busy while a guard is counted and for less
      than the grace period after the last moment one was. */
  lemma BusyWhileRecentlyActive(clock: nat, steps: seq<Step>, t: State, grace: nat)
    requires Reaches(Initial(clock), steps, t, true)
    requires !InGap(t) && |CountedGuards(t.guards)| < U64_SPAN
    requires CountedGuards(t.guards) != {} || t.clock - t.lastCounted < grace
    ensures Busy(t.active, t.last, grace, t.clock)
  {
    HandlersMissedOnlyInGap(clock, steps, t);
  }

  /** The check makes its three reads at different moments. With serialized stamps it still answers busy when, at its
      first read, no guard is in the gap and some guard is counted, or the last moment one was is less than the grace
      period before its clock reading; whatever happens between the reads. */
  lemma CheckAnswersBusy(clock: nat, earlier: seq<Step>, s: State, first: seq<Step>, t: State, second: seq<Step>,
                         u: State, grace: nat)
    requires Reaches(Initial(clock), earlier, s, true) && Reaches(s, first, t, true) && Reaches(t, second, u, true)
    requires !InGap(s) && |CountedGuards(s.guards)| < U64_SPAN
    requires CountedGuards(s.guards) != {} || t.clock - s.lastCounted < grace
    ensures s.active > 0 || SatSub(t.clock, u.last) < grace
  {
    hide Reaches;
    HandlersMissedOnlyInGap(clock, earlier, s);
    HandlersSeenExactly(clock, earlier, s, true);
    ClockAhead(Initial(clock), earlier, s, true);
    ClockAhead(s, first, t, true);
    ClockAhead(t, second, u, true);
    assert CountedGuards(s.guards) != {} ==> Busy(s.active, s.last, 0, s.clock);
  }

  // ---- Requests in flight ----

  /** The documented promise, for one grace period: the proxy counts as busy while a request is in flight, its body
      included, and for less than the grace period after the last moment one was. */
  predicate RequestsSeen(t: State, grace: nat) {
    InFlight(t) || t.clock - t.lastInFlight < grace ==> Busy(t.active, t.last, grace, t.clock)
  }

  /** While a body streams, it holds exactly when some handler is in flight or the stored stamp is younger than the
      grace period; when no body streams, also when the last request ended a grace period ago. */
  lemma RequestsSeenExactly(clock: nat, steps: seq<Step>, t: State, ordered: bool, grace: nat)
    requires Reaches(Initial(clock), steps, t, ordered) && |CountedGuards(t.guards)| < U64_SPAN
    ensures RequestsSeen(t, grace) <==>
              || CountedGuards(t.guards) != {} || SatSub(t.clock, t.last) < grace
              || (t.streams == map[] && t.clock - t.lastInFlight >= grace)
  {
    hide Reaches;
    InitiallyIdle(clock);
    CounterOverRuns(Initial(clock), steps, t, ordered);
    if CountedGuards(t.guards) != {} {
      assert |CountedGuards(t.guards)| > 0;
    }
  }

  /** Every handler that returned was counted when it did. */
  ghost predicate ReturnsCounted(s: State) {
    && s.lastCounted <= s.clock && s.lastCounted <= s.lastInFlight <= s.clock
    && forall g :: g in s.streams ==> s.streams[g] <= s.lastCounted
  }

  lemma NextReturnsCounted(s: State, step: Step)
    requires ReturnsCounted(s) && Enabled(s, step)
    ensures ReturnsCounted(Next(s, step))
  {
    if step.Drop? {
      assert step.g in CountedGuards(s.guards);
    }
  }

  lemma {:induction false} ReturnsCountedOverRuns(s: State, steps: seq<Step>, t: State, ordered: bool)
    requires ReturnsCounted(s) && Reaches(s, steps, t, ordered)
    ensures ReturnsCounted(t)
    decreases |steps|
  {
    if steps != [] {
      NextReturnsCounted(s, steps[0]);
      ReturnsCountedOverRuns(Next(s, steps[0]), steps[1..], t, ordered);
    }
  }

  /** With serialized stamps and outside every gap, a body counts as busy for less than the grace period after its
      handler returned, and the promise fails only when no handler has been in flight for a grace period while a body
      went on after the last one. */
  lemma OnlyLongBodiesMissed(clock: nat, steps: seq<Step>, t: State, grace: nat)
    requires Reaches(Initial(clock), steps, t, true) && !InGap(t) && |CountedGuards(t.guards)| < U64_SPAN
    ensures forall g :: g in t.streams && t.clock - t.streams[g] < grace ==> Busy(t.active, t.last, grace, t.clock)
    ensures !RequestsSeen(t, grace) ==>
              && CountedGuards(t.guards) == {} && t.clock - t.lastCounted >= grace
              && (t.streams != map[] || t.lastInFlight > t.lastCounted)
  {
    hide Reaches;
    HandlersMissedOnlyInGap(clock, steps, t);
    HandlersSeenExactly(clock, steps, t, true);
    RequestsSeenExactly(clock, steps, t, true, grace);
    ReturnsCountedOverRuns(Initial(clock), steps, t, true);
  }

  // ---- Runs in which a promise fails ----

  /** A body that outlasts its handler by the grace period: with serialized stamps, in no gap and with every handler
      seen, the proxy looks idle while it streams. */
  lemma IdleWhileStreaming(grace: nat) returns (steps: seq<Step>, t: State)
    ensures Reaches(Initial(0), steps, t, true) && !InGap(t) && HandlersSeen(t)
    ensures t.streams == map[1 := 0] && t.clock == grace
    ensures !RequestsSeen(t, grace) && !Busy(t.active, t.last, grace, t.clock)
  {
    hide Reaches;
    steps, t := [], Initial(0);
    AtEnd(t, true);
    steps, t := BeginWhole(Initial(0), steps, t, 1, true);
    steps, t := Extend(Initial(0), steps, t, Drop(1), true);
    steps, t := Extend(Initial(0), steps, t, ReadAtDrop(1), true);
    steps, t := Extend(Initial(0), steps, t, StampAtDrop(1), true);
    assert t.guards == map[];
    ReturnsCountedOverRuns(Initial(0), steps, t, true);
    steps, t := Extend(Initial(0), steps, t, Tick(grace), true);
    assert CountedGuards(t.guards) == {};
    HandlersSeenExactly(0, steps, t, true);
  }

  /** Adds one step to a run. */
  lemma Extend(s: State, steps: seq<Step>, t: State, step: Step, ordered: bool) returns (more: seq<Step>, next: State)
    requires Reaches(s, steps, t, ordered) && Enabled(t, step) && (ordered ==> InOrder(t, step))
    ensures more == steps + [step] && next == Next(t, step) && Reaches(s, more, next, ordered)
  {
    more, next := steps + [step], Next(t, step);
    AtEnd(next, ordered);
    Before(t, step, [], next, ordered, [step]);
    ReachesAppend(s, steps, t, [step], next, ordered);
  }

  /** One whole request under a number: counted, stamped and still live. */
  lemma BeginWhole(s: State, steps: seq<Step>, t: State, g: nat, ordered: bool) returns (more: seq<Step>, next: State)
    requires Reaches(s, steps, t, ordered) && g !in t.guards && g !in t.streams && t.clock >= t.last
    ensures Reaches(s, more, next, ordered)
    ensures next.active == Add(t.active) && next.last == next.clock == t.clock && next.guards == t.guards[g := Live]
    ensures next.streams == t.streams
  {
    hide Reaches;
    more, next := Extend(s, steps, t, Begin(g), ordered);
    more, next := Extend(s, more, next, ReadAtBegin(g), ordered);
    more, next := Extend(s, more, next, StampAtBegin(g), ordered);
  }

  /** Inside the gap the proxy may look idle at the very moment a request ends. */
  lemma IdleInsideGap(grace: nat) returns (steps: seq<Step>, t: State)
    ensures Reaches(Initial(0), steps, t, true) && InGap(t)
    ensures t.lastCounted == t.clock && !Busy(t.active, t.last, grace, t.clock)
  {
    hide Reaches;
    steps, t := [], Initial(0);
    AtEnd(t, true);
    steps, t := BeginWhole(Initial(0), steps, t, 1, true);
    steps, t := Extend(Initial(0), steps, t, Tick(grace), true);
    assert 1 in CountedGuards(t.guards);
    steps, t := Extend(Initial(0), steps, t, Drop(1), true);
    assert 1 in t.guards && !IsCounted(t.guards[1]);
  }

  /** An old reading stored late takes the stamp back, and with no guard in the gap the proxy looks idle at the very
      moment another request ends. */
  lemma IdleAfterStaleStamp(grace: nat) returns (steps: seq<Step>, t: State)
    ensures Reaches(Initial(0), steps, t, false) && !InGap(t)
    ensures t.lastCounted == t.clock && !Busy(t.active, t.last, grace, t.clock)
  {
    hide Reaches;
    steps, t := FirstDropReads(grace);
    steps, t := BeginWhole(Initial(0), steps, t, 2, false);
    assert 2 in CountedGuards(t.guards);
    steps, t := Extend(Initial(0), steps, t, Drop(2), false);
    steps, t := Extend(Initial(0), steps, t, ReadAtDrop(2), false);
    steps, t := Extend(Initial(0), steps, t, StampAtDrop(2), false);
    steps, t := Extend(Initial(0), steps, t, StampAtDrop(1), false);
    assert t.guards == map[];
  }

  /** A request has come and gone at time 0, all but its last stamp, and the grace period has passed. */
  lemma FirstDropReads(grace: nat) returns (steps: seq<Step>, t: State)
    ensures Reaches(Initial(0), steps, t, false)
    ensures t.active == 0 && t.last == 0 && t.clock == grace && t.guards == map[1 := DropRead(0)]
    ensures t.streams == map[1 := 0]
  {
    hide Reaches;
    steps, t := [], Initial(0);
    AtEnd(t, false);
    steps, t := BeginWhole(Initial(0), steps, t, 1, false);
    steps, t := Extend(Initial(0), steps, t, Drop(1), false);
    steps, t := Extend(Initial(0), steps, t, ReadAtDrop(1), false);
    steps, t := Extend(Initial(0), steps, t, Tick(grace), false);
  }

  lemma AtEnd(s: State, ordered: bool)
    ensures Reaches(s, [], s, ordered)
  {
  }

  lemma Before(s: State, step: Step, rest: seq<Step>, t: State, ordered: bool, steps: seq<Step>)
    requires Enabled(s, step) && (ordered ==> InOrder(s, step)) && Reaches(Next(s, step), rest, t, ordered)
    requires steps == [step] + rest
    ensures Reaches(s, steps, t, ordered)
  {
    assert steps[1..] == rest;
  }

  lemma {:induction false} ReachesAppend(s: State, a: seq<Step>, mid: State, b: seq<Step>, t: State, ordered: bool)
    requires Reaches(s, a, mid, ordered) && Reaches(mid, b, t, ordered)
    ensures Reaches(s, a + b, t, ordered)
    decreases |a|
  {
    if a == [] {
      assert a + b == b;
    } else {
      ReachesAppend(Next(s, a[0]), a[1..], mid, b, t, ordered);
      assert (a + b)[1..] == a[1..] + b;
    }
  }
}
