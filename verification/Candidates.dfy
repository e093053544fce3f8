/** One candidate address: how a measurement or a failed request changes it, and what it records of its history. */
module Candidates {
  import opened Common
  import opened Scores

  datatype Candidate = Candidate(
    ip: IpAddr,
    latencyMs: Option<nat>,
    speedKbps: Option<real>,
    lastOk: nat,
    lastFail: nat,
    fails: nat,
    down: bool)

  /** One reported outcome, with the clock reading taken when it was applied. */
  datatype Event = Event(at: nat, latencyMs: Option<nat>, speedKbps: Option<real>, success: bool)

  function Fresh(ip: IpAddr): Candidate {
    Candidate(ip, None, None, 0, 0, 0, false)
  }

  predicate InWindow(c: Candidate, now: nat, penalty: nat) {
    SatSub(now, c.lastFail) <= penalty
  }

  function Updated(c: Candidate, e: Event, penalty: nat): (r: Candidate)
    ensures r.ip == c.ip
  {
    var d :=
      if e.success then
        c.(latencyMs := if e.latencyMs.Some? then e.latencyMs else c.latencyMs,
           speedKbps := if e.speedKbps.Some? then e.speedKbps else c.speedKbps,
           lastOk := e.at,
           fails := 0)
      else
        c.(lastFail := e.at, fails := Min(c.fails + 1, U32_MAX));
    d.(down := InWindow(d, e.at, penalty) && d.fails > 0)
  }

  function ScoreAt(c: Candidate, now: nat, penalty: nat): Score {
    var speed := if c.speedKbps.Some? then c.speedKbps.value else 0.0;
    var latency := if c.latencyMs.Some? then c.latencyMs.value else 0;
    if c.down && InWindow(c, now, penalty) then Bottom
    else Value(speed * 1000.0 - latency as real)
  }

  function Replay(ip: IpAddr, events: seq<Event>, penalty: nat): (r: Candidate)
    ensures r.ip == ip
  {
    if events == [] then Fresh(ip)
    else Updated(Replay(ip, events[..|events| - 1], penalty), events[|events| - 1], penalty)
  }

  // ---- What a candidate says about the events that led to it ----

  /** The last n events are failures and no more than that. */
  ghost predicate TrailingFailures(events: seq<Event>, n: nat) {
    && n <= |events|
    && (forall i :: |events| - n <= i < |events| ==> !events[i].success)
    && (n < |events| ==> events[|events| - n - 1].success)
  }

  /** t is the time of the last event of the given kind, or 0 if there is none. */
  ghost predicate LastTime(events: seq<Event>, success: bool, t: nat) {
    if exists i :: 0 <= i < |events| && events[i].success == success
    then exists i :: 0 <= i < |events| && events[i].success == success && t == events[i].at
                     && forall j :: i < j < |events| ==> events[j].success != success
    else t == 0
  }

  /** v is the last value that a success carried, or None if none did. */
  ghost predicate LastCarried<T>(values: seq<Option<T>>, v: Option<T>) {
    if exists i :: 0 <= i < |values| && values[i].Some?
    then exists i :: 0 <= i < |values| && values[i].Some? && v == values[i]
                     && forall j :: i < j < |values| ==> values[j].None?
    else v.None?
  }

  function LatenciesOfSuccesses(events: seq<Event>): (r: seq<Option<nat>>)
    ensures |r| == |events|
    ensures forall i :: 0 <= i < |events| ==> r[i] == if events[i].success then events[i].latencyMs else None
  {
    seq(|events|, i requires 0 <= i < |events| => if events[i].success then events[i].latencyMs else None)
  }

  function SpeedsOfSuccesses(events: seq<Event>): (r: seq<Option<real>>)
    ensures |r| == |events|
    ensures forall i :: 0 <= i < |events| ==> r[i] == if events[i].success then events[i].speedKbps else None
  {
    seq(|events|, i requires 0 <= i < |events| => if events[i].success then events[i].speedKbps else None)
  }

  ghost predicate CountMatches(c: Candidate, events: seq<Event>) {
    && (exists n: nat :: TrailingFailures(events, n) && c.fails == (if n <= 0xFFFF_FFFF then n else 0xFFFF_FFFF))
    && (c.down <==> c.fails > 0)
  }

  ghost predicate TimesMatch(c: Candidate, events: seq<Event>) {
    LastTime(events, false, c.lastFail) && LastTime(events, true, c.lastOk)
  }

  ghost predicate ValuesMatch(c: Candidate, events: seq<Event>) {
    LastCarried(LatenciesOfSuccesses(events), c.latencyMs) && LastCarried(SpeedsOfSuccesses(events), c.speedKbps)
  }

  ghost predicate Describes(c: Candidate, events: seq<Event>) {
    CountMatches(c, events) && TimesMatch(c, events) && ValuesMatch(c, events)
  }

  lemma LastTimeStep(events: seq<Event>, e: Event, success: bool, t: nat)
    requires LastTime(events, success, t)
    ensures LastTime(events + [e], success, if e.success == success then e.at else t)
  {
    var all := events + [e];
    if e.success == success {
      assert all[|events|] == e;
    } else if exists i :: 0 <= i < |events| && events[i].success == success {
      var i :| 0 <= i < |events| && events[i].success == success && t == events[i].at
               && forall j :: i < j < |events| ==> events[j].success != success;
      assert all[i] == events[i];
    } else {
      assert forall i :: 0 <= i < |all| ==> all[i].success != success;
    }
  }

  lemma LastCarriedStep<T>(values: seq<Option<T>>, x: Option<T>, v: Option<T>)
    requires LastCarried(values, v)
    ensures LastCarried(values + [x], if x.Some? then x else v)
  {
    var all := values + [x];
    if x.Some? {
      assert all[|values|] == x;
    } else if exists i :: 0 <= i < |values| && values[i].Some? {
      var i :| 0 <= i < |values| && values[i].Some? && v == values[i]
               && forall j :: i < j < |values| ==> values[j].None?;
      assert all[i] == values[i];
    } else {
      assert forall i :: 0 <= i < |all| ==> all[i].None?;
    }
  }

  lemma TrailingFailuresStep(events: seq<Event>, e: Event, n: nat)
    requires TrailingFailures(events, n)
    ensures TrailingFailures(events + [e], if e.success then 0 else n + 1)
  {
  }

  lemma CountStep(c: Candidate, events: seq<Event>, e: Event, penalty: nat)
    requires CountMatches(c, events)
    ensures CountMatches(Updated(c, e, penalty), events + [e])
  {
    var n: nat :| TrailingFailures(events, n) && c.fails == Min(n, U32_MAX);
    TrailingFailuresStep(events, e, n);
  }

  lemma ValuesStep(c: Candidate, events: seq<Event>, e: Event, penalty: nat)
    requires ValuesMatch(c, events)
    ensures ValuesMatch(Updated(c, e, penalty), events + [e])
  {
    var lat := if e.success then e.latencyMs else None;
    var speed := if e.success then e.speedKbps else None;
    LastCarriedStep(LatenciesOfSuccesses(events), lat, c.latencyMs);
    LastCarriedStep(SpeedsOfSuccesses(events), speed, c.speedKbps);
    assert LatenciesOfSuccesses(events + [e]) == LatenciesOfSuccesses(events) + [lat];
    assert SpeedsOfSuccesses(events + [e]) == SpeedsOfSuccesses(events) + [speed];
  }

  lemma TimesStep(c: Candidate, events: seq<Event>, e: Event, penalty: nat)
    requires TimesMatch(c, events)
    ensures TimesMatch(Updated(c, e, penalty), events + [e])
  {
    LastTimeStep(events, e, false, c.lastFail);
    LastTimeStep(events, e, true, c.lastOk);
  }

  /** A candidate is an exact summary of its events: saturated count of trailing failures, times of the last
      failure and success, last latency and speed that a success carried, and `down` exactly while failing. */
  lemma {:induction false} ReplayDescribes(ip: IpAddr, events: seq<Event>, penalty: nat)
    ensures Describes(Replay(ip, events, penalty), events)
  {
    if events == [] {
      assert TrailingFailures(events, 0);
    } else {
      var init, last := events[..|events| - 1], events[|events| - 1];
      ReplayDescribes(ip, init, penalty);
      var c := Replay(ip, init, penalty);
      CountStep(c, init, last, penalty);
      TimesStep(c, init, last, penalty);
      ValuesStep(c, init, last, penalty);
      assert init + [last] == events;
    }
  }
}
