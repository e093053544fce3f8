/** The two views of one group, the address that routing picks and the dashboard's ranking, compared. */
module Ranking {
  import opened Common
  import opened Scores
  import opened Candidates
  import opened Selectors

  /** The dashboard shows an address as down exactly while it is failing and its last failure is in the window. */
  lemma ShownDownExactly(c: Candidate, now: nat, penalty: nat)
    requires c.down <==> c.fails > 0
    ensures Refreshed(c, now, penalty).down <==> c.fails > 0 && SatSub(now, c.lastFail) <= penalty
    ensures Refreshed(c, now, penalty) == c.(down := Refreshed(c, now, penalty).down)
  {
  }

  /** Refreshing the flag does not change the score at the same moment. */
  lemma RefreshKeepsScore(c: Candidate, now: nat, penalty: nat)
    ensures ScoreAt(Refreshed(c, now, penalty), now, penalty) == ScoreAt(c, now, penalty)
  {
  }

  /** The ranking is a permutation of the refreshed candidates in descending score order, ties in list order. */
  lemma RankedIsStableRanking(cands: seq<Candidate>, now: nat, penalty: nat)
    ensures multiset(Ranked(cands, now, penalty)) == multiset(RefreshedAll(cands, now, penalty))
    ensures Descending(Ranked(cands, now, penalty), Key(now, penalty))
    ensures forall k :: WithKey(Ranked(cands, now, penalty), Key(now, penalty), k)
                     == WithKey(RefreshedAll(cands, now, penalty), Key(now, penalty), k)
  {
    SortDescIsStableSort(RefreshedAll(cands, now, penalty), Key(now, penalty));
  }

  /** A candidate that last failed within the window but has recovered since, and scores above the whole healthy
      pool. */
  ghost predicate RecoveredOutscores(cands: seq<Candidate>, now: nat, penalty: nat, c: Candidate) {
    && c in cands && c.fails == 0 && InWindow(c, now, penalty)
    && Healthy(cands, now, penalty) != []
    && forall h :: h in Healthy(cands, now, penalty) ==> Less(ScoreAt(h, now, penalty), ScoreAt(c, now, penalty))
  }

  /** The routed candidate is the last maximum of its pool. */
  lemma BestIsLastOfPool(cands: seq<Candidate>, now: nat, penalty: nat) returns (i: nat)
    requires cands != []
    ensures LastMaxAt(Pool(cands, now, penalty), Key(now, penalty), i)
    ensures Best(cands, now, penalty) == Pool(cands, now, penalty)[i]
    ensures Best(cands, now, penalty) in cands
    ensures Healthy(cands, now, penalty) != [] ==> !InWindow(Best(cands, now, penalty), now, penalty)
  {
    i := LastMaxOfIsLastMax(Pool(cands, now, penalty), Key(now, penalty));
    assert Pool(cands, now, penalty)[i] in Pool(cands, now, penalty);
  }

  // ---- The order on candidates, said of their fields ----

  function SpeedOf(c: Candidate): real {
    if c.speedKbps.Some? then c.speedKbps.value else 0.0
  }

  function LatencyOf(c: Candidate): real {
    if c.latencyMs.Some? then c.latencyMs.value as real else 0.0
  }

  predicate DownNow(c: Candidate, now: nat, penalty: nat) {
    c.down && SatSub(now, c.lastFail) <= penalty
  }

  /** The first candidate is down and the second not, or neither is and the second has the greater speed * 1000 -
      latency. */
  predicate Slower(c: Candidate, d: Candidate, now: nat, penalty: nat) {
    !DownNow(d, now, penalty)
    && (DownNow(c, now, penalty) || SpeedOf(c) * 1000.0 - LatencyOf(c) < SpeedOf(d) * 1000.0 - LatencyOf(d))
  }

  lemma ScoresCompareFields(c: Candidate, d: Candidate, now: nat, penalty: nat)
    ensures Less(ScoreAt(c, now, penalty), ScoreAt(d, now, penalty)) <==> Slower(c, d, now, penalty)
  {
  }

  /** Routing may pick the candidate: it is outside its window, or none of the group is. */
  predicate Eligible(cands: seq<Candidate>, now: nat, penalty: nat, c: Candidate) {
    SatSub(now, c.lastFail) > penalty || forall d :: d in cands ==> SatSub(now, d.lastFail) <= penalty
  }

  /** Position p of the group's list holds the last best of the eligible candidates. */
  ghost predicate RoutedAt(cands: seq<Candidate>, now: nat, penalty: nat, p: nat) {
    && p < |cands| && Eligible(cands, now, penalty, cands[p])
    && forall q: nat :: q < |cands| && Eligible(cands, now, penalty, cands[q]) ==>
         !Slower(cands[p], cands[q], now, penalty) && (q > p ==> Slower(cands[q], cands[p], now, penalty))
  }

  /** The healthy candidates are the subsequence of the list at exactly the positions outside their window. */
  lemma HealthyInOrder(cands: seq<Candidate>, now: nat, penalty: nat) returns (at: seq<nat>)
    ensures Selects(cands, Outside(now, penalty), at) && ReadsAs(cands, at, Healthy(cands, now, penalty))
  {
    at := Positions(cands, Outside(now, penalty));
    FilterIsSubsequence(cands, Outside(now, penalty));
  }

  /** Where in the list the i-th healthy candidate stands; the healthy ones further on come after it in the pool. */
  lemma HealthyPosition(cands: seq<Candidate>, now: nat, penalty: nat, i: nat) returns (p: nat)
    requires i < |Healthy(cands, now, penalty)|
    ensures p < |cands| && cands[p] == Healthy(cands, now, penalty)[i]
    ensures forall q: nat :: p < q < |cands| && !InWindow(cands[q], now, penalty) ==>
              cands[q] in Healthy(cands, now, penalty)[i + 1..]
  {
    hide InWindow;
    var at := HealthyInOrder(cands, now, penalty);
    var healthy := Healthy(cands, now, penalty);
    p := at[i];
    forall q: nat | p < q < |cands| && !InWindow(cands[q], now, penalty)
      ensures cands[q] in healthy[i + 1..]
    {
      assert q in at;
      var j :| 0 <= j < |at| && at[j] == q;
      assert healthy[i + 1..][j - i - 1] == cands[q];
    }
  }

  predicate InPool(cands: seq<Candidate>, now: nat, penalty: nat, c: Candidate) {
    !InWindow(c, now, penalty) || Healthy(cands, now, penalty) == []
  }

  /** The same position, said of the scores. */
  lemma BestByScore(cands: seq<Candidate>, now: nat, penalty: nat) returns (p: nat)
    requires cands != []
    ensures p < |cands| && Best(cands, now, penalty) == cands[p] && InPool(cands, now, penalty, cands[p])
    ensures forall q: nat :: q < |cands| && InPool(cands, now, penalty, cands[q]) ==>
              && !Less(Key(now, penalty)(cands[p]), Key(now, penalty)(cands[q]))
              && (q > p ==> Less(Key(now, penalty)(cands[q]), Key(now, penalty)(cands[p])))
  {
    hide ScoreAt, InWindow;
    var i := BestIsLastOfPool(cands, now, penalty);
    var healthy, key := Healthy(cands, now, penalty), Key(now, penalty);
    if healthy == [] {
      p := i;
    } else {
      p := HealthyPosition(cands, now, penalty, i);
      forall q: nat | q < |cands| && InPool(cands, now, penalty, cands[q])
        ensures !Less(key(cands[p]), key(cands[q])) && (q > p ==> Less(key(cands[q]), key(cands[p])))
      {
        assert cands[q] in healthy;
        if q > p {
          var j :| i < j < |healthy| && healthy[j] == cands[q];
        }
      }
    }
  }

  lemma PoolIsEligible(cands: seq<Candidate>, now: nat, penalty: nat, c: Candidate)
    requires c in cands
    ensures InPool(cands, now, penalty, c) <==> Eligible(cands, now, penalty, c)
  {
    var healthy := Healthy(cands, now, penalty);
    if healthy != [] {
      assert healthy[0] in healthy;
    }
  }

  /** The routed candidate, said of the group's list itself: it stands where the last best of the eligible candidates
      stands, and there is exactly one such position. */
  lemma BestIsLastEligible(cands: seq<Candidate>, now: nat, penalty: nat) returns (p: nat)
    requires cands != []
    ensures RoutedAt(cands, now, penalty, p) && Best(cands, now, penalty) == cands[p]
    ensures forall q: nat :: RoutedAt(cands, now, penalty, q) ==> q == p
  {
    hide ScoreAt, InPool, Eligible, Slower, Best;
    p := BestByScore(cands, now, penalty);
    PoolIsEligible(cands, now, penalty, cands[p]);
    forall q: nat | q < |cands| && Eligible(cands, now, penalty, cands[q])
      ensures !Slower(cands[p], cands[q], now, penalty) && (q > p ==> Slower(cands[q], cands[p], now, penalty))
    {
      PoolIsEligible(cands, now, penalty, cands[q]);
      ScoresCompareFields(cands[p], cands[q], now, penalty);
      ScoresCompareFields(cands[q], cands[p], now, penalty);
    }
    OneRoutedPosition(cands, now, penalty, p);
  }

  /** The routed candidate is up when some eligible one is; at equal speed it has the lowest latency, and no up and
      eligible candidate leads its speed by more than a thousandth of what it leads in latency. */
  lemma BestIsFastest(cands: seq<Candidate>, now: nat, penalty: nat, c: Candidate)
    requires c in cands && Eligible(cands, now, penalty, c) && !DownNow(c, now, penalty)
    ensures var best := Best(cands, now, penalty);
            && best in cands && Eligible(cands, now, penalty, best) && !DownNow(best, now, penalty)
            && SpeedOf(best) * 1000.0 - LatencyOf(best) >= SpeedOf(c) * 1000.0 - LatencyOf(c)
            && (SpeedOf(best) == SpeedOf(c) ==> LatencyOf(best) <= LatencyOf(c))
            && SpeedOf(c) - SpeedOf(best) <= (LatencyOf(c) - LatencyOf(best)) / 1000.0
  {
    hide Best;
    var p := BestIsLastEligible(cands, now, penalty);
    var k :| 0 <= k < |cands| && cands[k] == c;
    assert !Slower(cands[p], cands[k], now, penalty);
  }

  /** The list is in descending order of the fields: an up candidate stands before every down one, and of two up ones
      the first has no smaller speed * 1000 - latency. */
  predicate FastestFirst(r: seq<Candidate>) {
    forall i, j :: 0 <= i < j < |r| && !r[j].down ==>
      !r[i].down && SpeedOf(r[i]) * 1000.0 - LatencyOf(r[i]) >= SpeedOf(r[j]) * 1000.0 - LatencyOf(r[j])
  }

  lemma RankedFastestFirst(cands: seq<Candidate>, now: nat, penalty: nat)
    ensures FastestFirst(Ranked(cands, now, penalty))
  {
    hide Ranked, ScoreAt;
    var r := Ranked(cands, now, penalty);
    RankedIsStableRanking(cands, now, penalty);
    RankedAreRefreshed(cands, now, penalty);
    forall i, j | 0 <= i < j < |r| && !r[j].down
      ensures !r[i].down && SpeedOf(r[i]) * 1000.0 - LatencyOf(r[i]) >= SpeedOf(r[j]) * 1000.0 - LatencyOf(r[j])
    {
      assert r[i] in r && r[j] in r;
      assert !Less(Key(now, penalty)(r[i]), Key(now, penalty)(r[j]));
      ScoresCompareFields(r[i], r[j], now, penalty);
    }
  }

  /** A ranked candidate is shown down only within its window. */
  lemma RankedAreRefreshed(cands: seq<Candidate>, now: nat, penalty: nat)
    ensures forall c :: c in Ranked(cands, now, penalty) && c.down ==> DownNow(c, now, penalty)
  {
    hide Ranked, ScoreAt;
    RankedIsStableRanking(cands, now, penalty);
    SameElements(Ranked(cands, now, penalty), RefreshedAll(cands, now, penalty));
    var all := RefreshedAll(cands, now, penalty);
    forall c | c in all && c.down
      ensures DownNow(c, now, penalty)
    {
      var k :| 0 <= k < |all| && all[k] == c;
    }
  }

  lemma OneRoutedPosition(cands: seq<Candidate>, now: nat, penalty: nat, p: nat)
    requires RoutedAt(cands, now, penalty, p)
    ensures forall q: nat :: RoutedAt(cands, now, penalty, q) ==> q == p
  {
    hide Slower, Eligible;
  }

  /** The head of the ranking is the first of the group's candidates with the maximal score. */
  lemma HeadIsFirstOfAll(cands: seq<Candidate>, now: nat, penalty: nat) returns (i: nat)
    requires cands != []
    ensures FirstMaxAt(cands, Key(now, penalty), i)
    ensures Ranked(cands, now, penalty)[0] == Refreshed(cands[i], now, penalty)
  {
    var all, key := RefreshedAll(cands, now, penalty), Key(now, penalty);
    i := HeadOfSortIsFirstMax(all, key);
    assert forall j :: 0 <= j < |cands| ==> key(all[j]) == key(cands[j]);
  }

  /** At one moment the head of the ranking and the routed address have the same score, except exactly when
      some recovered candidate outscores every healthy one. */
  lemma HeadAgreesWithBest(cands: seq<Candidate>, now: nat, penalty: nat)
    requires cands != []
    requires forall c :: c in cands ==> (c.down <==> c.fails > 0)
    ensures ScoreAt(Ranked(cands, now, penalty)[0], now, penalty) == ScoreAt(Best(cands, now, penalty), now, penalty)
            <==> !exists c :: RecoveredOutscores(cands, now, penalty, c)
  {
    var h := HeadIsFirstOfAll(cands, now, penalty);
    var b := BestIsLastOfPool(cands, now, penalty);
    RefreshKeepsScore(cands[h], now, penalty);
    if !SameTop(cands, now, penalty, h) {
      BetterHeadHasRecovered(cands, now, penalty, h, b);
    }
    forall c | RecoveredOutscores(cands, now, penalty, c)
      ensures !SameTop(cands, now, penalty, h)
    {
      RecoveredBeatsBest(cands, now, penalty, h, c);
    }
  }

  /** The candidate at h has the same score as the routed one. */
  predicate SameTop(cands: seq<Candidate>, now: nat, penalty: nat, h: nat)
    requires h < |cands|
  {
    ScoreAt(cands[h], now, penalty) == ScoreAt(Best(cands, now, penalty), now, penalty)
  }

  lemma BetterHeadHasRecovered(cands: seq<Candidate>, now: nat, penalty: nat, h: nat, b: nat)
    requires forall c :: c in cands ==> (c.down <==> c.fails > 0)
    requires FirstMaxAt(cands, Key(now, penalty), h) && !SameTop(cands, now, penalty, h)
    requires LastMaxAt(Pool(cands, now, penalty), Key(now, penalty), b)
    requires Best(cands, now, penalty) == Pool(cands, now, penalty)[b] && Best(cands, now, penalty) in cands
    ensures RecoveredOutscores(cands, now, penalty, cands[h])
  {
    var key, pool, best := Key(now, penalty), Pool(cands, now, penalty), Best(cands, now, penalty);
    var k :| 0 <= k < |cands| && cands[k] == best;
    assert Less(key(best), key(cands[h]));
    forall c | c in pool
      ensures Less(key(c), key(cands[h]))
    {
      var j :| 0 <= j < |pool| && pool[j] == c;
    }
    assert cands[h] !in pool;
    assert cands[h] in cands;
  }

  lemma RecoveredBeatsBest(cands: seq<Candidate>, now: nat, penalty: nat, h: nat, c: Candidate)
    requires FirstMaxAt(cands, Key(now, penalty), h) && RecoveredOutscores(cands, now, penalty, c)
    ensures !SameTop(cands, now, penalty, h)
  {
    var b := BestIsLastOfPool(cands, now, penalty);
    var k :| 0 <= k < |cands| && cands[k] == c;
    assert Best(cands, now, penalty) in Healthy(cands, now, penalty);
    assert !Less(Key(now, penalty)(cands[h]), Key(now, penalty)(cands[k]));
  }

  /** When the views agree on the score and no two candidates tie at the top, they name the same address. */
  lemma HeadIsBestWithoutTies(cands: seq<Candidate>, now: nat, penalty: nat)
    requires cands != []
    requires forall c :: c in cands ==> (c.down <==> c.fails > 0)
    requires !exists c :: RecoveredOutscores(cands, now, penalty, c)
    requires forall i, j :: 0 <= i < j < |cands| ==> ScoreAt(cands[i], now, penalty) != ScoreAt(cands[j], now, penalty)
    ensures Ranked(cands, now, penalty)[0].ip == Best(cands, now, penalty).ip
  {
    hide ScoreAt, Best, Ranked, RecoveredOutscores;
    HeadAgreesWithBest(cands, now, penalty);
    var h := HeadIsFirstOfAll(cands, now, penalty);
    var b := BestIsLastOfPool(cands, now, penalty);
    RefreshKeepsScore(cands[h], now, penalty);
    var k :| 0 <= k < |cands| && cands[k] == Best(cands, now, penalty);
    assert ScoreAt(cands[h], now, penalty) == ScoreAt(cands[k], now, penalty);
    assert h == k;
  }

  /** The exception does occur: of two candidates the one that just recovered is ranked first and the other routed
      to. */
  lemma RecoveredComesFirst(cands: seq<Candidate>, now: nat, penalty: nat)
    requires now == penalty + 1 && |cands| == 2
    requires cands[0] == Candidate(cands[0].ip, Some(1), Some(2.0), now, now, 0, false)
    requires cands[1] == Fresh(cands[1].ip)
    ensures RecoveredOutscores(cands, now, penalty, cands[0])
    ensures Ranked(cands, now, penalty)[0].ip == cands[0].ip && Best(cands, now, penalty).ip == cands[1].ip
  {
    hide Healthy, Best, Ranked;
    assert InWindow(cands[0], now, penalty) && !InWindow(cands[1], now, penalty);
    HealthyOfTwo(cands, now, penalty);
    assert Less(ScoreAt(cands[1], now, penalty), ScoreAt(cands[0], now, penalty));
    var p := BestIsLastEligible(cands, now, penalty);
    assert cands[1] in cands && p == 1;
    var h := HeadIsFirstOfAll(cands, now, penalty);
    assert Less(Key(now, penalty)(cands[1]), Key(now, penalty)(cands[0]));
  }

  lemma HealthyOfTwo(cands: seq<Candidate>, now: nat, penalty: nat)
    requires |cands| == 2 && InWindow(cands[0], now, penalty) && !InWindow(cands[1], now, penalty)
    ensures Healthy(cands, now, penalty) != []
    ensures forall h :: h in Healthy(cands, now, penalty) ==> h == cands[1]
  {
    assert cands[1] in Healthy(cands, now, penalty);
  }
}
