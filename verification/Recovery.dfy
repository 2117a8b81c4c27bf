/** Startup recovery of the runs of dead orchestrators (src/symphony-worker/recovery.ts), run alone. */
module Recovery {
  import opened Wrappers
  import opened RunStates
  import opened RunTable
  import opened ClaimTable

  datatype Heartbeat = Heartbeat(ns: string, lastAt: int)
  datatype Recovered = Recovered(run: RunId, from: RunState, to: RunState)

  /** A run the orphan SELECT returns. */
  predicate Owned(row: Run, ns: string, orchestrators: set<string>) {
    && row.ns == ns && row.orchestrator.Some? && row.orchestrator.value in orchestrators
    && row.status !in TERMINAL_STATES
  }

  predicate Recoverable(row: Run, ns: string, orchestrators: set<string>) {
    Owned(row, ns, orchestrators) && RecoveryTarget(row.status).Some?
  }

  function RecoveredRow(row: Run, ns: string, orchestrators: set<string>, now: int): Run {
    if Recoverable(row, ns, orchestrators) then BypassRow(Recover, row, now) else row
  }

  predicate HasRecoverable(runs: Runs, ns: string, orchestrator: string) {
    exists r :: r in runs && Recoverable(runs[r], ns, {orchestrator})
  }

  /** What recovery owes a claim: release it if its owner is dead and had a recoverable run. */
  function RecoveredClaim(c: Claim, runs: Runs, ns: string, dead: set<string>, now: int): Claim {
    if Live(c) && c.orchestrator in dead && HasRecoverable(runs, ns, c.orchestrator)
    then c.(status := ClaimStatus.Released, releasedAt := Some(now)) else c
  }

  /** A recovered row is no longer active, and only rows of dead orchestrators change. */
  lemma RecoveryIsComplete(row: Run, ns: string, dead: set<string>, now: int)
    ensures var r := RecoveredRow(row, ns, dead, now);
      && (row.ns == ns && row.orchestrator.Some? && row.orchestrator.value in dead ==> r.status !in ACTIVE_STATES)
      && (r != row ==> row.ns == ns && row.orchestrator.Some? && row.orchestrator.value in dead)
      && (row.status in TERMINAL_STATES ==> r == row)
      && r.version == row.version
  {
  }

  /** A dead orchestrator's live claims are all gone after recovery if and only if it had none or it
      had a run to recover: its claims are released only from inside the loop over such runs. */
  lemma ClaimsGoneIff(claims: Claims, after: Claims, runs: Runs, ns: string, dead: set<string>, o: string, now: int)
    requires o in dead && |after| == |claims|
    requires forall i :: 0 <= i < |claims| ==> after[i] == RecoveredClaim(claims[i], runs, ns, dead, now)
    ensures (forall i :: 0 <= i < |after| && after[i].orchestrator == o ==> !Live(after[i])) <==>
      HasRecoverable(runs, ns, o) || (forall i :: 0 <= i < |claims| && claims[i].orchestrator == o ==> !Live(claims[i]))
  {
    if !HasRecoverable(runs, ns, o) {
      assert forall i :: 0 <= i < |claims| && claims[i].orchestrator == o ==> after[i] == claims[i];
      assert forall i :: 0 <= i < |claims| && after[i].orchestrator == o ==> claims[i].orchestrator == o;
    }
  }

  lemma DeadUnion(runs: Runs, mid: Runs, ns: string, done: set<string>, o: string, now: int)
    requires o !in done && mid.Keys == runs.Keys
    requires forall r :: r in runs ==> mid[r] == RecoveredRow(runs[r], ns, done, now)
    ensures forall r :: r in runs ==>
      RecoveredRow(mid[r], ns, {o}, now) == RecoveredRow(runs[r], ns, done + {o}, now)
    ensures HasRecoverable(mid, ns, o) == HasRecoverable(runs, ns, o)
  {
    assert forall r :: r in runs ==> Recoverable(mid[r], ns, {o}) == Recoverable(runs[r], ns, {o});
  }

  /** The runs and claims of the orchestrators `dead` are recovered, all others are as they were. */
  ghost predicate RecoveredFor(runs0: Runs, claims0: Claims, runs: Runs, claims: Claims, ns: string, dead: set<string>, now: int) {
    && runs.Keys == runs0.Keys && |claims| == |claims0|
    && (forall r :: r in runs ==> runs[r] == RecoveredRow(runs0[r], ns, dead, now))
    && (forall i :: 0 <= i < |claims| ==> claims[i] == RecoveredClaim(claims0[i], runs0, ns, dead, now))
  }

  lemma RecoveredOneMore(runs0: Runs, claims0: Claims, mid: Runs, midClaims: Claims, runs: Runs, claims: Claims,
                         ns: string, done: set<string>, o: string, now: int)
    requires o !in done && RecoveredFor(runs0, claims0, mid, midClaims, ns, done, now)
    requires runs.Keys == mid.Keys && forall r :: r in runs ==> runs[r] == RecoveredRow(mid[r], ns, {o}, now)
    requires claims == if HasRecoverable(mid, ns, o) then ReleaseAllOf(midClaims, o, now) else midClaims
    ensures RecoveredFor(runs0, claims0, runs, claims, ns, done + {o}, now)
  {
    DeadUnion(runs0, mid, ns, done, o, now);
  }

  /** The runs in `done` have been through the loop, the others are as they were. */
  ghost predicate RecoveredUpTo(seen: Runs, runs: Runs, ns: string, o: string, now: int, done: set<RunId>) {
    && runs.Keys == seen.Keys
    && (forall r :: r in done && r in runs ==> runs[r] == RecoveredRow(seen[r], ns, {o}, now))
    && (forall r :: r in runs && r !in done ==> runs[r] == seen[r])
  }

  /** The results are the recovered runs among `done`, each once. */
  ghost predicate Reported(seen: Runs, runs: Runs, ns: string, o: string, done: set<RunId>, results: seq<Recovered>) {
    && (forall i :: 0 <= i < |results| ==> IsReport(seen, runs, ns, o, done, results[i]))
    && (forall i, j :: 0 <= i < j < |results| ==> results[i].run != results[j].run)
    && (forall r :: r in done && r in seen && Recoverable(seen[r], ns, {o}) ==> HasReport(results, r))
  }

  ghost predicate HasReport(results: seq<Recovered>, r: RunId) {
    exists i :: 0 <= i < |results| && results[i].run == r
  }

  ghost predicate IsReport(seen: Runs, runs: Runs, ns: string, o: string, done: set<RunId>, x: Recovered) {
    && x.run in done && x.run in seen && x.run in runs && Recoverable(seen[x.run], ns, {o})
    && x.from == seen[x.run].status && x.to == runs[x.run].status
  }

  lemma RecoverStep(seen: Runs, runs: Runs, ns: string, o: string, now: int, done: set<RunId>, results: seq<Recovered>, r: RunId)
    requires r in seen && r !in done && Owned(seen[r], ns, {o})
    requires RecoveredUpTo(seen, runs, ns, o, now, done) && Reported(seen, runs, ns, o, done, results)
    ensures runs[r] == seen[r]
    ensures RecoveryTarget(seen[r].status).None? ==>
      RecoveredUpTo(seen, runs, ns, o, now, done + {r}) && Reported(seen, runs, ns, o, done + {r}, results)
    ensures RecoveryTarget(seen[r].status).Some? ==>
      var row := BypassRow(Recover, seen[r], now);
      && RecoveredUpTo(seen, runs[r := row], ns, o, now, done + {r})
      && Reported(seen, runs[r := row], ns, o, done + {r}, results + [Recovered(r, seen[r].status, row.status)])
  {
    if RecoveryTarget(seen[r].status).Some? {
      var x := Recovered(r, seen[r].status, BypassRow(Recover, seen[r], now).status);
      forall q | q in done + {r} && q in seen && Recoverable(seen[q], ns, {o}) ensures HasReport(results + [x], q) {
        if q == r { assert (results + [x])[|results|].run == r; } else { StillReported(results, x, q); }
      }
    }
  }

  lemma StillReported(results: seq<Recovered>, x: Recovered, r: RunId)
    requires HasReport(results, r)
    ensures HasReport(results + [x], r)
  {
    var i :| 0 <= i < |results| && results[i].run == r;
    assert (results + [x])[i].run == r;
  }

  lemma AllRecovered(seen: Runs, runs: Runs, ns: string, o: string, now: int, done: set<RunId>, results: seq<Recovered>, ids: seq<RunId>)
    requires RecoveredUpTo(seen, runs, ns, o, now, done) && Reported(seen, runs, ns, o, done, results)
    requires forall r :: r in ids <==> r in seen && Owned(seen[r], ns, {o})
    requires forall i :: 0 <= i < |ids| ==> ids[i] in done
    ensures forall r :: r in runs ==> runs[r] == RecoveredRow(seen[r], ns, {o}, now)
    ensures Reported(seen, runs, ns, o, seen.Keys, results)
    ensures results == [] <==> !HasRecoverable(seen, ns, o)
  {
    assert forall r :: r in ids ==> r in done;
    assert forall x :: IsReport(seen, runs, ns, o, done, x) ==> IsReport(seen, runs, ns, o, seen.Keys, x);
    if results != [] { assert IsReport(seen, runs, ns, o, done, results[0]); }
  }

  predicate RecoveredColumns(before: Run, after: Run, ns: string, o: string, now: int) {
    if before.ns == ns && before.orchestrator == Some(o)
       && before.status !in {Unclaimed, Failed, Stalled, Orphaned} + TERMINAL_STATES
    then IsBypassed(Recover, before, after, now) else after == before
  }

  lemma ColumnsOfRecovered(row: Run, ns: string, o: string, now: int)
    ensures RecoveredColumns(row, RecoveredRow(row, ns, {o}, now), ns, o, now)
  {
    RecoversAllBut(row.status);
    if Recoverable(row, ns, {o}) { BypassColumns(Recover, row, now); }
  }

  class Database {
    var runs: Runs
    var claims: Claims
    var heartbeats: map<string, Heartbeat>

    /** The orphan SELECT; the order of the rows is unspecified. */
    method SelectOrphans(ns: string, orchestrator: string) returns (ids: seq<RunId>)
      ensures forall r :: r in ids <==> r in runs && Owned(runs[r], ns, {orchestrator})
      ensures forall i, j :: 0 <= i < j < |ids| ==> ids[i] != ids[j]
    {
      var todo := set r | r in runs && Owned(runs[r], ns, {orchestrator});
      ids := [];
      while todo != {}
        invariant forall r :: r in ids || r in todo <==> r in runs && Owned(runs[r], ns, {orchestrator})
        invariant forall r :: r in ids ==> r !in todo
        invariant forall i, j :: 0 <= i < j < |ids| ==> ids[i] != ids[j]
      {
        var r :| r in todo;
        todo := todo - {r};
        ids := ids + [r];
      }
    }

    /** recoverOrphanedRuns. */
    method RecoverOrphanedRuns(ns: string, orchestrator: string, now: int) returns (results: seq<Recovered>)
      modifies this`runs, this`claims
      ensures runs.Keys == old(runs).Keys
      ensures forall r :: r in runs ==> runs[r] == RecoveredRow(old(runs)[r], ns, {orchestrator}, now)
      ensures forall r :: r in runs ==>
        if old(runs)[r].ns == ns && old(runs)[r].orchestrator == Some(orchestrator)
           && old(runs)[r].status !in {Unclaimed, Failed, Stalled, Orphaned} + TERMINAL_STATES
        then IsBypassed(Recover, old(runs)[r], runs[r], now) else runs[r] == old(runs)[r]
      ensures claims == if HasRecoverable(old(runs), ns, orchestrator)
        then ReleaseAllOf(old(claims), orchestrator, now) else old(claims)
      ensures Reported(old(runs), runs, ns, orchestrator, old(runs).Keys, results)
      ensures results == [] <==> !HasRecoverable(old(runs), ns, orchestrator)
    {
      results := [];
      var ids := SelectOrphans(ns, orchestrator);
      ghost var seen := runs;
      ghost var done: set<RunId> := {};
      for n := 0 to |ids|
        invariant forall i :: 0 <= i < |ids| ==> (ids[i] in done <==> i < n)
        invariant done <= seen.Keys && RecoveredUpTo(seen, runs, ns, orchestrator, now, done)
        invariant Reported(seen, runs, ns, orchestrator, done, results)
        invariant claims == if results != [] then ReleaseAllOf(old(claims), orchestrator, now) else old(claims)
      {
        var r := ids[n];
        assert r in ids;
        var row := runs[r];
        RecoverStep(seen, runs, ns, orchestrator, now, done, results, r);
        if RecoveryTarget(row.status).Some? {
          runs := runs[r := BypassRow(Recover, row, now)];
          ReleaseClaimsOf(orchestrator, now);
          results := results + [Recovered(r, row.status, runs[r].status)];
        }
        done := done + {r};
      }
      AllRecovered(seen, runs, ns, orchestrator, now, done, results, ids);
      forall r | r in runs ensures RecoveredColumns(seen[r], runs[r], ns, orchestrator, now) {
        ColumnsOfRecovered(seen[r], ns, orchestrator, now);
      }
    }

    /** The claim UPDATE inside the loop; releasing twice is releasing once. */
    method ReleaseClaimsOf(orchestrator: string, now: int)
      modifies this`claims
      ensures claims == ReleaseAllOf(old(claims), orchestrator, now)
      ensures ReleaseAllOf(claims, orchestrator, now) == claims
      ensures |claims| == |old(claims)| && forall i :: 0 <= i < |claims| ==>
        claims[i] == if Live(old(claims)[i]) && old(claims)[i].orchestrator == orchestrator
                     then old(claims)[i].(status := ClaimStatus.Released, releasedAt := Some(now)) else old(claims)[i]
    {
      claims := ReleaseAllOf(claims, orchestrator, now);
    }

    /** recoverySweep: recovers the runs of exactly the orchestrators of the namespace whose heartbeat
        is stale, and removes exactly their heartbeats. */
    method RecoverySweep(ns: string, threshold: int, now: int) returns (dead: set<string>)
      modifies this
      ensures dead == StaleOrchestrators(old(heartbeats), ns, threshold, now)
      ensures forall o :: o in dead <==>
        o in old(heartbeats) && old(heartbeats)[o].ns == ns && now - old(heartbeats)[o].lastAt > threshold
      ensures heartbeats == old(heartbeats) - dead
      ensures RecoveredFor(old(runs), old(claims), runs, claims, ns, dead, now)
    {
      dead := StaleOrchestrators(heartbeats, ns, threshold, now);
      var todo := dead;
      while todo != {}
        invariant todo <= dead && heartbeats == old(heartbeats) - (dead - todo)
        invariant RecoveredFor(old(runs), old(claims), runs, claims, ns, dead - todo, now)
      {
        var o :| o in todo;
        ghost var mid, midClaims := runs, claims;
        var results := RecoverOrphanedRuns(ns, o, now);
        RecoveredOneMore(old(runs), old(claims), mid, midClaims, runs, claims, ns, dead - todo, o, now);
        assert (dead - todo) + {o} == dead - (todo - {o});
        heartbeats := heartbeats - {o};
        todo := todo - {o};
      }
      assert dead - todo == dead;
    }

    /** findStaleOrchestrators. */
    static function StaleOrchestrators(hb: map<string, Heartbeat>, ns: string, threshold: int, now: int): set<string> {
      set o | o in hb && hb[o].ns == ns && hb[o].lastAt < now - threshold
    }
  }
}
