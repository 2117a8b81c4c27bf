/** SymphonyStateMachine on one transaction: the run row is locked from the read to the commit, so
    `transition` is atomic, and the watchdog's batch stays as it was selected. */
module StateMachine {
  import opened Wrappers
  import opened RunStates
  import opened RunTable
  import opened Sets

  datatype Event = Event(run: RunId, from: RunState, to: RunState, version: nat)
  datatype Move = Move(run: RunId, from: RunState, to: RunState)

  /** What the watchdog's SELECT returns: distinct sweepable unlocked rows, oldest first, as many as
      there are up to the limit. */
  ghost predicate IsBatch(runs: Runs, locked: set<RunId>, batch: seq<RunId>, size: nat) {
    && (forall i :: 0 <= i < |batch| ==> batch[i] in Candidates(runs, locked))
    && (forall i, j :: 0 <= i < j < |batch| ==> batch[i] != batch[j])
    && |batch| == (if |Candidates(runs, locked)| <= size then |Candidates(runs, locked)| else size)
    && (forall i, j :: 0 <= i < j < |batch| ==> runs[batch[i]].updatedAt <= runs[batch[j]].updatedAt)
    && (forall i, r :: 0 <= i < |batch| && r in Candidates(runs, locked) && r !in batch ==>
          runs[batch[i]].updatedAt <= runs[r].updatedAt)
  }

  ghost function Candidates(runs: Runs, locked: set<RunId>): set<RunId> {
    set r | r in runs && r !in locked && Sweepable(runs[r])
  }

  ghost function Elements(s: seq<RunId>): set<RunId> {
    set x | x in s
  }

  lemma {:induction false} DistinctSeqSize(s: seq<RunId>)
    requires forall i, j :: 0 <= i < j < |s| ==> s[i] != s[j]
    ensures |Elements(s)| == |s|
  {
    if s != [] {
      var t, x := s[..|s| - 1], s[|s| - 1];
      DistinctSeqSize(t);
      assert x !in Elements(t);
      assert Elements(s) == Elements(t) + {x};
    }
  }

  lemma SubsetOfEqualSize(a: set<RunId>, b: set<RunId>)
    requires a <= b && |a| == |b|
    ensures a == b
  {
    if !(b <= a) {
      var x :| x in b && x !in a;
      SubsetSize(a, b - {x});
    }
  }

  /** A batch limit no smaller than the number of candidates selects them all. */
  lemma BatchCovers(runs: Runs, locked: set<RunId>, batch: seq<RunId>, size: nat)
    requires IsBatch(runs, locked, batch, size) && |Candidates(runs, locked)| <= size
    ensures forall r :: r in Candidates(runs, locked) ==> r in batch
  {
    DistinctSeqSize(batch);
    assert Elements(batch) <= Candidates(runs, locked);
    SubsetOfEqualSize(Elements(batch), Candidates(runs, locked));
    assert forall r :: r in Candidates(runs, locked) ==> r in Elements(batch);
  }

  /** A row after a sweep. */
  function SweptRow(row: Run, chosen: bool, overrides: map<RunState, int>, now: int): Run {
    if chosen && Overdue(row, overrides, now) then MoveRow(row, TimeoutTarget(row.status), now) else row
  }

  /** The moves a sweep reports: the overdue rows of the batch, in batch order. */
  function SweepMoves(runs: Runs, batch: seq<RunId>, overrides: map<RunState, int>, now: int): seq<Move>
    requires forall r :: r in batch ==> r in runs
  {
    if batch == [] then []
    else
      var r := batch[|batch| - 1];
      SweepMoves(runs, batch[..|batch| - 1], overrides, now) +
      if Overdue(runs[r], overrides, now) then [Move(r, runs[r].status, TimeoutTarget(runs[r].status))] else []
  }

  /** After a sweep whose limit covers all candidates, no unlocked run is overdue; every row that
      changed was overdue and took an edge of the graph. */
  lemma SweepClears(runs: Runs, after: Runs, locked: set<RunId>, batch: seq<RunId>, size: nat,
                    overrides: map<RunState, int>, now: int)
    requires IsBatch(runs, locked, batch, size) && after.Keys == runs.Keys
    requires forall r :: r in runs ==> after[r] == SweptRow(runs[r], r in batch, overrides, now)
    ensures |Candidates(runs, locked)| <= size ==>
      forall r :: r in after && r !in locked ==> !Overdue(after[r], overrides, now)
    ensures forall r :: r in runs && after[r] != runs[r] ==>
      && Overdue(runs[r], overrides, now) && IsValidTransition(runs[r].status, after[r].status)
      && after[r].version == runs[r].version + 1
  {
    if |Candidates(runs, locked)| <= size { BatchCovers(runs, locked, batch, size); }
    forall r | r in runs && Sweepable(runs[r]) && r !in locked && |Candidates(runs, locked)| <= size
      ensures !Overdue(after[r], overrides, now)
    {
      assert r in Candidates(runs, locked) && r in batch;
      TimeoutTargetIsValid(runs[r].status);
    }
    forall r | r in runs && Sweepable(runs[r]) ensures IsValidTransition(runs[r].status, TimeoutTarget(runs[r].status)) {
      TimeoutTargetIsValid(runs[r].status);
    }
  }

  /** The first `n` rows of the batch have been through the sweep's loop. */
  ghost predicate SweptUpTo(before: Runs, runs: Runs, batch: seq<RunId>, n: nat, overrides: map<RunState, int>, now: int) {
    && n <= |batch| && runs.Keys == before.Keys
    && (forall i :: 0 <= i < |batch| ==> batch[i] in before)
    && (forall i :: 0 <= i < |batch| ==> runs[batch[i]] == SweptRow(before[batch[i]], i < n, overrides, now))
    && (forall r :: r in before && r !in batch ==> runs[r] == before[r])
  }

  lemma SweptStep(before: Runs, runs: Runs, batch: seq<RunId>, n: nat, overrides: map<RunState, int>, now: int)
    requires SweptUpTo(before, runs, batch, n, overrides, now) && n < |batch|
    requires forall i, j :: 0 <= i < j < |batch| ==> batch[i] != batch[j]
    ensures runs[batch[n]] == before[batch[n]]
    ensures
      var r := batch[n];
      SweptUpTo(before, runs[r := SweptRow(runs[r], true, overrides, now)], batch, n + 1, overrides, now)
  {
    assert batch[n] in batch;
  }

  class SymphonyStateMachine {
    var runs: Runs
    var events: seq<Event>

    constructor (runs: Runs)
      ensures this.runs == runs && events == []
    {
      this.runs := runs;
      this.events := [];
    }

    /** `transition` with a transaction client. */
    method Transition(q: Request, now: int) returns (r: Outcome)
      modifies this
      ensures Judge(old(runs), q).Answer? ==>
        r == Judge(old(runs), q).outcome && runs == old(runs) && events == old(events)
      ensures Judge(old(runs), q).Proceed? ==>
        && r == Moved(q.target, old(runs[q.run].version) + 1)
        && q.run in runs && runs == old(runs)[q.run := runs[q.run]] && IsMoved(old(runs[q.run]), runs[q.run], q.target, now)
        && runs[q.run] == MoveRow(old(runs[q.run]), q.target, now)
        && events == old(events) + [Event(q.run, old(runs[q.run].status), q.target, old(runs[q.run].version) + 1)]
    {
      if q.run !in runs { return Refused(NotFound, Unclaimed, 0); }
      var row := runs[q.run];
      if row.status in TERMINAL_STATES && row.status == q.target { return AlreadyThere(row.status, row.version); }
      if row.status in TERMINAL_STATES { return Refused(InTerminalState, row.status, row.version); }
      if !IsValidTransition(row.status, q.target) { return Refused(InvalidTransition, row.status, row.version); }
      if row.version != q.expected { return Refused(VersionMismatch, row.status, row.version); }
      if q.epoch.Some? {
        if row.epoch.None? { return Refused(NoClaimEpoch, row.status, row.version); }
        if row.epoch != q.epoch { return Refused(EpochMismatch, row.status, row.version); }
      }
      var changed := Update(q, now);
      assert runs == old(runs)[q.run := runs[q.run]];
      if !changed { return Refused(CasFailed, row.status, row.version); }
      events := events + [Event(q.run, row.status, q.target, row.version + 1)];
      r := Moved(q.target, row.version + 1);
    }

    /** The guarded UPDATE: it changes the row if and only if the expected version still holds. */
    method Update(q: Request, now: int) returns (changed: bool)
      modifies this`runs
      ensures changed <==> q.run in old(runs) && old(runs)[q.run].version == q.expected
      ensures runs == if changed then old(runs)[q.run := MoveRow(old(runs)[q.run], q.target, now)] else old(runs)
      ensures changed ==> runs == old(runs)[q.run := runs[q.run]] && IsMoved(old(runs)[q.run], runs[q.run], q.target, now)
    {
      changed := q.run in runs && runs[q.run].version == q.expected;
      if changed { runs := runs[q.run := MoveRow(runs[q.run], q.target, now)]; }
    }

    /** Moves exactly the overdue rows of the batch, each to its timeout target; no move is refused. */
    method WatchdogSweep(batch: seq<RunId>, ghost locked: set<RunId>, ghost size: nat,
                         overrides: map<RunState, int>, now: int)
      returns (moved: seq<Move>)
      requires IsBatch(runs, locked, batch, size)
      modifies this
      ensures runs.Keys == old(runs).Keys
      ensures forall r :: r in runs ==> runs[r] == SweptRow(old(runs)[r], r in batch, overrides, now)
      ensures forall r :: r in runs ==>
        if r in batch && Overdue(old(runs)[r], overrides, now)
        then IsMoved(old(runs)[r], runs[r], TimeoutTarget(old(runs)[r].status), now) else runs[r] == old(runs)[r]
      ensures moved == SweepMoves(old(runs), batch, overrides, now)
      ensures |Candidates(old(runs), locked)| <= size ==>
        forall r :: r in runs && r !in locked ==> !Overdue(runs[r], overrides, now)
    {
      moved := SweepRows(batch, overrides, now);
      SweepClears(old(runs), runs, locked, batch, size, overrides, now);
    }

    method SweepRows(batch: seq<RunId>, overrides: map<RunState, int>, now: int) returns (moved: seq<Move>)
      requires forall i :: 0 <= i < |batch| ==> batch[i] in runs && Sweepable(runs[batch[i]])
      requires forall i, j :: 0 <= i < j < |batch| ==> batch[i] != batch[j]
      modifies this
      ensures runs.Keys == old(runs).Keys
      ensures forall r :: r in runs ==> runs[r] == SweptRow(old(runs)[r], r in batch, overrides, now)
      ensures moved == SweepMoves(old(runs), batch, overrides, now)
    {
      moved := [];
      for n := 0 to |batch|
        invariant SweptUpTo(old(runs), runs, batch, n, overrides, now)
        invariant moved == SweepMoves(old(runs), batch[..n], overrides, now)
      {
        SweptStep(old(runs), runs, batch, n, overrides, now);
        assert batch[..n + 1] == batch[..n] + [batch[n]] && batch[..n + 1][..n] == batch[..n];
        var move := SweepRow(batch[n], overrides, now);
        moved := moved + move;
      }
      assert batch[..|batch|] == batch;
    }

    /** The body of the sweep's loop for one selected row. */
    method SweepRow(r: RunId, overrides: map<RunState, int>, now: int) returns (move: seq<Move>)
      requires r in runs && Sweepable(runs[r])
      modifies this
      ensures runs == old(runs)[r := SweptRow(old(runs)[r], true, overrides, now)]
      ensures move == if Overdue(old(runs)[r], overrides, now)
        then [Move(r, old(runs)[r].status, TimeoutTarget(old(runs)[r].status))] else []
    {
      var row := runs[r];
      var limit := Limit(overrides, row.status);
      if limit == 0 || now - row.updatedAt < 1000 * limit { return []; }
      TimeoutTargetIsValid(row.status);
      var q := Request(r, TimeoutTarget(row.status), row.version, None);
      JudgeMeaning(runs, q);
      var outcome := Transition(q, now);
      move := if outcome.Refused? then [] else [Move(r, row.status, q.target)];
    }
  }
}
