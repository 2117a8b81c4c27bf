/** The symphony_run table and the single statements that write it. Each statement is atomic. */
module RunTable {
  import opened Wrappers
  import opened RunStates

  type RunId = nat

  datatype Run = Run(
    ns: string, item: string, attempt: nat, orchestrator: Option<string>, status: RunState, version: nat, epoch: Option<int>,
    startedAt: Option<int>, completedAt: Option<int>, updatedAt: int, createdAt: int)

  type Runs = map<RunId, Run>

  // ------------------------------------------------- the unique index on unfinished runs

  predicate Unfinished(row: Run) {
    row.status !in TERMINAL_STATES
  }

  predicate SameAttempt(a: Run, b: Run) {
    a.item == b.item && a.attempt == b.attempt
  }

  /** Another unfinished run has the same work item and attempt. */
  predicate HasRival(runs: Runs, r: RunId, row: Run) {
    exists q :: q in runs && q != r && Unfinished(runs[q]) && SameAttempt(runs[q], row)
  }

  /** The index refuses a row that enters it beside a rival: a new run, or one taken out of a terminal state. */
  predicate IndexRefuses(runs: Runs, r: RunId, row: Run) {
    (r in runs ==> !Unfinished(runs[r])) && Unfinished(row) && HasRival(runs, r, row)
  }

  ghost predicate OneUnfinished(runs: Runs) {
    forall q, r :: q in runs && r in runs && q != r && Unfinished(runs[q]) && Unfinished(runs[r]) ==>
      !SameAttempt(runs[q], runs[r])
  }

  lemma IndexKept(runs: Runs, r: RunId, row: Run)
    requires OneUnfinished(runs) && !IndexRefuses(runs, r, row) && (r in runs ==> SameAttempt(runs[r], row))
    ensures OneUnfinished(runs[r := row])
  {
    if Unfinished(row) && !(r in runs && Unfinished(runs[r])) {
      assert forall q :: q in runs && q != r && Unfinished(runs[q]) ==> !SameAttempt(runs[q], row);
    }
  }

  // ------------------------------------------------- SymphonyStateMachine.transition

  /** What a caller asks of `transition`. */
  datatype Request = Request(run: RunId, target: RunState, expected: int, epoch: Option<int>)

  datatype Refusal =
    | NotFound | InTerminalState | InvalidTransition | VersionMismatch | NoClaimEpoch | EpochMismatch
    | CasFailed

  datatype Outcome =
    | Moved(state: RunState, version: nat)
    | AlreadyThere(state: RunState, version: nat)
    | Refused(why: Refusal, state: RunState, version: nat)

  /** The checks between the locking read and the UPDATE, in the order they are made. */
  datatype Verdict = Answer(outcome: Outcome) | Proceed

  function Judge(runs: Runs, q: Request): Verdict {
    if q.run !in runs then Answer(Refused(NotFound, Unclaimed, 0))
    else
      var row := runs[q.run];
      if row.status in TERMINAL_STATES && row.status == q.target then
        Answer(AlreadyThere(row.status, row.version))
      else if row.status in TERMINAL_STATES then Answer(Refused(InTerminalState, row.status, row.version))
      else if !IsValidTransition(row.status, q.target) then
        Answer(Refused(InvalidTransition, row.status, row.version))
      else if row.version != q.expected then Answer(Refused(VersionMismatch, row.status, row.version))
      else if q.epoch.Some? && row.epoch.None? then Answer(Refused(NoClaimEpoch, row.status, row.version))
      else if q.epoch.Some? && row.epoch != q.epoch then
        Answer(Refused(EpochMismatch, row.status, row.version))
      else Proceed
  }

  /** The row the UPDATE leaves behind. */
  function MoveRow(row: Run, target: RunState, now: int): Run {
    row.(status := target, version := row.version + 1, updatedAt := now,
         startedAt := if row.startedAt.None? && target != Unclaimed then Some(now) else row.startedAt,
         completedAt := if target in TERMINAL_STATES then Some(now) else row.completedAt)
  }

  /** The columns no statement here rewrites. */
  predicate SameRun(a: Run, b: Run) {
    a.ns == b.ns && a.item == b.item && a.attempt == b.attempt && a.epoch == b.epoch && a.createdAt == b.createdAt
  }

  /** What a move to `target` at `now` leaves in every column. */
  predicate IsMoved(before: Run, after: Run, target: RunState, now: int) {
    && SameRun(before, after) && after.orchestrator == before.orchestrator
    && after.status == target && after.version == before.version + 1 && after.updatedAt == now
    && (before.startedAt.Some? ==> after.startedAt == before.startedAt)
    && (before.startedAt.None? ==> after.startedAt == if target == Unclaimed then None else Some(now))
    && after.completedAt == if target in {Succeeded, Cancelled, Terminated, Released, CleanupFailed} then Some(now) else before.completedAt
  }

  lemma MoveColumns(row: Run, target: RunState, now: int)
    ensures IsMoved(row, MoveRow(row, target, now), target, now)
  {
  }

  // ---------------------------------------------------------------- watchdog

  /** timeoutTargetState, for the states that have a timeout. */
  function TimeoutTarget(s: RunState): RunState
    requires StateTimeout(s) > 0
  {
    match s
    case Claimed => Orphaned
    case Running => Stalled
    case AwaitingApproval => Paused
    case Terminating => CleanupFailed
    case _ => Failed
  }

  lemma TimeoutTargetIsValid(s: RunState)
    requires StateTimeout(s) > 0
    ensures IsValidTransition(s, TimeoutTarget(s)) && StateTimeout(TimeoutTarget(s)) == 0
    ensures s !in TERMINAL_STATES
  {
  }

  /** Where a timed-out run ends up, and that it can be queued again, at once or after it has been failed;
      all but one that was terminating, which is finished. */
  lemma TimedOutRunsCanBeRetried(s: RunState)
    requires StateTimeout(s) > 0
    ensures var t := TimeoutTarget(s);
      && (s == Terminating <==> t in TERMINAL_STATES) && (s == Terminating ==> t == CleanupFailed)
      && (s == Running ==> t == Stalled && IsValidTransition(t, RetryQueued))
      && (s == AwaitingApproval ==> t == Paused && IsValidTransition(t, RetryQueued))
      && (s == Claimed ==> t == Orphaned && IsValidTransition(t, Failed) && IsValidTransition(Failed, RetryQueued))
      && (s !in {Terminating, Running, AwaitingApproval, Claimed} ==> t == Failed && IsValidTransition(t, RetryQueued))
  {
  }

  /** A row the watchdog's SELECT can return. */
  predicate Sweepable(row: Run) {
    StateTimeout(row.status) > 0 && row.completedAt.None?
  }

  /** The limit in force for a state, in seconds; 0 means no limit, and below 0 a run is overdue at once. */
  function Limit(overrides: map<RunState, int>, s: RunState): int {
    if s in overrides then overrides[s] else StateTimeout(s)
  }

  /** Times are in milliseconds, limits in seconds; a zero limit is skipped, as in the source. */
  predicate Overdue(row: Run, overrides: map<RunState, int>, now: int) {
    && Sweepable(row)
    && Limit(overrides, row.status) != 0
    && now - row.updatedAt >= 1000 * Limit(overrides, row.status)
  }

  /** A run that has just been moved is not overdue before its limit has passed. */
  lemma MovedRunsGetTheirTime(before: Run, after: Run, target: RunState, now: int, overrides: map<RunState, int>, t: int)
    requires IsMoved(before, after, target, now)
    ensures Overdue(after, overrides, t) ==> t - now >= 1000 * Limit(overrides, target)
    ensures Overdue(after, overrides, t) <==>
      && StateTimeout(target) > 0 && before.completedAt.None? && Limit(overrides, target) != 0
      && t - now >= 1000 * Limit(overrides, target)
  {
  }

  // ------------------------------------------------- other writers of symphony_run

  /** tick: claim one unclaimed, unowned run. */
  predicate TickClaims(row: Run) {
    row.status == Unclaimed && row.orchestrator.None?
  }

  function TickRow(row: Run, orchestrator: string, now: int): Run {
    row.(orchestrator := Some(orchestrator), status := Claimed, version := row.version + 1, updatedAt := now)
  }

  /** What the claim of a tick at `now` leaves in every column. */
  predicate IsTicked(before: Run, after: Run, orchestrator: string, now: int) {
    && SameRun(before, after) && after.orchestrator == Some(orchestrator)
    && after.status == Claimed && after.version == before.version + 1 && after.updatedAt == now
    && after.startedAt == before.startedAt && after.completedAt == before.completedAt
  }

  lemma TickColumns(row: Run, orchestrator: string, now: int)
    ensures IsTicked(row, TickRow(row, orchestrator, now), orchestrator, now)
  {
  }

  /** Writers that set a status without touching state_version. */
  datatype Bypass = Recover | CancelRoute | RetryRoute | ApproveRoute | MergeRoute | IssueClosed

  /** RECOVERY_TRANSITIONS: the recovery target of a status, if it has one. */
  function RecoveryTarget(s: RunState): Option<RunState> {
    match s
    case Claimed | Provisioning | Prompting | RetryQueued => Some(Failed)
    case Running | AwaitingApproval | VerifyingResult | MergePending | PostMergeVerify
       | IssueClosing | ContinuationWait => Some(Stalled)
    case Paused => Some(Orphaned)
    case Terminating => Some(Terminated)
    case _ => None
  }

  /** The status a bypassing writer gives a run, if its WHERE clause accepts the run. */
  function BypassTarget(w: Bypass, s: RunState): Option<RunState> {
    match w
    case Recover => RecoveryTarget(s)
    case CancelRoute | IssueClosed => if s in TERMINAL_STATES then None else Some(Cancelled)
    case RetryRoute => if s in {Failed, Stalled, Paused} then Some(RetryQueued) else None
    case ApproveRoute => if s == AwaitingApproval then Some(Running) else None
    case MergeRoute => if s in {VerifyingResult, AwaitingApproval} then Some(MergePending) else None
  }

  function BypassRow(w: Bypass, row: Run, now: int): Run
    requires BypassTarget(w, row.status).Some?
  {
    row.(status := BypassTarget(w, row.status).value, updatedAt := now,
         completedAt := if w in {Recover, CancelRoute} then Some(now) else row.completedAt)
  }

  /** What a bypassing writer at `now` leaves in every column; the version stays. */
  predicate IsBypassed(w: Bypass, before: Run, after: Run, now: int) {
    && SameRun(before, after) && after.orchestrator == before.orchestrator
    && after.version == before.version && after.updatedAt == now && after.startedAt == before.startedAt
    && after.completedAt == (if w == Recover || w == CancelRoute then Some(now) else before.completedAt)
    && (w == CancelRoute || w == IssueClosed ==> after.status == Cancelled)
    && (w == RetryRoute ==> after.status == RetryQueued)
    && (w == ApproveRoute ==> after.status == Running)
    && (w == MergeRoute ==> after.status == MergePending)
    && (w == Recover ==> IsRecoveryOf(before.status, after.status))
  }

  /** Runs that had not begun their work fail, runs underway stall, paused ones are orphaned and terminating
      ones terminated. */
  predicate IsRecoveryOf(from: RunState, to: RunState) {
    && (from in {Claimed, Provisioning, Prompting, RetryQueued} ==> to == Failed)
    && (from in {Running, AwaitingApproval, VerifyingResult, MergePending, PostMergeVerify, IssueClosing, ContinuationWait} ==>
          to == Stalled)
    && (from == Paused ==> to == Orphaned)
    && (from == Terminating ==> to == Terminated)
    && from !in {Unclaimed, Succeeded, Failed, Stalled, Cancelled, Terminated, Orphaned, CleanupFailed, Released}
  }

  lemma BypassColumns(w: Bypass, row: Run, now: int)
    requires BypassTarget(w, row.status).Some?
    ensures IsBypassed(w, row, BypassRow(w, row, now), now)
  {
  }

  /** Which runs recovery leaves alone. */
  lemma RecoversAllBut(s: RunState)
    ensures RecoveryTarget(s).None? <==> s in {Unclaimed, Failed, Stalled, Orphaned} + TERMINAL_STATES
    ensures RecoveryTarget(s).Some? ==> IsRecoveryOf(s, RecoveryTarget(s).value)
  {
  }

  /** Exactly which request gets past the checks, and that refusals name the first failed check. */
  lemma JudgeMeaning(runs: Runs, q: Request)
    ensures Judge(runs, q).Proceed? <==>
      && q.run in runs && runs[q.run].version == q.expected
      && IsValidTransition(runs[q.run].status, q.target)
      && (q.epoch.Some? ==> runs[q.run].epoch == q.epoch)
    ensures Judge(runs, q).Answer? && Judge(runs, q).outcome.AlreadyThere? <==>
      q.run in runs && runs[q.run].status == q.target && q.target in TERMINAL_STATES
  {
    if q.run in runs { TerminalIffNoExit(runs[q.run].status); }
  }
}
