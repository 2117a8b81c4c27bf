/** The 22-state run lifecycle (src/symphony/states.ts) as a graph, and what is true of every
    history that walks it. */
module RunStates {

  datatype RunState =
    | Unclaimed | Claimed | Provisioning | Prompting | Running | AwaitingApproval
    | VerifyingResult | MergePending | PostMergeVerify | IssueClosing | ContinuationWait
    | Succeeded | Failed | Stalled | Cancelled | Terminated | Terminating | Paused
    | Orphaned | CleanupFailed | RetryQueued | Released

  const TERMINAL_STATES: set<RunState> := {Succeeded, Cancelled, Terminated, Released, CleanupFailed}

  const ACTIVE_STATES: set<RunState> :=
    {Claimed, Provisioning, Prompting, Running, AwaitingApproval, VerifyingResult, MergePending,
     PostMergeVerify, IssueClosing, Terminating}

  /** VALID_TRANSITIONS: the states reachable in one step from `s`. */
  function ValidTargets(s: RunState): set<RunState> {
    match s
    case Unclaimed => {Claimed, Cancelled}
    case Claimed => {Provisioning, Released, Orphaned, Cancelled, Terminating}
    case Provisioning => {Prompting, Failed, Orphaned, Cancelled, Terminating}
    case Prompting => {Running, Failed, Cancelled, Terminating}
    case Running => {VerifyingResult, AwaitingApproval, Stalled, Failed, Cancelled, Terminating}
    case AwaitingApproval => {Running, MergePending, VerifyingResult, Paused, Cancelled, Terminating}
    case VerifyingResult => {MergePending, Failed, Cancelled, Terminating}
    case MergePending => {PostMergeVerify, AwaitingApproval, Failed, Cancelled, Terminating}
    case PostMergeVerify => {IssueClosing, Failed, Cancelled, Terminating}
    case IssueClosing => {Succeeded, Released, Failed, Cancelled, Terminating}
    case ContinuationWait => {Provisioning, Paused, Cancelled, Terminating}
    case Stalled => {RetryQueued, Paused, Failed, Cancelled, Terminating}
    case RetryQueued => {Provisioning, Paused, Cancelled, Terminating}
    case Paused => {RetryQueued, Cancelled, Terminating}
    case Orphaned => {Failed, Released, Cancelled}
    case Terminating => {Terminated, Released, CleanupFailed}
    case Failed => {RetryQueued, ContinuationWait}
    case _ => {}
  }

  predicate IsValidTransition(from: RunState, to: RunState) {
    to in ValidTargets(from)
  }

  /** STATE_TIMEOUTS in seconds; 0 for a state without a timeout. */
  function StateTimeout(s: RunState): nat {
    match s
    case Claimed => 60
    case Provisioning => 20 * 60
    case Prompting => 2 * 60
    case Running => 60 * 60
    case VerifyingResult => 10 * 60
    case MergePending => 30 * 60
    case PostMergeVerify => 15 * 60
    case IssueClosing => 5 * 60
    case AwaitingApproval => 5 * 60
    case Terminating => 2 * 60
    case _ => 0
  }

  /** The terminal states are exactly those with no way out. */
  lemma TerminalIffNoExit(s: RunState)
    ensures s in TERMINAL_STATES <==> (forall t :: !IsValidTransition(s, t))
  {
    assert s.Unclaimed? ==> IsValidTransition(s, Claimed);
    assert s.Orphaned? ==> IsValidTransition(s, Failed);
    assert s.Terminating? ==> IsValidTransition(s, Terminated);
    assert s.Failed? ==> IsValidTransition(s, RetryQueued);
    assert s !in TERMINAL_STATES && !s.Unclaimed? && !s.Orphaned? && !s.Terminating? && !s.Failed?
      ==> IsValidTransition(s, Cancelled);
  }

  // ---------------------------------------------------------------- histories

  /** A run history: the sequence of statuses a run has had. */
  ghost predicate Path(h: seq<RunState>) {
    |h| > 0 && forall i :: 0 <= i < |h| - 1 ==> IsValidTransition(h[i], h[i + 1])
  }

  /** A state from which `s` can be entered, nearer to the start. */
  function Before(s: RunState): RunState {
    match s
    case Unclaimed | Claimed | Cancelled => Unclaimed
    case Provisioning | Orphaned | Terminating | Released => Claimed
    case Prompting | Failed => Provisioning
    case Running => Prompting
    case VerifyingResult | AwaitingApproval | Stalled => Running
    case MergePending => VerifyingResult
    case PostMergeVerify => MergePending
    case IssueClosing => PostMergeVerify
    case Succeeded => IssueClosing
    case ContinuationWait | RetryQueued => Failed
    case Paused => Stalled
    case Terminated | CleanupFailed => Terminating
  }

  function Depth(s: RunState): nat {
    match s
    case Unclaimed => 0
    case Claimed | Cancelled => 1
    case Provisioning | Orphaned | Terminating | Released => 2
    case Prompting | Failed | Terminated | CleanupFailed => 3
    case Running | ContinuationWait | RetryQueued => 4
    case VerifyingResult | AwaitingApproval | Stalled => 5
    case MergePending | Paused => 6
    case PostMergeVerify => 7
    case IssueClosing => 8
    case Succeeded => 9
  }

  /** Every state is reached by some history. */
  lemma {:induction false} EveryStateIsReached(s: RunState) returns (h: seq<RunState>)
    ensures Path(h) && h[0] == Unclaimed && h[|h| - 1] == s
    decreases Depth(s)
  {
    if s == Unclaimed {
      h := [Unclaimed];
    } else {
      var front := EveryStateIsReached(Before(s));
      h := front + [s];
    }
  }

  /** From every state that is not terminal a run can be cancelled at once, but for failed and terminating
      ones; a failed one can be queued again first, a terminating one ends terminated, released or with its
      cleanup failed. */
  lemma EveryRunCanBeEnded(s: RunState)
    ensures IsValidTransition(s, Cancelled) <==> s !in TERMINAL_STATES && s != Failed && s != Terminating
    ensures IsValidTransition(Failed, RetryQueued) && IsValidTransition(RetryQueued, Cancelled)
    ensures IsValidTransition(Terminating, s) <==> s in {Terminated, Released, CleanupFailed}
  {
  }

  /** The states through which every cycle of the graph passes. */
  const RESTARTS: set<RunState> := {Provisioning, AwaitingApproval, Paused}

  /** How many transitions of `h` enter a restart state. */
  function Restarts(h: seq<RunState>): nat {
    if |h| <= 1 then 0
    else Restarts(h[..|h| - 1]) + if h[|h| - 1] in RESTARTS then 1 else 0
  }

  /** Longest way out of a state that enters no restart state again. */
  function Rank(s: RunState): nat {
    match s
    case Provisioning => 10
    case Prompting | AwaitingApproval => 9
    case Running => 8
    case VerifyingResult => 7
    case MergePending | Unclaimed => 6
    case PostMergeVerify | Claimed => 5
    case IssueClosing | Stalled | Orphaned => 4
    case Failed | Paused => 3
    case RetryQueued | ContinuationWait => 2
    case Terminating => 1
    case _ => 0
  }

  lemma RankStep(s: RunState, t: RunState)
    requires IsValidTransition(s, t)
    ensures Rank(t) + 1 <= Rank(s) + if t in RESTARTS then 9 else 0
  {
  }

  /** A history has at most 9 transitions per restart and 10 besides. */
  lemma {:induction false} HistoryBound(h: seq<RunState>)
    requires Path(h)
    ensures |h| - 1 + Rank(h[|h| - 1]) <= Rank(h[0]) + 9 * Restarts(h)
    ensures |h| - 1 <= 10 + 9 * Restarts(h)
  {
    if |h| > 1 {
      var p := h[..|h| - 1];
      assert forall i :: 0 <= i < |p| ==> p[i] == h[i];
      HistoryBound(p);
      assert IsValidTransition(h[|h| - 2], h[|h| - 1]);
      RankStep(h[|h| - 2], h[|h| - 1]);
    }
  }

  /** One failed attempt from provisioning back to provisioning: nine transitions. */
  const FULL_ATTEMPT: seq<RunState> :=
    [Prompting, Running, VerifyingResult, MergePending, PostMergeVerify, IssueClosing, Failed,
     RetryQueued, Provisioning]

  /** The longest history with `k` restarts, built from full attempts. */
  function LongHistory(k: nat): seq<RunState> {
    if k == 0 then [Provisioning] else LongHistory(k - 1) + FULL_ATTEMPT
  }

  lemma {:induction false} RestartsAppend(h: seq<RunState>, t: seq<RunState>)
    requires |h| > 0
    ensures Restarts(h + t) == Restarts(h) + Restarts([Unclaimed] + t)
    decreases |t|
  {
    if t == [] {
      assert h + t == h;
    } else {
      var t' := t[..|t| - 1];
      RestartsAppend(h, t');
      assert (h + t)[..|h + t| - 1] == h + t';
      assert ([Unclaimed] + t)[..|t|] == [Unclaimed] + t';
    }
  }

  lemma FullAttemptIsPath()
    ensures |FULL_ATTEMPT| == 9 && FULL_ATTEMPT[8] == Provisioning && IsValidTransition(Provisioning, FULL_ATTEMPT[0])
    ensures forall i :: 0 <= i < 8 ==> IsValidTransition(FULL_ATTEMPT[i], FULL_ATTEMPT[i + 1])
  {
  }

  lemma {:induction false} LongHistoryFacts(k: nat)
    ensures var h := LongHistory(k);
      Path(h) && |h| == 9 * k + 1 && Restarts(h) == k && h[0] == Provisioning && h[|h| - 1] == Provisioning
  {
    if k > 0 {
      LongHistoryFacts(k - 1);
      var p := LongHistory(k - 1);
      FullAttemptIsPath();
      PathAppend(p, FULL_ATTEMPT);
      RestartsAppend(p, FULL_ATTEMPT);
      RestartsOfAttempt();
    }
  }

  lemma PathAppend(p: seq<RunState>, t: seq<RunState>)
    requires Path(p) && |t| > 0
    requires IsValidTransition(p[|p| - 1], t[0])
    requires forall i :: 0 <= i < |t| - 1 ==> IsValidTransition(t[i], t[i + 1])
    ensures Path(p + t)
  {
    var h := p + t;
    forall i | 0 <= i < |h| - 1 ensures IsValidTransition(h[i], h[i + 1]) {
      if i >= |p| { assert IsValidTransition(t[i - |p|], t[i - |p| + 1]); }
    }
  }

  lemma RestartsOfAttempt()
    ensures Restarts([Unclaimed] + FULL_ATTEMPT) == 1
  {
    var h := [Unclaimed] + FULL_ATTEMPT;
    RestartsPrefix(h, 8);
    assert h[..9] == h[..|h| - 1];
  }

  lemma {:induction false} RestartsPrefix(h: seq<RunState>, n: nat)
    requires n < |h|
    requires forall i :: 1 <= i <= n ==> h[i] !in RESTARTS
    ensures Restarts(h[..n + 1]) == 0
  {
    if n > 0 {
      RestartsPrefix(h, n - 1);
      assert h[..n + 1][..n] == h[..n];
    }
  }

  /** The bound of HistoryBound is met for every number of restarts. */
  lemma HistoryBoundTight(k: nat) returns (h: seq<RunState>)
    ensures Path(h) && Restarts(h) == k && |h| - 1 == 10 + 9 * k
  {
    var tail := [Prompting, Running, VerifyingResult, MergePending, PostMergeVerify, IssueClosing,
                 Failed, RetryQueued, Terminating, Terminated];
    LongHistoryFacts(k);
    h := LongHistory(k) + tail;
    PathAppend(LongHistory(k), tail);
    RestartsAppend(LongHistory(k), tail);
    var w := [Unclaimed] + tail;
    RestartsPrefix(w, 10);
    assert w[..11] == w;
  }

  // ------------------------------------------------------ how success is reached

  /** States a run can only be in after its agent has started. */
  const UNDERWAY: set<RunState> :=
    {Running, AwaitingApproval, VerifyingResult, MergePending, PostMergeVerify, IssueClosing, Succeeded, Stalled}

  lemma UnderwayOnlyViaRunning(s: RunState, t: RunState)
    requires IsValidTransition(s, t) && t in UNDERWAY && s !in UNDERWAY
    ensures s == Prompting && t == Running
  {
  }

  /** Position `p` of a history starts its current attempt: provisioning, prompting, running, and
      after that the run stays underway. */
  ghost predicate StartsAttempt(h: seq<RunState>, p: nat) {
    && p + 2 < |h|
    && h[p] == Provisioning && h[p + 1] == Prompting && h[p + 2] == Running
    && forall i :: p + 2 <= i < |h| ==> h[i] in UNDERWAY
  }

  lemma {:induction false} UnderwayHasAttempt(h: seq<RunState>) returns (p: nat)
    requires Path(h) && h[0] == Unclaimed && h[|h| - 1] in UNDERWAY
    ensures StartsAttempt(h, p)
  {
    var n := |h| - 1;
    assert n > 0 && IsValidTransition(h[n - 1], h[n]);
    if h[n - 1] in UNDERWAY {
      var g := h[..n];
      PathFront(h);
      p := UnderwayHasAttempt(g);
      AttemptGoesOn(h, p);
    } else {
      UnderwayOnlyViaRunning(h[n - 1], h[n]);
      assert n - 1 > 0 && IsValidTransition(h[n - 2], h[n - 1]);
      p := n - 2;
    }
  }

  lemma PathFront(h: seq<RunState>)
    requires Path(h) && |h| > 1
    ensures Path(h[..|h| - 1]) && h[..|h| - 1][0] == h[0] && h[..|h| - 1][|h| - 2] == h[|h| - 2]
  {
    var g := h[..|h| - 1];
    forall i | 0 <= i < |g| - 1 ensures IsValidTransition(g[i], g[i + 1]) {
      assert IsValidTransition(h[i], h[i + 1]);
    }
  }

  lemma AttemptGoesOn(h: seq<RunState>, p: nat)
    requires |h| > 1 && StartsAttempt(h[..|h| - 1], p) && h[|h| - 1] in UNDERWAY
    ensures StartsAttempt(h, p)
  {
    var g := h[..|h| - 1];
    forall i | p + 2 <= i < |h| ensures h[i] in UNDERWAY {
      if i < |g| { assert g[i] in UNDERWAY; }
    }
  }

  /** Every history from creation to success ends merge, verify, close, succeed, and its last
      provisioning is followed at once by prompting and running and never by a failure. */
  lemma SuccessShape(h: seq<RunState>) returns (p: nat)
    requires Path(h) && h[0] == Unclaimed && h[|h| - 1] == Succeeded
    ensures |h| >= 4 && h[|h| - 4..] == [MergePending, PostMergeVerify, IssueClosing, Succeeded]
    ensures StartsAttempt(h, p)
    ensures forall i :: p < i < |h| ==> h[i] != Provisioning
  {
    ClosingShape(h);
    p := UnderwayHasAttempt(h);
  }

  /** Only one state leads to each of the last three. */
  lemma ClosingShape(h: seq<RunState>)
    requires Path(h) && h[0] == Unclaimed && h[|h| - 1] == Succeeded
    ensures |h| >= 4 && h[|h| - 4..] == [MergePending, PostMergeVerify, IssueClosing, Succeeded]
  {
    var n := |h| - 1;
    assert IsValidTransition(h[n - 1], h[n]);
    assert IsValidTransition(h[n - 2], h[n - 1]);
    assert IsValidTransition(h[n - 3], h[n - 2]);
  }
}
