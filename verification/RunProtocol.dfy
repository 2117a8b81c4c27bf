/** Any number of `transition` callers on the pool, tick claims, watchdog moves and version-bypassing
    writers, interleaved statement by statement. On the pool the locking read and the guarded UPDATE
    of `transition` are separate statements, so other writers may come between them. */
module RunProtocol {
  import opened Wrappers
  import opened RunStates
  import opened RunTable

  type CallerId = nat

  /** A caller between its read and its UPDATE: the request, the status it saw, and whether a
      bypassing writer has changed the run since (an auxiliary variable). */
  datatype Pending = Pending(q: Request, seen: RunState, overtaken: bool)

  /** One row change. `counted`: it raised state_version. `clean`: no bypassing writer came between
      the check that justified it and the change. */
  datatype Change = Change(run: RunId, from: RunState, to: RunState, version: nat, counted: bool, clean: bool)

  datatype System = System(runs: Runs, pending: map<CallerId, Pending>, log: seq<Change>)

  datatype Step =
    | Create(run: RunId, ns: string, item: string, attempt: nat, epoch: Option<int>, at: int)
    | Check(caller: CallerId, q: Request)
    | Commit(caller: CallerId, at: int)
    | Tick(run: RunId, orchestrator: string, at: int)
    | Watchdog(run: RunId, overrides: map<RunState, int>, at: int)
    | Write(w: Bypass, run: RunId, at: int)

  const EMPTY: System := System(map[], map[], [])

  /** One statement. A step that is not enabled leaves the system as it is. */
  function Apply(s: System, step: Step): System {
    match step
    case Create(r, ns, item, attempt, epoch, at) =>
      var row := Run(ns, item, attempt, None, Unclaimed, 1, epoch, None, None, at, at);
      if r in s.runs || IndexRefuses(s.runs, r, row) then s
      else System(s.runs[r := row], s.pending, s.log + [Change(r, Unclaimed, Unclaimed, 1, true, true)])
    case Check(c, q) =>
      if c in s.pending || Judge(s.runs, q).Answer? then s
      else s.(pending := s.pending[c := Pending(q, s.runs[q.run].status, false)])
    case Commit(c, at) =>
      if c !in s.pending then s
      else
        var p := s.pending[c];
        var s' := s.(pending := s.pending - {c});
        if p.q.run in s.runs && s.runs[p.q.run].version == p.q.expected
           && !IndexRefuses(s.runs, p.q.run, MoveRow(s.runs[p.q.run], p.q.target, at)) then
          Changed(s', p.q.run, MoveRow(s.runs[p.q.run], p.q.target, at), true, !p.overtaken)
        else s' // it has lost, or the index makes the UPDATE throw
    case Tick(r, o, at) =>
      if r in s.runs && TickClaims(s.runs[r]) then Changed(s, r, TickRow(s.runs[r], o, at), true, true) else s
    case Watchdog(r, overrides, at) =>
      if r in s.runs && Overdue(s.runs[r], overrides, at) then
        Changed(s, r, MoveRow(s.runs[r], TimeoutTarget(s.runs[r].status), at), true, true)
      else s
    case Write(w, r, at) =>
      if r in s.runs && BypassTarget(w, s.runs[r].status).Some? then
        var s' := Changed(s, r, BypassRow(w, s.runs[r], at), false, true);
        s'.(pending := map c | c in s.pending ::
              if s.pending[c].q.run == r then s.pending[c].(overtaken := true) else s.pending[c])
      else s
  }

  function Changed(s: System, r: RunId, row: Run, counted: bool, clean: bool): System
    requires r in s.runs
  {
    s.(runs := s.runs[r := row],
       log := s.log + [Change(r, s.runs[r].status, row.status, row.version, counted, clean)])
  }

  function Exec(s: System, steps: seq<Step>): System {
    if steps == [] then s else Apply(Exec(s, steps[..|steps| - 1]), steps[|steps| - 1])
  }

  /** The statuses a run has had, oldest first. */
  function History(log: seq<Change>, r: RunId): seq<RunState> {
    if log == [] then []
    else
      var last := log[|log| - 1];
      History(log[..|log| - 1], r) + if last.run == r then [last.to] else []
  }

  lemma HistoryPush(log: seq<Change>, w: Change, r: RunId)
    ensures History(log + [w], r) == History(log, r) + if w.run == r then [w.to] else []
  {
    assert (log + [w])[..|log|] == log;
  }

  // ------------------------------------------------ with every writer counting versions

  predicate Counting(steps: seq<Step>) {
    forall i :: 0 <= i < |steps| ==> !steps[i].Write?
  }

  ghost predicate HistoryOk(h: seq<RunState>, row: Run) {
    && Path(h)
    && h[0] == Unclaimed
    && h[|h| - 1] == row.status
    && |h| == row.version
  }

  ghost predicate RunsOk(s: System) {
    && (forall r :: r in s.runs ==> HistoryOk(History(s.log, r), s.runs[r]))
    && (forall r :: r !in s.runs ==> History(s.log, r) == [])
  }

  ghost predicate PendingOk(runs: Runs, p: Pending) {
    && p.q.run in runs
    && IsValidTransition(p.seen, p.q.target)
    && p.q.expected <= runs[p.q.run].version
    && (p.q.expected == runs[p.q.run].version && !p.overtaken ==> runs[p.q.run].status == p.seen)
  }

  /** Each change of a run carries a higher version than every earlier change of it. */
  ghost predicate VersionsRise(s: System) {
    && (forall i :: 0 <= i < |s.log| ==> s.log[i].run in s.runs && s.log[i].version <= s.runs[s.log[i].run].version)
    && (forall i, j :: 0 <= i < j < |s.log| && s.log[i].run == s.log[j].run ==>
          s.log[i].version < s.log[j].version)
  }

  ghost predicate CountingInv(s: System) {
    && RunsOk(s)
    && (forall c :: c in s.pending ==> PendingOk(s.runs, s.pending[c]) && !s.pending[c].overtaken)
    && VersionsRise(s)
  }

  lemma HistoryGrows(h: seq<RunState>, row: Run, row': Run)
    requires HistoryOk(h, row) && row'.version == row.version + 1 && IsValidTransition(row.status, row'.status)
    ensures HistoryOk(h + [row'.status], row')
  {
    PathAppend(h, [row'.status]);
  }

  lemma ChangedRunsOk(s: System, r: RunId, row: Run)
    requires RunsOk(s) && r in s.runs
    requires row.version == s.runs[r].version + 1 && IsValidTransition(s.runs[r].status, row.status)
    ensures RunsOk(Changed(s, r, row, true, true))
  {
    var w := Change(r, s.runs[r].status, row.status, row.version, true, true);
    HistoryGrows(History(s.log, r), s.runs[r], row);
    forall q ensures History(s.log + [w], q) == History(s.log, q) + if q == r then [row.status] else [] {
      HistoryPush(s.log, w, q);
    }
  }

  lemma ChangedKeepsInv(s: System, r: RunId, row: Run)
    requires CountingInv(s) && r in s.runs
    requires row.version == s.runs[r].version + 1 && IsValidTransition(s.runs[r].status, row.status)
    ensures CountingInv(Changed(s, r, row, true, true))
  {
    ChangedRunsOk(s, r, row);
    ChangedVersionsRise(s, r, row);
  }

  lemma ChangedVersionsRise(s: System, r: RunId, row: Run)
    requires VersionsRise(s) && r in s.runs && row.version == s.runs[r].version + 1
    ensures VersionsRise(Changed(s, r, row, true, true))
  {
  }

  lemma CreateKeepsInv(s: System, r: RunId, row: Run)
    requires CountingInv(s) && r !in s.runs && row.status == Unclaimed && row.version == 1
    ensures CountingInv(System(s.runs[r := row], s.pending, s.log + [Change(r, Unclaimed, Unclaimed, 1, true, true)]))
  {
    var w := Change(r, Unclaimed, Unclaimed, 1, true, true);
    assert HistoryOk([Unclaimed], row);
    forall q ensures History(s.log + [w], q) == History(s.log, q) + if q == r then [Unclaimed] else [] {
      HistoryPush(s.log, w, q);
    }
  }

  lemma CountingStep(s: System, step: Step)
    requires CountingInv(s) && !step.Write?
    ensures CountingInv(Apply(s, step))
  {
    match step
    case Create(r, ns, item, attempt, epoch, at) =>
      if r !in s.runs { CreateKeepsInv(s, r, Run(ns, item, attempt, None, Unclaimed, 1, epoch, None, None, at, at)); }
    case Check(c, q) =>
      JudgeMeaning(s.runs, q);
    case Commit(c, at) =>
      if c in s.pending {
        var p := s.pending[c];
        var s' := s.(pending := s.pending - {c});
        assert CountingInv(s');
        if s.runs[p.q.run].version == p.q.expected {
          ChangedKeepsInv(s', p.q.run, MoveRow(s.runs[p.q.run], p.q.target, at));
        }
      }
    case Tick(r, o, at) =>
      if r in s.runs && TickClaims(s.runs[r]) { ChangedKeepsInv(s, r, TickRow(s.runs[r], o, at)); }
    case Watchdog(r, overrides, at) =>
      if r in s.runs && Overdue(s.runs[r], overrides, at) {
        TimeoutTargetIsValid(s.runs[r].status);
        ChangedKeepsInv(s, r, MoveRow(s.runs[r], TimeoutTarget(s.runs[r].status), at));
      }
  }

  lemma {:induction false} CountingReach(steps: seq<Step>)
    requires Counting(steps)
    ensures CountingInv(Exec(EMPTY, steps))
  {
    if steps != [] {
      CountingReach(steps[..|steps| - 1]);
      CountingStep(Exec(EMPTY, steps[..|steps| - 1]), steps[|steps| - 1]);
    }
  }

  /** Under any interleaving: every run's statuses are a path of the graph from unclaimed,
      state_version is the number of statuses it has had, and so it is bounded by its restarts. */
  lemma TransitionsFollowGraph(steps: seq<Step>, r: RunId)
    requires Counting(steps) && r in Exec(EMPTY, steps).runs
    ensures var s := Exec(EMPTY, steps);
      var h := History(s.log, r);
      && Path(h) && h[0] == Unclaimed && h[|h| - 1] == s.runs[r].status
      && |h| == s.runs[r].version <= 11 + 9 * Restarts(h)
  {
    CountingReach(steps);
    HistoryBound(History(Exec(EMPTY, steps).log, r));
  }

  /** Of all changes of one run made for the same expected version there is at most one. */
  lemma OneWinnerPerVersion(steps: seq<Step>, i: nat, j: nat)
    requires Counting(steps)
    requires i < |Exec(EMPTY, steps).log| && j < |Exec(EMPTY, steps).log|
    requires Exec(EMPTY, steps).log[i].run == Exec(EMPTY, steps).log[j].run
    requires Exec(EMPTY, steps).log[i].version == Exec(EMPTY, steps).log[j].version
    ensures i == j
  {
    CountingReach(steps);
  }

  lemma {:induction false} ExecAppend(s: System, a: seq<Step>, b: seq<Step>)
    ensures Exec(s, a + b) == Exec(Exec(s, a), b)
  {
    if b == [] {
      assert a + b == a;
    } else {
      var b' := b[..|b| - 1];
      assert (a + b)[..|a + b| - 1] == a + b';
      ExecAppend(s, a, b');
    }
  }

  lemma TerminalStep(s: System, step: Step, r: RunId)
    requires CountingInv(s) && !step.Write? && r in s.runs && s.runs[r].status in TERMINAL_STATES
    ensures r in Apply(s, step).runs && Apply(s, step).runs[r] == s.runs[r]
  {
    if step.Commit? {
      if step.caller in s.pending { TerminalCommit(s, step.caller, r, step.at); }
    } else {
      TerminalOther(s, step, r);
    }
  }

  lemma TerminalOther(s: System, step: Step, r: RunId)
    requires !step.Write? && !step.Commit? && r in s.runs && s.runs[r].status in TERMINAL_STATES
    ensures r in Apply(s, step).runs && Apply(s, step).runs[r] == s.runs[r]
  {
  }

  lemma TerminalCommit(s: System, c: CallerId, r: RunId, at: int)
    requires CountingInv(s) && c in s.pending && r in s.runs && s.runs[r].status in TERMINAL_STATES
    ensures r in Apply(s, Commit(c, at)).runs && Apply(s, Commit(c, at)).runs[r] == s.runs[r]
  {
    TerminalIffNoExit(s.runs[r].status);
    assert PendingOk(s.runs, s.pending[c]);
  }

  /** Once terminal, a run keeps its row, whatever comes after. */
  lemma {:induction false} TerminalStays(s: System, more: seq<Step>, r: RunId)
    requires CountingInv(s) && Counting(more)
    requires r in s.runs && s.runs[r].status in TERMINAL_STATES
    ensures CountingInv(Exec(s, more))
    ensures r in Exec(s, more).runs && Exec(s, more).runs[r] == s.runs[r]
  {
    if more != [] {
      var m, step := more[..|more| - 1], more[|more| - 1];
      TerminalStays(s, m, r);
      CountingStep(Exec(s, m), step);
      TerminalStep(Exec(s, m), step, r);
    }
  }

  // ------------------------------------------------ with writers that bypass the version

  ghost predicate AnyInv(s: System) {
    && (forall c :: c in s.pending ==> PendingOk(s.runs, s.pending[c]))
    && (forall i :: 0 <= i < |s.log| ==>
          s.log[i].counted && s.log[i].clean && s.log[i].from != s.log[i].to ==>
            IsValidTransition(s.log[i].from, s.log[i].to))
  }

  lemma AnyStep(s: System, step: Step)
    requires AnyInv(s)
    ensures AnyInv(Apply(s, step))
  {
    match step
    case Check(c, q) => JudgeMeaning(s.runs, q);
    case Watchdog(r, overrides, at) =>
      if r in s.runs && Overdue(s.runs[r], overrides, at) { TimeoutTargetIsValid(s.runs[r].status); }
    case _ =>
  }

  lemma {:induction false} AnyReach(steps: seq<Step>)
    ensures AnyInv(Exec(EMPTY, steps))
  {
    if steps != [] {
      AnyReach(steps[..|steps| - 1]);
      AnyStep(Exec(EMPTY, steps[..|steps| - 1]), steps[|steps| - 1]);
    }
  }

  /** Even among bypassing writers, a counted change leaves the graph only if such a writer came
      between its check and its UPDATE. */
  lemma CleanChangesFollowGraph(steps: seq<Step>, i: nat)
    requires i < |Exec(EMPTY, steps).log|
    ensures var w := Exec(EMPTY, steps).log[i];
      w.counted && w.clean && w.from != w.to ==> IsValidTransition(w.from, w.to)
  {
    AnyReach(steps);
  }

  /** The status that a list of bypassing writers leaves; one whose WHERE clause refuses changes nothing. */
  function BypassAll(status: RunState, ws: seq<Bypass>): RunState {
    if ws == [] then status
    else
      var before := BypassAll(status, ws[..|ws| - 1]);
      if BypassTarget(ws[|ws| - 1], before).Some? then BypassTarget(ws[|ws| - 1], before).value else before
  }

  /** One of them has changed something. */
  predicate Touched(status: RunState, ws: seq<Bypass>) {
    ws != [] &&
    (Touched(status, ws[..|ws| - 1]) || BypassTarget(ws[|ws| - 1], BypassAll(status, ws[..|ws| - 1])).Some?)
  }

  /** The bypassing writers of one run among some steps. */
  function WritersOf(steps: seq<Step>, r: RunId): seq<Bypass> {
    if steps == [] then []
    else
      var front, e := WritersOf(steps[..|steps| - 1], r), steps[|steps| - 1];
      if e.Write? && e.run == r then front + [e.w] else front
  }

  predicate NoCommit(steps: seq<Step>, c: CallerId) {
    forall i :: 0 <= i < |steps| ==> !(steps[i].Commit? && steps[i].caller == c)
  }

  predicate Cancels(ws: seq<Bypass>) {
    CancelRoute in ws || IssueClosed in ws
  }

  /** Bypassing writers leave a terminal state if and only if one of them cancels, or recovery finds the
      run terminating, or it was terminal before. */
  lemma {:induction false} BypassesEndRun(status: RunState, ws: seq<Bypass>)
    ensures BypassAll(status, ws) in TERMINAL_STATES <==>
      status in TERMINAL_STATES || Cancels(ws) || (status == Terminating && Recover in ws)
    ensures BypassAll(status, ws) == Terminating <==> status == Terminating && !Cancels(ws) && Recover !in ws
  {
    if ws != [] {
      var front, w := ws[..|ws| - 1], ws[|ws| - 1];
      BypassesEndRun(status, front);
      LastBypass(BypassAll(status, front), w);
      assert ws == front + [w];
      assert Cancels(ws) <==> Cancels(front) || w in {CancelRoute, IssueClosed};
      assert Recover in ws <==> Recover in front || w == Recover;
    }
  }

  lemma LastBypass(before: RunState, w: Bypass)
    ensures
      var after := if BypassTarget(w, before).Some? then BypassTarget(w, before).value else before;
      && (after in TERMINAL_STATES <==>
            before in TERMINAL_STATES || w in {CancelRoute, IssueClosed} || (before == Terminating && w == Recover))
      && (after == Terminating <==> before == Terminating && w !in {CancelRoute, IssueClosed, Recover})
  {
  }

  /** A caller between its check and its UPDATE: as long as nobody has counted the version, the run is
      where the bypassing writers have put it. */
  ghost predicate Waiting(s: System, c: CallerId, q: Request, checked: RunState, ws: seq<Bypass>) {
    && c in s.pending && s.pending[c].q == q && q.run in s.runs && s.runs[q.run].version >= q.expected
    && (s.runs[q.run].version == q.expected ==>
          s.runs[q.run].status == BypassAll(checked, ws) && s.pending[c].overtaken == Touched(checked, ws))
  }

  lemma WaitingStep(s: System, c: CallerId, q: Request, checked: RunState, ws: seq<Bypass>, step: Step)
    requires Waiting(s, c, q, checked, ws) && !(step.Commit? && step.caller == c)
    ensures Waiting(Apply(s, step), c, q, checked, if step.Write? && step.run == q.run then ws + [step.w] else ws)
  {
    if step.Write? { WaitingWrite(s, c, q, checked, ws, step); }
  }

  lemma WaitingWrite(s: System, c: CallerId, q: Request, checked: RunState, ws: seq<Bypass>, step: Step)
    requires Waiting(s, c, q, checked, ws) && step.Write?
    ensures Waiting(Apply(s, step), c, q, checked, if step.run == q.run then ws + [step.w] else ws)
  {
    var r, w := step.run, step.w;
    if r in s.runs && BypassTarget(w, s.runs[r].status).Some? {
      assert BypassRow(w, s.runs[r], step.at).version == s.runs[r].version;
    }
    if r == q.run { assert (ws + [w])[..|ws|] == ws; }
  }

  lemma {:induction false} WaitingOn(s: System, c: CallerId, q: Request, checked: RunState, more: seq<Step>)
    requires Waiting(s, c, q, checked, []) && NoCommit(more, c)
    ensures Waiting(Exec(s, more), c, q, checked, WritersOf(more, q.run))
  {
    if more != [] {
      WaitingOn(s, c, q, checked, more[..|more| - 1]);
      WaitingStep(Exec(s, more[..|more| - 1]), c, q, checked, WritersOf(more[..|more| - 1], q.run), more[|more| - 1]);
    }
  }

  /** How often the version of a run has been counted. */
  function Counted(log: seq<Change>, r: RunId): nat {
    if log == [] then 0
    else
      var last := log[|log| - 1];
      Counted(log[..|log| - 1], r) + if last.run == r && last.counted then 1 else 0
  }

  lemma StepCounts(s: System, step: Step, r: RunId)
    requires r in s.runs
    ensures var s1 := Apply(s, step);
      && r in s1.runs
      && (s1.log == s.log ==> s1.runs[r].version == s.runs[r].version)
      && (s1.log != s.log ==> s1.log != [] && Logged(s, s1, r, s1.log[|s1.log| - 1]))
  {
  }

  predicate Logged(s: System, s1: System, r: RunId, w: Change)
    requires r in s.runs && r in s1.runs
  {
    s1.log == s.log + [w] && s1.runs[r].version == s.runs[r].version + if w.run == r && w.counted then 1 else 0
  }

  lemma {:induction false} VersionIsCount(s: System, more: seq<Step>, r: RunId)
    requires r in s.runs
    ensures var s1 := Exec(s, more);
      r in s1.runs && s1.runs[r].version - s.runs[r].version == Counted(s1.log, r) - Counted(s.log, r)
  {
    if more != [] {
      var front := Exec(s, more[..|more| - 1]);
      VersionIsCount(s, more[..|more| - 1], r);
      StepCounts(front, more[|more| - 1], r);
      var log := Exec(s, more).log;
      if log != front.log { assert log[..|log| - 1] == front.log; }
    }
  }

  /** When a step happens; a check writes nothing. */
  function At(step: Step): int
    requires !step.Check?
  {
    match step
    case Create(_, _, _, _, _, at) => at
    case Commit(_, at) => at
    case Tick(_, _, at) => at
    case Watchdog(_, _, at) => at
    case Write(_, _, at) => at
  }

  /** What every change leaves in the columns of its run, and that it touches no other run. */
  lemma ChangeColumns(s: System, step: Step)
    requires Apply(s, step).log != s.log
    ensures !step.Check? && Apply(s, step).log != []
    ensures var s' := Apply(s, step);
      var w := s'.log[|s'.log| - 1];
      && s'.log == s.log + [w] && w.run in s'.runs && s'.runs == s.runs[w.run := s'.runs[w.run]]
      && w.to == s'.runs[w.run].status && w.version == s'.runs[w.run].version && s'.runs[w.run].updatedAt == At(step)
      && (w.run in s.runs ==> w.from == s.runs[w.run].status && (w.counted <==> !step.Write?))
      && (w.run in s.runs && w.counted ==>
            if step.Tick? then IsTicked(s.runs[w.run], s'.runs[w.run], step.orchestrator, At(step))
            else IsMoved(s.runs[w.run], s'.runs[w.run], w.to, At(step)))
      && (!w.counted ==> w.run in s.runs && IsBypassed(step.w, s.runs[w.run], s'.runs[w.run], At(step)))
      && (w.run !in s.runs ==> IsNew(step, s'.runs[w.run]))
  {
    match step
    case Create(_, _, _, _, _, _) =>
    case Commit(_, _) =>
    case Tick(r, o, at) => TickColumns(s.runs[r], o, at);
    case Watchdog(r, _, at) => MoveColumns(s.runs[r], TimeoutTarget(s.runs[r].status), at);
    case Write(w, r, at) => BypassColumns(w, s.runs[r], at);
  }

  predicate IsNew(step: Step, row: Run) {
    && step.Create? && row.ns == step.ns && row.item == step.item && row.attempt == step.attempt && row.epoch == step.epoch
    && row.orchestrator.None? && row.status == Unclaimed && row.version == 1 && row.startedAt.None? && row.completedAt.None?
    && row.updatedAt == step.at && row.createdAt == step.at
  }

  /** So a run that has been changed is not timed out before its limit has passed since, however the other
      runs go on meanwhile. */
  lemma ChangedRunsGetTheirTime(s: System, step: Step, more: seq<Step>, overrides: map<RunState, int>, t: int)
    requires Apply(s, step).log != s.log
    requires var s1 := Apply(s, step);
      var r := s1.log[|s1.log| - 1].run;
      && r in Exec(s1, more).runs && Exec(s1, more).runs[r] == s1.runs[r]
      && t - At(step) < 1000 * Limit(overrides, s1.runs[r].status)
    ensures var s1 := Apply(s, step);
      Apply(Exec(s1, more), Watchdog(s1.log[|s1.log| - 1].run, overrides, t)) == Exec(s1, more)
  {
    ChangeColumns(s, step);
  }

  /** Whatever the order of the statements, bypassing writers included, no two unfinished runs share work
      item and attempt; so the index can only refuse a new run or a revived one. */
  lemma {:induction false} IndexHolds(s: System, steps: seq<Step>)
    requires OneUnfinished(s.runs)
    ensures OneUnfinished(Exec(s, steps).runs)
  {
    if steps != [] {
      IndexHolds(s, steps[..|steps| - 1]);
      IndexStep(Exec(s, steps[..|steps| - 1]), steps[|steps| - 1]);
    }
  }

  lemma IndexStep(s: System, step: Step)
    requires OneUnfinished(s.runs)
    ensures OneUnfinished(Apply(s, step).runs)
  {
    if Apply(s, step).runs != s.runs {
      var r := WrittenRun(s, step);
      IndexKept(s.runs, r, Apply(s, step).runs[r]);
    }
  }

  /** The one run a step writes. */
  lemma WrittenRun(s: System, step: Step) returns (r: RunId)
    requires Apply(s, step).runs != s.runs
    ensures var runs := Apply(s, step).runs;
      && r in runs && runs == s.runs[r := runs[r]]
      && !IndexRefuses(s.runs, r, runs[r]) && (r in s.runs ==> SameAttempt(s.runs[r], runs[r]))
  {
    match step
    case Create(q, _, _, _, _, _) => r := q;
    case Commit(c, _) => r := s.pending[c].q.run;
    case Tick(q, _, _) => r := q;
    case Watchdog(q, _, _) => r := q;
    case Write(_, q, _) => r := q;
  }

  /** A caller whose checks passed in any state, then any steps, then its UPDATE. It loses if and only if
      someone has counted the version in between. Otherwise it starts from the status that the bypassing
      writers among those steps have left: its change follows the graph if and only if the target is an exit
      of that status, and it leaves a terminal state if and only if one of them cancelled the run or recovery
      found it terminating. It wins unless it revives the run beside another unfinished run of the same work
      item and attempt; then the unique index makes it throw. */
  lemma OvertakenCommit(s0: System, c: CallerId, q: Request, more: seq<Step>, at: int)
    requires c !in s0.pending && Judge(s0.runs, q).Proceed? && NoCommit(more, c)
    ensures
      var s1 := Exec(Apply(s0, Check(c, q)), more);
      var s2 := Apply(s1, Commit(c, at));
      var checked, ws := s0.runs[q.run].status, WritersOf(more, q.run);
      var left := BypassAll(checked, ws);
      var revives := left in TERMINAL_STATES && q.target !in TERMINAL_STATES;
      && q.run in s1.runs && (s1.runs[q.run].version == q.expected <==> Counted(s1.log, q.run) == Counted(s0.log, q.run))
      && (s1.runs[q.run].version != q.expected ==> s2.runs == s1.runs && s2.log == s1.log)
      && (s1.runs[q.run].version == q.expected && revives && HasRival(s1.runs, q.run, s1.runs[q.run]) ==>
            s2.runs == s1.runs && s2.log == s1.log)
      && (s1.runs[q.run].version == q.expected && !(revives && HasRival(s1.runs, q.run, s1.runs[q.run])) ==>
            && q.run in s2.runs && s2.runs[q.run].status == q.target
            && s2.log == s1.log + [Change(q.run, left, q.target, q.expected + 1, true, !Touched(checked, ws))])
      && (left in TERMINAL_STATES <==> Cancels(ws) || (checked == Terminating && Recover in ws))
      && (left in TERMINAL_STATES ==> !IsValidTransition(left, q.target))
      && (!Touched(checked, ws) ==> IsValidTransition(left, q.target))
  {
    JudgeMeaning(s0.runs, q);
    var s, checked, ws := Apply(s0, Check(c, q)), s0.runs[q.run].status, WritersOf(more, q.run);
    WaitingOn(s, c, q, checked, more);
    VersionIsCount(s, more, q.run);
    BypassesEndRun(checked, ws);
    UntouchedStays(checked, ws);
    TerminalIffNoExit(checked);
    TerminalIffNoExit(BypassAll(checked, ws));
    CommitWaiting(Exec(s, more), c, q, checked, ws, at);
  }

  /** The UPDATE of a caller that has waited. */
  lemma CommitWaiting(s: System, c: CallerId, q: Request, checked: RunState, ws: seq<Bypass>, at: int)
    requires Waiting(s, c, q, checked, ws)
    ensures
      var s' := Apply(s, Commit(c, at));
      var left := BypassAll(checked, ws);
      var refused := left in TERMINAL_STATES && q.target !in TERMINAL_STATES && HasRival(s.runs, q.run, s.runs[q.run]);
      if s.runs[q.run].version != q.expected || refused then s'.runs == s.runs && s'.log == s.log
      else q.run in s'.runs && s'.runs[q.run].status == q.target
           && s'.log == s.log + [Change(q.run, left, q.target, q.expected + 1, true, !Touched(checked, ws))]
  {
    SameRival(s.runs, q.run, s.runs[q.run], MoveRow(s.runs[q.run], q.target, at));
  }

  lemma SameRival(runs: Runs, r: RunId, a: Run, b: Run)
    requires SameAttempt(a, b)
    ensures HasRival(runs, r, a) <==> HasRival(runs, r, b)
  {
    assert forall q :: q in runs ==> (SameAttempt(runs[q], a) <==> SameAttempt(runs[q], b));
  }

  lemma {:induction false} UntouchedStays(status: RunState, ws: seq<Bypass>)
    ensures !Touched(status, ws) ==> BypassAll(status, ws) == status
  {
    if ws != [] { UntouchedStays(status, ws[..|ws| - 1]); }
  }

  // ------------------------------------------------ completed_at and the watchdog

  /** No statement clears completed_at, so a run that recovery has stamped is out of the watchdog's
      reach for good, whatever it is retried into later. */
  lemma {:induction false} StampedRunsEscapeWatchdog(s: System, steps: seq<Step>, r: RunId)
    requires r in s.runs && s.runs[r].completedAt.Some?
    ensures var s' := Exec(s, steps);
      && r in s'.runs && s'.runs[r].completedAt.Some?
      && forall overrides, at :: Apply(s', Watchdog(r, overrides, at)) == s'
  {
    if steps != [] { StampedRunsEscapeWatchdog(s, steps[..|steps| - 1], r); }
  }

  /** Any run that recovery fails or stalls, that is then retried through the API and provisioned
      again, sits in a state with a timeout that no watchdog step ever enforces. */
  lemma RecoveredRunHangs(s: System, r: RunId, c: CallerId, t: int)
    requires r in s.runs && c !in s.pending
    requires RecoveryTarget(s.runs[r].status) in {Some(Failed), Some(Stalled)}
    ensures var s1 := Apply(Apply(s, Write(Recover, r, t)), Write(RetryRoute, r, t));
      var s2 := Apply(Apply(s1, Check(c, Request(r, Provisioning, s.runs[r].version, None))), Commit(c, t));
      && r in s2.runs && s2.runs[r].status == Provisioning && StateTimeout(Provisioning) > 0
      && forall more, overrides, at ::
           Apply(Exec(s2, more), Watchdog(r, overrides, at)) == Exec(s2, more)
  {
    var s1 := Apply(Apply(s, Write(Recover, r, t)), Write(RetryRoute, r, t));
    RecoverThenRetry(s, r, t);
    RetryThenProvision(s1, r, c, s.runs[r].version, t);
    var s2 := Apply(Apply(s1, Check(c, Request(r, Provisioning, s.runs[r].version, None))), Commit(c, t));
    forall more, overrides, at ensures Apply(Exec(s2, more), Watchdog(r, overrides, at)) == Exec(s2, more) {
      StampedRunsEscapeWatchdog(s2, more, r);
    }
  }

  lemma RecoverThenRetry(s: System, r: RunId, t: int)
    requires r in s.runs && RecoveryTarget(s.runs[r].status) in {Some(Failed), Some(Stalled)}
    ensures
      var s1 := Apply(Apply(s, Write(Recover, r, t)), Write(RetryRoute, r, t));
      && r in s1.runs && s1.runs[r].status == RetryQueued && s1.runs[r].completedAt.Some?
      && s1.runs[r].version == s.runs[r].version && s1.pending.Keys == s.pending.Keys
  {
    var s0 := Apply(s, Write(Recover, r, t));
    assert s0.runs[r].status in {Failed, Stalled} && s0.pending.Keys == s.pending.Keys;
  }

  lemma RetryThenProvision(s1: System, r: RunId, c: CallerId, v: int, t: int)
    requires r in s1.runs && s1.runs[r].status == RetryQueued && s1.runs[r].completedAt.Some?
    requires s1.runs[r].version == v && c !in s1.pending
    ensures
      var s2 := Apply(Apply(s1, Check(c, Request(r, Provisioning, v, None))), Commit(c, t));
      r in s2.runs && s2.runs[r].status == Provisioning && s2.runs[r].completedAt.Some?
  {
  }
}
