/** The claiming loop of the orchestrator (src/symphony-worker/run.ts): count, select and one guarded UPDATE
    per run are separate statements, interleaved with other orchestrators' ticks and all other writers. */
module TickCapacity {
  import opened Wrappers
  import opened RunStates
  import opened RunTable
  import opened Sets

  /** A tick after its count, with the slots it found, or in its loop over the selected runs. */
  datatype Tick = Counted(slots: nat) | Claiming(todo: seq<RunId>)

  datatype System = System(runs: Runs, ticks: map<string, Tick>)

  datatype Step =
    | Count(o: string, limit: nat)
    | Select(o: string, found: seq<RunId>)
    | ClaimNext(o: string, now: int)
    | Finish(o: string)                     // the loop is done, or a query threw
    | Write(run: RunId, row: Run)           // any other writer

  /** Runs the count query counts. */
  ghost function ActiveRuns(runs: Runs, ns: string, o: string): set<RunId> {
    set r | r in runs && runs[r].ns == ns && runs[r].orchestrator == Some(o) && runs[r].status !in TERMINAL_STATES
  }

  /** What other writers do: they create runs without an owner and never change the owner of a run. */
  predicate KeepsOwner(runs: Runs, r: RunId, row: Run) {
    if r !in runs then row.orchestrator.None? else row.ns == runs[r].ns && row.orchestrator == runs[r].orchestrator
  }

  /** A write that takes a run out of a terminal state. */
  predicate Revives(runs: Runs, r: RunId, row: Run) {
    r in runs && runs[r].status in TERMINAL_STATES && row.status !in TERMINAL_STATES
  }

  /** The rows of the select. */
  predicate Selectable(runs: Runs, ns: string, r: RunId) {
    r in runs && runs[r].ns == ns && TickClaims(runs[r])
  }

  ghost predicate Enabled(s: System, ns: string, step: Step) {
    match step
    case Count(o, _) => o !in s.ticks
    case Select(o, found) =>
      && o in s.ticks && s.ticks[o].Counted? && |found| <= s.ticks[o].slots
      && (forall r :: r in found ==> Selectable(s.runs, ns, r))
    case ClaimNext(o, _) => o in s.ticks && s.ticks[o].Claiming? && s.ticks[o].todo != []
    case Finish(o) => o in s.ticks
    case Write(r, row) => KeepsOwner(s.runs, r, row) && !IndexRefuses(s.runs, r, row)
  }

  ghost function Apply(s: System, ns: string, step: Step): System {
    if !Enabled(s, ns, step) then s
    else
      match step
      case Count(o, limit) =>
        var active := |ActiveRuns(s.runs, ns, o)|;
        if active < limit then s.(ticks := s.ticks[o := Counted(limit - active)]) else s
      case Select(o, found) => s.(ticks := s.ticks[o := Claiming(found)])
      case ClaimNext(o, now) =>
        var r := s.ticks[o].todo[0];
        var s' := s.(ticks := s.ticks[o := Claiming(s.ticks[o].todo[1..])]);
        if r in s.runs && TickClaims(s.runs[r]) then s'.(runs := s.runs[r := TickRow(s.runs[r], o, now)]) else s'
      case Finish(o) => s.(ticks := s.ticks - {o})
      case Write(r, row) => s.(runs := s.runs[r := row])
  }

  ghost function Exec(s: System, ns: string, steps: seq<Step>): System {
    if steps == [] then s else Apply(Exec(s, ns, steps[..|steps| - 1]), ns, steps[|steps| - 1])
  }

  /** Claims a tick may still make. */
  function Slots(ticks: map<string, Tick>, o: string): nat {
    if o !in ticks then 0
    else if ticks[o].Counted? then ticks[o].slots else |ticks[o].todo|
  }

  predicate Within(steps: seq<Step>, max: nat) {
    forall s :: s in steps && s.Count? ==> s.limit <= max
  }

  /** The runs that have been revived and not ended since. */
  ghost function Revived(s: System, ns: string, steps: seq<Step>): set<RunId> {
    if steps == [] then {}
    else
      var front, step := steps[..|steps| - 1], steps[|steps| - 1];
      RevivedAfter(Exec(s, ns, front), ns, Revived(s, ns, front), step)
  }

  ghost function RevivedAfter(s: System, ns: string, revived: set<RunId>, step: Step): set<RunId> {
    if !step.Write? || !Enabled(s, ns, step) then revived
    else if Revives(s.runs, step.run, step.row) then revived + {step.run}
    else if step.row.status in TERMINAL_STATES then revived - {step.run}
    else revived
  }

  /** Active runs that were not revived, plus the claims the tick may still make. */
  ghost predicate Fits(s: System, ns: string, o: string, max: nat, revived: set<RunId>) {
    |ActiveRuns(s.runs, ns, o) - revived| + Slots(s.ticks, o) <= max
  }

  lemma WriteKeepsActive(runs: Runs, ns: string, o: string, r: RunId, row: Run, revived: set<RunId>)
    requires KeepsOwner(runs, r, row)
    ensures
      var after := if Revives(runs, r, row) then revived + {r} else if row.status in TERMINAL_STATES then revived - {r} else revived;
      |ActiveRuns(runs[r := row], ns, o) - after| <= |ActiveRuns(runs, ns, o) - revived|
  {
    var after := if Revives(runs, r, row) then revived + {r} else if row.status in TERMINAL_STATES then revived - {r} else revived;
    SubsetSize(ActiveRuns(runs[r := row], ns, o) - after, ActiveRuns(runs, ns, o) - revived);
  }

  lemma ClaimAddsOne(runs: Runs, ns: string, o: string, p: string, r: RunId, now: int, revived: set<RunId>)
    requires r in runs && TickClaims(runs[r])
    ensures
      |ActiveRuns(runs[r := TickRow(runs[r], p, now)], ns, o) - revived|
      <= |ActiveRuns(runs, ns, o) - revived| + if o == p then 1 else 0
  {
    var before, after := ActiveRuns(runs, ns, o) - revived, ActiveRuns(runs[r := TickRow(runs[r], p, now)], ns, o) - revived;
    SubsetSize(after, if o == p then before + {r} else before);
  }

  lemma StepFits(s: System, ns: string, o: string, max: nat, revived: set<RunId>, step: Step)
    requires Fits(s, ns, o, max, revived) && (step.Count? ==> step.limit <= max)
    ensures Fits(Apply(s, ns, step), ns, o, max, RevivedAfter(s, ns, revived, step))
  {
    if Enabled(s, ns, step) {
      match step
      case Count(p, limit) => CountFits(s, ns, o, max, revived, p, limit);
      case ClaimNext(p, now) => ClaimFits(s, ns, o, max, revived, p, now);
      case Write(r, row) => WriteFits(s, ns, o, max, revived, r, row);
      case _ => QuietFits(s, ns, o, max, revived, step);
    }
  }

  lemma WriteFits(s: System, ns: string, o: string, max: nat, revived: set<RunId>, r: RunId, row: Run)
    requires Fits(s, ns, o, max, revived) && KeepsOwner(s.runs, r, row)
    ensures Fits(Apply(s, ns, Write(r, row)), ns, o, max, RevivedAfter(s, ns, revived, Write(r, row)))
  {
    WriteKeepsActive(s.runs, ns, o, r, row, revived);
  }

  lemma QuietFits(s: System, ns: string, o: string, max: nat, revived: set<RunId>, step: Step)
    requires Fits(s, ns, o, max, revived) && (step.Select? || step.Finish?)
    ensures Fits(Apply(s, ns, step), ns, o, max, revived)
  {
    assert Apply(s, ns, step).runs == s.runs;
  }

  lemma CountFits(s: System, ns: string, o: string, max: nat, revived: set<RunId>, p: string, limit: nat)
    requires Fits(s, ns, o, max, revived) && p !in s.ticks && limit <= max
    ensures Fits(Apply(s, ns, Count(p, limit)), ns, o, max, revived)
  {
    SubsetSize(ActiveRuns(s.runs, ns, o) - revived, ActiveRuns(s.runs, ns, o));
  }

  lemma ClaimFits(s: System, ns: string, o: string, max: nat, revived: set<RunId>, p: string, now: int)
    requires Fits(s, ns, o, max, revived) && p in s.ticks && s.ticks[p].Claiming? && s.ticks[p].todo != []
    ensures Fits(Apply(s, ns, ClaimNext(p, now)), ns, o, max, revived)
  {
    var r := s.ticks[p].todo[0];
    var s1 := Apply(s, ns, ClaimNext(p, now));
    assert Slots(s1.ticks, o) == Slots(s.ticks, o) - if o == p then 1 else 0;
    if r in s.runs && TickClaims(s.runs[r]) {
      ClaimAddsOne(s.runs, ns, o, p, r, now, revived);
    } else {
      assert s1.runs == s.runs;
    }
  }

  /** Whatever interleaves, overtaken transitions included: an orchestrator's active runs plus the claims its
      tick may still make exceed the limit its ticks read by at most the number of its revived runs. */
  lemma {:induction false} CapacityKept(s: System, ns: string, steps: seq<Step>, o: string, max: nat)
    requires o !in s.ticks && |ActiveRuns(s.runs, ns, o)| <= max && Within(steps, max)
    ensures
      var end, revived := Exec(s, ns, steps), Revived(s, ns, steps);
      && Fits(end, ns, o, max, revived)
      && |ActiveRuns(end.runs, ns, o)| + Slots(end.ticks, o) <= max + |ActiveRuns(end.runs, ns, o) * revived|
  {
    if steps == [] {
      assert ActiveRuns(s.runs, ns, o) - {} == ActiveRuns(s.runs, ns, o);
    } else {
      var front, step := steps[..|steps| - 1], steps[|steps| - 1];
      assert step in steps;
      CapacityKept(s, ns, front, o, max);
      StepFits(Exec(s, ns, front), ns, o, max, Revived(s, ns, front), step);
    }
    Split(ActiveRuns(Exec(s, ns, steps).runs, ns, o), Revived(s, ns, steps));
  }

  lemma Split(a: set<RunId>, b: set<RunId>)
    ensures |a| == |a - b| + |a * b|
  {
    assert a == (a - b) + (a * b);
  }

  /** Only a revival adds an active run without a claim, and it adds exactly one. */
  lemma RevivalAddsOne(runs: Runs, ns: string, o: string, r: RunId, row: Run)
    requires r in runs && KeepsOwner(runs, r, row) && runs[r].ns == ns && runs[r].orchestrator == Some(o)
    ensures |ActiveRuns(runs[r := row], ns, o)| > |ActiveRuns(runs, ns, o)| <==> Revives(runs, r, row)
    ensures Revives(runs, r, row) ==> |ActiveRuns(runs[r := row], ns, o)| == |ActiveRuns(runs, ns, o)| + 1
  {
    var before, after := ActiveRuns(runs, ns, o), ActiveRuns(runs[r := row], ns, o);
    if Revives(runs, r, row) { assert after == before + {r}; } else { SubsetSize(after, before); }
  }

  /** The limit is overrun when a tick fills the place of a cancelled run and the cancelled run's overtaken
      `transition` (RunProtocol.OvertakenCommit) then commits: for every limit and every way to be at it. */
  lemma Overrun(s: System, ns: string, o: string, a: RunId, b: RunId, target: RunState, now: int) returns (steps: seq<Step>)
    requires o !in s.ticks && a in s.runs && s.runs[a].ns == ns && s.runs[a].orchestrator == Some(o)
    requires s.runs[a].status !in TERMINAL_STATES && target !in TERMINAL_STATES
    requires Selectable(s.runs, ns, b) && OneUnfinished(s.runs)
    ensures Within(steps, |ActiveRuns(s.runs, ns, o)|)
    ensures |ActiveRuns(Exec(s, ns, steps).runs, ns, o)| == |ActiveRuns(s.runs, ns, o)| + 1
    ensures Revived(s, ns, steps) == {a}
  {
    var front := CancelAndRefill(s, ns, o, a, b, now);
    var s1 := Exec(s, ns, front);
    var row := MoveRow(s1.runs[a], target, now);
    NoRivalLater(s.runs, a, b, s1.runs, row);
    var s2 := Do(s, ns, front, Write(a, row));
    RevivalAddsOne(s1.runs, ns, o, a, row);
    steps := front + [Write(a, row)];
  }

  /** A run is cancelled, and a whole tick at the limit claims another in its place. */
  lemma CancelAndRefill(s: System, ns: string, o: string, a: RunId, b: RunId, now: int) returns (steps: seq<Step>)
    requires o !in s.ticks && a in s.runs && s.runs[a].ns == ns && s.runs[a].orchestrator == Some(o)
    requires Unfinished(s.runs[a]) && Selectable(s.runs, ns, b)
    ensures Within(steps, |ActiveRuns(s.runs, ns, o)|) && Revived(s, ns, steps) == {}
    ensures
      var runs := Exec(s, ns, steps).runs;
      && runs == s.runs[a := BypassRow(CancelRoute, s.runs[a], now)][b := TickRow(s.runs[b], o, now)]
      && |ActiveRuns(runs, ns, o)| == |ActiveRuns(s.runs, ns, o)|
  {
    var limit := |ActiveRuns(s.runs, ns, o)|;
    var cancel := Write(a, BypassRow(CancelRoute, s.runs[a], now));
    var s1 := Do(s, ns, [], cancel);
    CancelFreesPlace(s, ns, o, a, now);
    var s2 := Do(s, ns, [] + [cancel], Count(o, limit));
    var s3 := Do(s, ns, [] + [cancel] + [Count(o, limit)], Select(o, [b]));
    var s4 := Do(s, ns, [] + [cancel] + [Count(o, limit)] + [Select(o, [b])], ClaimNext(o, now));
    FillsPlace(s1, ns, o, b, limit, now);
    steps := [] + [cancel] + [Count(o, limit)] + [Select(o, [b])] + [ClaimNext(o, now)];
  }

  /** What was unfinished has no rival when it comes back, unless other runs have become unfinished. */
  lemma NoRivalLater(runs: Runs, a: RunId, b: RunId, later: Runs, row: Run)
    requires OneUnfinished(runs) && a in runs && Unfinished(runs[a]) && SameAttempt(runs[a], row)
    requires b in runs && Unfinished(runs[b]) && b in later && SameAttempt(runs[b], later[b])
    requires forall q :: q in later && q != a && q != b ==> q in runs && later[q] == runs[q]
    ensures !HasRival(later, a, row)
  {
  }

  lemma CancelFreesPlace(s: System, ns: string, o: string, a: RunId, now: int)
    requires a in s.runs && s.runs[a].ns == ns && s.runs[a].orchestrator == Some(o) && s.runs[a].status !in TERMINAL_STATES
    ensures
      var runs := s.runs[a := BypassRow(CancelRoute, s.runs[a], now)];
      |ActiveRuns(runs, ns, o)| == |ActiveRuns(s.runs, ns, o)| - 1 && runs[a].status in TERMINAL_STATES
  {
    var runs := s.runs[a := BypassRow(CancelRoute, s.runs[a], now)];
    assert ActiveRuns(s.runs, ns, o) == ActiveRuns(runs, ns, o) + {a} && a !in ActiveRuns(runs, ns, o);
  }

  /** A tick run alone with one place free and one run selected. */
  lemma FillsPlace(s: System, ns: string, o: string, b: RunId, limit: nat, now: int)
    requires o !in s.ticks && |ActiveRuns(s.runs, ns, o)| == limit - 1 && Selectable(s.runs, ns, b)
    ensures
      var end := Apply(Apply(Apply(s, ns, Count(o, limit)), ns, Select(o, [b])), ns, ClaimNext(o, now));
      end.runs == s.runs[b := TickRow(s.runs[b], o, now)] && |ActiveRuns(end.runs, ns, o)| == limit
  {
    var s1 := Apply(s, ns, Count(o, limit));
    assert s1.ticks[o] == Counted(1) && s1.runs == s.runs;
    var s2 := Apply(s1, ns, Select(o, [b]));
    assert s2.ticks[o] == Claiming([b]) && s2.runs == s.runs;
    ClaimCounts(s.runs, ns, o, b, now);
  }

  /** One more step of a run. */
  lemma Do(s: System, ns: string, steps: seq<Step>, step: Step) returns (after: System)
    ensures after == Apply(Exec(s, ns, steps), ns, step) == Exec(s, ns, steps + [step])
    ensures Revived(s, ns, steps + [step]) == RevivedAfter(Exec(s, ns, steps), ns, Revived(s, ns, steps), step)
    ensures Exec(s, ns, []) == s && Revived(s, ns, []) == {}
  {
    assert (steps + [step])[..|steps|] == steps;
    after := Exec(s, ns, steps + [step]);
  }

  /** A run is claimed by a tick at most once in its life: nothing ever clears its owner. */
  lemma {:induction false} OwnerIsForGood(s: System, ns: string, steps: seq<Step>, r: RunId)
    requires r in s.runs && s.runs[r].orchestrator.Some?
    ensures r in Exec(s, ns, steps).runs && Exec(s, ns, steps).runs[r].orchestrator == s.runs[r].orchestrator
    ensures !TickClaims(Exec(s, ns, steps).runs[r])
  {
    if steps != [] { OwnerIsForGood(s, ns, steps[..|steps| - 1], r); }
  }

  /** Every `transition`, overtaken or not, and every bypassing writer keeps the owner; an edge of the graph
      or a bypassing writer never revives, so only an overtaken `transition` can. */
  lemma OtherWritersKeepOwner(runs: Runs, r: RunId, target: RunState, w: Bypass, now: int)
    requires r in runs
    ensures KeepsOwner(runs, r, MoveRow(runs[r], target, now))
    ensures IsValidTransition(runs[r].status, target) ==> !Revives(runs, r, MoveRow(runs[r], target, now))
    ensures BypassTarget(w, runs[r].status).Some? ==>
      KeepsOwner(runs, r, BypassRow(w, runs[r], now)) && !Revives(runs, r, BypassRow(w, runs[r], now))
  {
    TerminalIffNoExit(runs[r].status);
  }

  // ---------------------------------------------------------------- the tick flags of one process

  /** `immediates`: setImmediate callbacks still to run. `unheard`: a wake-up since the last tick began that
      was not dropped (an auxiliary variable). */
  datatype Flags = Flags(shuttingDown: bool, scheduled: bool, inFlight: bool, immediates: nat, unheard: bool, started: nat)

  datatype Event = WakeUp | Immediate | Fallback | TickDone | ShutDown

  const IDLE: Flags := Flags(false, false, false, 0, false, 0)

  function BeginTick(f: Flags): Flags {
    if f.shuttingDown || f.inFlight then f else f.(inFlight := true, unheard := false, started := f.started + 1)
  }

  function React(f: Flags, e: Event): Flags {
    match e
    case WakeUp =>
      if f.shuttingDown || f.inFlight then f
      else if f.scheduled then f.(unheard := true)
      else f.(scheduled := true, immediates := f.immediates + 1, unheard := true)
    case Immediate => if f.immediates == 0 then f else BeginTick(f.(scheduled := false, immediates := f.immediates - 1))
    case Fallback => BeginTick(f)
    case TickDone => f.(inFlight := false)
    case ShutDown => f.(shuttingDown := true)
  }

  function Reacted(events: seq<Event>): Flags {
    if events == [] then IDLE else React(Reacted(events[..|events| - 1]), events[|events| - 1])
  }

  /** At most one callback is scheduled, and a wake-up that comes while no tick is in flight is followed by
      the beginning of a tick: until then a callback is scheduled for it. */
  lemma {:induction false} WakeUpsAreHeard(events: seq<Event>)
    ensures
      var f := Reacted(events);
      && f.immediates == (if f.scheduled then 1 else 0)
      && (f.unheard && !f.shuttingDown ==> f.scheduled && !f.inFlight && React(f, Immediate).started == f.started + 1)
  {
    if events != [] { WakeUpsAreHeard(events[..|events| - 1]); }
  }

  /** A callback that runs before the tick is done is used up by it; the first one that runs after it is not. */
  predicate RunsAfterTick(events: seq<Event>) {
    events != [] &&
    var front := events[..|events| - 1];
    RunsAfterTick(front) || (events[|events| - 1] == Immediate && Immediate !in front && TickDone in front)
  }

  /** A wake-up during a tick changes nothing. Without a fallback or another wake-up one tick follows it if a
      callback had been scheduled before, which then runs after the present tick; otherwise none does. */
  lemma {:induction false} WakeUpDuringTickIsDropped(f: Flags, events: seq<Event>)
    requires f.inFlight && f.immediates <= 1
    requires forall e :: e in events ==> e == TickDone || e == Immediate
    ensures React(f, WakeUp) == f
    ensures ReactAll(f, events).started ==
      f.started + if f.immediates == 1 && !f.shuttingDown && RunsAfterTick(events) then 1 else 0
    ensures ReactAll(f, events).immediates == if Immediate in events then 0 else f.immediates
    ensures ReactAll(f, events).shuttingDown == f.shuttingDown
    ensures Immediate !in events ==> (ReactAll(f, events).inFlight <==> TickDone !in events)
  {
    if events != [] {
      var front := events[..|events| - 1];
      assert events[|events| - 1] in events && forall e :: e in front ==> e in events;
      WakeUpDuringTickIsDropped(f, front);
      assert events == front + [events[|events| - 1]];
      NoneAfter(front);
    }
  }

  lemma {:induction false} NoneAfter(events: seq<Event>)
    ensures RunsAfterTick(events) ==> Immediate in events
  {
    if events != [] {
      assert forall e :: e in events[..|events| - 1] ==> e in events;
      NoneAfter(events[..|events| - 1]);
    }
  }

  function ReactAll(f: Flags, events: seq<Event>): Flags {
    if events == [] then f else React(ReactAll(f, events[..|events| - 1]), events[|events| - 1])
  }

  // ---------------------------------------------------------------- one process

  /** All runs the select can return, each once, oldest first. */
  ghost predicate IsQueue(runs: Runs, ns: string, queue: seq<RunId>) {
    && (forall i :: 0 <= i < |queue| ==> Selectable(runs, ns, queue[i]))
    && (forall r :: r in runs && Selectable(runs, ns, r) ==> r in queue)
    && (forall i, j :: 0 <= i < j < |queue| ==> queue[i] != queue[j])
    && (forall i, j :: 0 <= i < j < |queue| ==> runs[queue[i]].createdAt <= runs[queue[j]].createdAt)
  }

  function SlotsTaken(limit: nat, active: nat, waiting: nat): nat {
    if active >= limit then 0 else if waiting <= limit - active then waiting else limit - active
  }

  /** A row after a tick that claims the first `n` of the queue. */
  function TickedRow(row: Run, claimed: bool, o: string, now: int): Run {
    if claimed then TickRow(row, o, now) else row
  }

  lemma ClaimCounts(runs: Runs, ns: string, o: string, r: RunId, now: int)
    requires Selectable(runs, ns, r)
    ensures ActiveRuns(runs[r := TickRow(runs[r], o, now)], ns, o) == ActiveRuns(runs, ns, o) + {r}
    ensures r !in ActiveRuns(runs, ns, o)
  {
  }

  class SymphonyWorker {
    const orchestrator: string
    var runs: Runs
    var shuttingDown: bool
    var tickScheduled: bool
    var tickInFlight: bool
    var activeRunsCount: nat
    var ticksTotal: nat

    constructor (orchestrator: string, runs: Runs)
      ensures this.orchestrator == orchestrator && this.runs == runs
      ensures !shuttingDown && !tickScheduled && !tickInFlight && ticksTotal == 0
    {
      this.orchestrator, this.runs := orchestrator, runs;
      shuttingDown, tickScheduled, tickInFlight, activeRunsCount, ticksTotal := false, false, false, 0, 0;
    }

    /** scheduleTick: whether a callback is to be scheduled. */
    method ScheduleTick() returns (schedule: bool)
      modifies this`tickScheduled
      ensures schedule <==> !shuttingDown && !tickInFlight && !old(tickScheduled)
      ensures tickScheduled == (old(tickScheduled) || schedule)
    {
      schedule := !(shuttingDown || tickScheduled || tickInFlight);
      if schedule { tickScheduled := true; }
    }

    /** tick with nothing in between: it claims the oldest waiting runs, as many as the limit leaves room
        for, and its counter is then the number of its active runs. A second tick does nothing. */
    method Tick(ns: string, limit: nat, queue: seq<RunId>, now: int)
      requires IsQueue(runs, ns, queue)
      modifies this
      ensures tickScheduled == old(tickScheduled) && shuttingDown == old(shuttingDown) && tickInFlight == old(tickInFlight)
      ensures old(shuttingDown) || old(tickInFlight) ==>
        runs == old(runs) && ticksTotal == old(ticksTotal) && activeRunsCount == old(activeRunsCount)
      ensures !old(shuttingDown) && !old(tickInFlight) ==>
        && ticksTotal == old(ticksTotal) + 1
        && activeRunsCount == |ActiveRuns(runs, ns, orchestrator)|
        && ClaimedFrom(old(runs), runs, queue, SlotsTaken(limit, |ActiveRuns(old(runs), ns, orchestrator)|, |queue|), orchestrator, now)
    {
      if shuttingDown || tickInFlight { return; }
      tickInFlight := true;
      activeRunsCount := CountActive(ns);
      if activeRunsCount < limit {
        var slots := limit - activeRunsCount;
        ClaimAll(ns, if |queue| <= slots then queue else queue[..slots], queue, now);
      }
      ticksTotal := ticksTotal + 1;
      tickInFlight := false;
    }

    method CountActive(ns: string) returns (n: nat)
      ensures n == |ActiveRuns(runs, ns, orchestrator)|
    {
      var active := set r | r in runs && runs[r].ns == ns && runs[r].orchestrator == Some(orchestrator) && runs[r].status !in TERMINAL_STATES;
      assert active == ActiveRuns(runs, ns, orchestrator);
      n := |active|;
    }

    /** The loop over the selected runs. */
    method ClaimAll(ns: string, found: seq<RunId>, ghost queue: seq<RunId>, now: int)
      requires IsQueue(runs, ns, queue) && found <= queue
      requires activeRunsCount == |ActiveRuns(runs, ns, orchestrator)|
      modifies this`runs, this`activeRunsCount
      ensures ClaimedFrom(old(runs), runs, queue, |found|, orchestrator, now)
      ensures activeRunsCount == |ActiveRuns(runs, ns, orchestrator)| == old(activeRunsCount) + |found|
    {
      for n := 0 to |found|
        invariant ClaimedFrom(old(runs), runs, queue, n, orchestrator, now)
        invariant activeRunsCount == |ActiveRuns(runs, ns, orchestrator)| == old(activeRunsCount) + n
      {
        assert found[n] == queue[n];
        ClaimNth(ns, old(runs), found[n], queue, n, now);
      }
    }

    method ClaimNth(ns: string, ghost before: Runs, r: RunId, ghost queue: seq<RunId>, ghost n: nat, now: int)
      requires IsQueue(before, ns, queue) && n < |queue| && queue[n] == r && ClaimedFrom(before, runs, queue, n, orchestrator, now)
      modifies this`runs, this`activeRunsCount
      ensures ClaimedFrom(before, runs, queue, n + 1, orchestrator, now)
      ensures activeRunsCount == old(activeRunsCount) + 1
      ensures |ActiveRuns(runs, ns, orchestrator)| == |ActiveRuns(old(runs), ns, orchestrator)| + 1
    {
      ClaimOneMore(before, runs, ns, queue, n, orchestrator, now);
      ClaimCounts(runs, ns, orchestrator, r, now);
      var hit := ClaimRow(r, now);
      if hit { activeRunsCount := activeRunsCount + 1; }
    }

    /** The guarded UPDATE. */
    method ClaimRow(r: RunId, now: int) returns (hit: bool)
      modifies this`runs
      ensures hit <==> r in old(runs) && TickClaims(old(runs)[r])
      ensures runs == if hit then old(runs)[r := TickRow(old(runs)[r], orchestrator, now)] else old(runs)
      ensures hit <==> r in old(runs) && old(runs)[r].status == Unclaimed && old(runs)[r].orchestrator.None?
      ensures hit ==> IsTicked(old(runs)[r], runs[r], orchestrator, now)
    {
      hit := r in runs && TickClaims(runs[r]);
      if hit { runs := runs[r := TickRow(runs[r], orchestrator, now)]; }
    }
  }

  /** The first `n` runs of the queue have been claimed, every other run is as it was. */
  ghost predicate ClaimedFrom(before: Runs, after: Runs, queue: seq<RunId>, n: nat, o: string, now: int) {
    && after.Keys == before.Keys && n <= |queue|
    && (forall i :: 0 <= i < |queue| ==> queue[i] in before)
    && (forall i :: 0 <= i < |queue| ==> after[queue[i]] == TickedRow(before[queue[i]], i < n, o, now))
    && (forall r :: r in before && r !in queue ==> after[r] == before[r])
  }

  lemma ClaimOneMore(before: Runs, mid: Runs, ns: string, queue: seq<RunId>, n: nat, o: string, now: int)
    requires IsQueue(before, ns, queue) && n < |queue| && ClaimedFrom(before, mid, queue, n, o, now)
    ensures Selectable(mid, ns, queue[n])
    ensures ClaimedFrom(before, mid[queue[n] := TickRow(mid[queue[n]], o, now)], queue, n + 1, o, now)
  {
    assert queue[n] in queue;
  }
}
