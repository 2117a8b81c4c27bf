/** ProvisioningPipeline with its in-memory rollback stack and step results, next to the recorder's
    table and the log of everything that has happened outside. The recorder does not throw. */
module Pipeline {
  import opened PipelineModel

  datatype StepResult = StepResult(step: nat, status: Status)
  datatype RollbackResult = RollbackResult(step: nat, success: bool)
  datatype PipelineResult = PipelineResult(success: bool, cancelled: bool, steps: seq<StepResult>, rollbacks: seq<RollbackResult>)

  /** The first `n` steps, all completed, in pipeline order. */
  function CompletedUpTo(n: nat): seq<StepResult> {
    seq(n, i requires 0 <= i < n => StepResult(i, Completed))
  }

  /** The step results when an attempt ends. */
  function ResultsAt(end: End): seq<StepResult> {
    match end
    case Success => CompletedUpTo(STEPS)
    case CancelledAt(i) => CompletedUpTo(i)
    case FailedAt(i) => CompletedUpTo(i) + [StepResult(i, Failed)]
  }

  /** The step results are those of the first steps in order, all completed but for a failed last one. */
  ghost predicate Reports(steps: seq<StepResult>, end: End) {
    && (forall j :: 0 <= j < |steps| ==> steps[j].step == j)
    && (end.Success? ==> |steps| == STEPS && forall j :: 0 <= j < |steps| ==> steps[j].status == Completed)
    && (end.CancelledAt? ==> |steps| == end.step && forall j :: 0 <= j < |steps| ==> steps[j].status == Completed)
    && (end.FailedAt? ==>
          && |steps| == end.step + 1 && steps[end.step].status == Failed
          && forall j :: 0 <= j < end.step ==> steps[j].status == Completed)
  }

  /** The table agrees with every step result. */
  ghost predicate Agrees(table: Table, steps: seq<StepResult>) {
    forall j :: 0 <= j < |steps| ==> steps[j].step in table && table[steps[j].step] == steps[j].status
  }

  /** One result for each rollback action of the attempt, newest first. */
  ghost predicate ReportsRollbacks(env: Env, from: nat, results: seq<RollbackResult>) {
    var stack := Stack(Forward(env, from));
    |results| == |stack| && forall j :: 0 <= j < |stack| ==>
      results[j].step == stack[|stack| - 1 - j] && results[j].success == env.undoes(stack[|stack| - 1 - j])
  }

  /** What an attempt from step `from` answers, given the table it leaves. */
  ghost predicate Answers(env: Env, from: nat, table: Table, r: PipelineResult) {
    && (r.success <==> EndOf(env, from).Success?) && (r.cancelled <==> EndOf(env, from).CancelledAt?)
    && Reports(r.steps, EndOf(env, from)) && from <= |r.steps| && Agrees(table, r.steps)
    && (EndOf(env, from).FailedAt? ==> ReportsRollbacks(env, from, r.rollbacks))
    && (!EndOf(env, from).FailedAt? ==> r.rollbacks == [])
  }

  class ProvisioningPipeline {
    var rollbackActions: seq<nat>
    var stepResults: seq<StepResult>
    var table: Table
    ghost var log: seq<Effect>

    constructor (table: Table)
      ensures this.table == table && log == []
    {
      this.table := table;
      rollbackActions, stepResults, log := [], [], [];
    }

    /** execute: all steps from the first, whatever the table says. */
    method Execute(env: Env) returns (r: PipelineResult)
      modifies this
      ensures log == old(log) + Attempt(env, 0)
      ensures table == Record(old(table), Attempt(env, 0))
      ensures Answers(env, 0, table, r)
    {
      rollbackActions, stepResults := [], [];
      r := RunFrom(env, 0);
    }

    /** resume: from the first step the table does not have as completed. */
    method Resume(env: Env) returns (r: PipelineResult)
      modifies this
      ensures log == old(log) + Attempt(env, ResumeFrom(old(table)))
      ensures table == Record(old(table), Attempt(env, ResumeFrom(old(table))))
      ensures Answers(env, ResumeFrom(old(table)), table, r)
    {
      rollbackActions, stepResults := [], [];
      var from := 0;
      while from < STEPS && from in table && table[from] == Completed
        invariant from <= STEPS && stepResults == CompletedUpTo(from)
        invariant ResumeFrom(table) == FirstOpen(table, from)
        invariant forall j :: 0 <= j < from ==> j in table && table[j] == Completed
        invariant table == old(table) && log == old(log) && rollbackActions == []
      {
        stepResults := stepResults + [StepResult(from, Completed)];
        from := from + 1;
      }
      r := RunFrom(env, from);
    }

    /** What both share: the steps in order, then the rollback if they stopped early. */
    method RunFrom(env: Env, from: nat) returns (r: PipelineResult)
      requires from <= STEPS && rollbackActions == [] && stepResults == CompletedUpTo(from)
      requires forall j :: 0 <= j < from ==> j in table && table[j] == Completed
      modifies this
      ensures log == old(log) + Attempt(env, from)
      ensures table == Record(old(table), Attempt(env, from))
      ensures Answers(env, from, table, r)
    {
      var end := RunSteps(env, from);
      assert Forward(env, from) + [] == Forward(env, from);
      ResultsAgree(env, from, old(table));
      if end.Success? { return PipelineResult(true, false, stepResults, []); }
      var results := PerformRollback(env);
      AttemptEnds(env, from, old(table), old(log), Forward(env, from));
      r := PipelineResult(false, end.CancelledAt?, stepResults, if end.FailedAt? then results else []);
    }

    /** The loop: a cancellation check before each step, until the first cancellation or failure. */
    method RunSteps(env: Env, from: nat) returns (end: End)
      requires from <= STEPS && rollbackActions == [] && stepResults == CompletedUpTo(from)
      modifies this
      ensures end == EndOf(env, from)
      ensures log == old(log) + Forward(env, from)
      ensures table == Record(old(table), Forward(env, from))
      ensures rollbackActions == Stack(Forward(env, from))
      ensures stepResults == ResultsAt(end)
    {
      var i := from;
      ghost var done: seq<Effect> := [];
      assert log + done == log && done + Forward(env, from) == Forward(env, from);
      while i < STEPS
        invariant from <= i <= STEPS && stepResults == CompletedUpTo(i) && Reached(env, from, i, done)
        invariant Happened(old(table), old(log), done)
      {
        if env.cancelled(i) {
          CancelledHere(env, from, i, done);
          return CancelledAt(i);
        }
        var status;
        status, done := AddStep(env, from, i, old(table), old(log), done);
        if status == Failed { return FailedAt(i); }
        i := i + 1;
      }
      assert done + [] == done;
      end := Success;
    }

    /** One round of the loop. */
    method AddStep(env: Env, from: nat, i: nat, ghost table0: Table, ghost log0: seq<Effect>, ghost before: seq<Effect>)
      returns (status: Status, ghost done: seq<Effect>)
      requires Happened(table0, log0, before) && Reached(env, from, i, before) && i < STEPS && !env.cancelled(i)
      modifies this
      ensures Happened(table0, log0, done) && status in {Completed, Failed}
      ensures stepResults == old(stepResults) + [StepResult(i, status)]
      ensures status == Completed ==> Reached(env, from, i + 1, done)
      ensures status == Failed ==> Forward(env, from) == done && EndOf(env, from) == FailedAt(i)
    {
      status := ExecuteStep(env, i);
      stepResults := stepResults + [StepResult(i, status)];
      done := before + StepEffects(env, i);
      StackAppend(before, StepEffects(env, i));
      RecordAppend(table0, before, StepEffects(env, i));
      Associative(log0, before, StepEffects(env, i));
      StepReached(env, from, i, before, StepEffects(env, i));
    }

    /** What this attempt has done so far, on the table, in the log and on the rollback stack. */
    ghost predicate Happened(table0: Table, log0: seq<Effect>, done: seq<Effect>)
      reads this
    {
      log == log0 + done && table == Record(table0, done) && rollbackActions == Stack(done)
    }

    /** executeStep: record running, run, record the result. */
    method ExecuteStep(env: Env, i: nat) returns (status: Status)
      modifies this`rollbackActions, this`table, this`log
      ensures log == old(log) + StepEffects(env, i)
      ensures table == Record(old(table), StepEffects(env, i))
      ensures rollbackActions == old(rollbackActions) + Stack(StepEffects(env, i))
      ensures status == if env.behave(i).completes then Completed else Failed
    {
      StackOfStep(env, i);
      var running := Recorded(i, Running);
      table := table[i := Running];
      log := log + [running];
      var behaviour := env.behave(i);
      if behaviour.creates { log := log + [Created(i)]; }
      if behaviour.registers {
        rollbackActions := rollbackActions + [i];
        log := log + [Registered(i)];
      }
      assert log == old(log) + ([running] + Work(behaviour, i));
      status := if behaviour.completes then Completed else Failed;
      table := table[i := status];
      log := log + [Recorded(i, status)];
      StepTable(env, i, old(table), |StepEffects(env, i)|);
      assert StepEffects(env, i)[..|StepEffects(env, i)|] == StepEffects(env, i);
      assert log == old(log) + StepEffects(env, i);
    }

    /** performRollback: newest first, going on after an action that throws. */
    method PerformRollback(env: Env) returns (results: seq<RollbackResult>)
      modifies this`log
      ensures log == old(log) + Unwind(env, rollbackActions)
      ensures |results| == |rollbackActions|
      ensures forall j :: 0 <= j < |results| ==>
        results[j] == RollbackResult(rollbackActions[|results| - 1 - j], env.undoes(rollbackActions[|results| - 1 - j]))
    {
      results := [];
      var n := |rollbackActions|;
      ghost var whole := Unwind(env, rollbackActions);
      while n > 0
        invariant 0 <= n <= |rollbackActions| && |results| == |rollbackActions| - n
        invariant log == old(log) + whole[..|results|]
        invariant forall j :: 0 <= j < |results| ==>
          results[j] == RollbackResult(rollbackActions[|rollbackActions| - 1 - j], env.undoes(rollbackActions[|rollbackActions| - 1 - j]))
      {
        n := n - 1;
        var action := rollbackActions[n];
        var ok := env.undoes(action);
        log := log + [RolledBack(action, ok)];
        assert whole[..|results| + 1] == whole[..|results|] + [RolledBack(action, ok)];
        results := results + [RollbackResult(action, ok)];
      }
      assert whole[..|results|] == whole;
    }
  }

  lemma ResultsAgree(env: Env, from: nat, table: Table)
    requires from <= STEPS && forall j :: 0 <= j < from ==> j in table && table[j] == Completed
    ensures var steps := ResultsAt(EndOf(env, from));
      Reports(steps, EndOf(env, from)) && from <= |steps| && Agrees(Record(table, Forward(env, from)), steps)
  {
    var steps := ResultsAt(EndOf(env, from));
    EndIsLater(env, from);
    FinalTableIsRecord(env, from, table);
    forall j | 0 <= j < |steps| ensures j in FinalTable(env, from, table) && FinalTable(env, from, table)[j] == steps[j].status {
      StatusAtEnd(env, from, table, j);
    }
  }

  /** `done` are the effects of the steps from `from` up to `i`, none of which stopped the attempt. */
  ghost predicate Reached(env: Env, from: nat, i: nat, done: seq<Effect>) {
    Forward(env, from) == done + Forward(env, i) && EndOf(env, from) == EndOf(env, i)
  }

  lemma CancelledHere(env: Env, from: nat, i: nat, done: seq<Effect>)
    requires Reached(env, from, i, done) && i < STEPS && env.cancelled(i)
    ensures Forward(env, from) == done && EndOf(env, from) == CancelledAt(i)
  {
  }

  lemma StepReached(env: Env, from: nat, i: nat, done: seq<Effect>, e: seq<Effect>)
    requires Reached(env, from, i, done) && i < STEPS && !env.cancelled(i) && e == StepEffects(env, i)
    ensures env.behave(i).completes ==> Reached(env, from, i + 1, done + e)
    ensures !env.behave(i).completes ==> Forward(env, from) == done + e && EndOf(env, from) == FailedAt(i)
  {
    ForwardUnfold(env, i);
    Associative(done, e, Forward(env, i + 1));
  }

  lemma Associative(a: seq<Effect>, b: seq<Effect>, c: seq<Effect>)
    ensures a + b + c == a + (b + c)
  {
  }

  lemma AttemptEnds(env: Env, from: nat, t: Table, log: seq<Effect>, done: seq<Effect>)
    requires !EndOf(env, from).Success? && done == Forward(env, from)
    ensures log + done + Unwind(env, Stack(done)) == log + Attempt(env, from)
    ensures Record(t, Attempt(env, from)) == Record(t, done)
  {
    var u := Unwind(env, Stack(done));
    assert log + done + u == log + (done + u);
    RecordAppend(t, done, u);
    UnwindRecordsNothing(Record(t, done), env, Stack(done), |Stack(done)|);
    assert u[..|Stack(done)|] == u;
  }
}
