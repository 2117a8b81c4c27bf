/** The provisioning pipeline (src/symphony/provisioning.ts) as the sequence of effects an attempt has
    on the outside: status records, resources created, rollback actions registered, and rollbacks. Between
    any two effects there is an await, so a crash can leave any prefix of them.

    Steps are numbered in pipeline order: 0 disk_check, 1 ssh_connect, 2 repo_check, 3 env_sync,
    4 devcontainer_up, 5 container_exec, 6 agent_verify, 7 worktree_setup. */
module PipelineModel {

  const STEPS: nat := 8
  const SSH_CONNECT: nat := 1

  datatype Status = Running | Completed | Failed

  /** What one step does: whether it creates a resource, whether it then registers a rollback action, and
      whether it ends completed. */
  datatype Behaviour = Behaviour(creates: bool, registers: bool, completes: bool)

  /** The answers an attempt gets from outside: cancellation checks, steps and rollback actions. */
  datatype Env = Env(cancelled: nat -> bool, behave: nat -> Behaviour, undoes: nat -> bool)

  datatype Effect =
    | Recorded(step: nat, status: Status)
    | Created(step: nat)
    | Registered(step: nat)
    | RolledBack(step: nat, ok: bool)

  type Table = map<nat, Status>

  datatype End = Success | FailedAt(step: nat) | CancelledAt(step: nat)

  /** The effects of one step. */
  function StepEffects(env: Env, i: nat): seq<Effect> {
    [Recorded(i, Running)] + Work(env.behave(i), i) + [Recorded(i, if env.behave(i).completes then Completed else Failed)]
  }

  function Work(b: Behaviour, i: nat): seq<Effect> {
    (if b.creates then [Created(i)] else []) + (if b.registers then [Registered(i)] else [])
  }

  /** The effects of the steps from `i` on, up to the first cancellation or failure. */
  function Forward(env: Env, i: nat): seq<Effect>
    decreases STEPS - i
  {
    if i >= STEPS || env.cancelled(i) then []
    else StepEffects(env, i) + if env.behave(i).completes then Forward(env, i + 1) else []
  }

  function EndOf(env: Env, i: nat): End
    decreases STEPS - i
  {
    if i >= STEPS then Success
    else if env.cancelled(i) then CancelledAt(i)
    else if env.behave(i).completes then EndOf(env, i + 1) else FailedAt(i)
  }

  /** The steps that have registered a rollback action, in order. */
  function Stack(effects: seq<Effect>): seq<nat> {
    if effects == [] then []
    else
      var e := effects[|effects| - 1];
      Stack(effects[..|effects| - 1]) + if e.Registered? then [e.step] else []
  }

  /** Rolling back a stack: last registered first, going on after errors. */
  function Unwind(env: Env, stack: seq<nat>): seq<Effect> {
    seq(|stack|, i requires 0 <= i < |stack| =>
      RolledBack(stack[|stack| - 1 - i], env.undoes(stack[|stack| - 1 - i])))
  }

  /** A whole attempt that starts at step `i`. */
  function Attempt(env: Env, i: nat): seq<Effect> {
    Forward(env, i) + Aftermath(env, i)
  }

  function Aftermath(env: Env, i: nat): seq<Effect> {
    if EndOf(env, i).Success? then [] else Unwind(env, Stack(Forward(env, i)))
  }

  /** The status table after some effects. */
  function Record(t: Table, effects: seq<Effect>): Table {
    if effects == [] then t
    else
      var e, before := effects[|effects| - 1], Record(t, effects[..|effects| - 1]);
      if e.Recorded? then before[e.step := e.status] else before
  }

  /** The registered resources that are there after some effects. */
  function Resources(live: set<nat>, effects: seq<Effect>): set<nat> {
    if effects == [] then live
    else
      var e, before := effects[|effects| - 1], Resources(live, effects[..|effects| - 1]);
      match e
      case Registered(s) => before + {s}
      case RolledBack(s, ok) => if ok then before - {s} else before
      case _ => before
  }

  /** All resources that are there after some effects, registered or not. */
  function Existing(live: set<nat>, effects: seq<Effect>): set<nat> {
    if effects == [] then live
    else
      var e, before := effects[|effects| - 1], Existing(live, effects[..|effects| - 1]);
      match e
      case Created(s) => before + {s}
      case RolledBack(s, ok) => if ok then before - {s} else before
      case _ => before
  }

  /** The first step that is not recorded completed. */
  function ResumeFrom(t: Table): (k: nat)
    ensures k <= STEPS && (forall i :: 0 <= i < k ==> i in t && t[i] == Completed)
    ensures k < STEPS ==> k !in t || t[k] != Completed
  {
    FirstOpen(t, 0)
  }

  function FirstOpen(t: Table, i: nat): (k: nat)
    requires i <= STEPS
    ensures i <= k <= STEPS && (forall j :: i <= j < k ==> j in t && t[j] == Completed)
    ensures k < STEPS ==> k !in t || t[k] != Completed
    decreases STEPS - i
  {
    if i < STEPS && i in t && t[i] == Completed then FirstOpen(t, i + 1) else i
  }

  /** One step of Forward, as a fact. */
  lemma ForwardUnfold(env: Env, i: nat)
    ensures i >= STEPS || env.cancelled(i) ==> Forward(env, i) == []
    ensures i < STEPS && !env.cancelled(i) && env.behave(i).completes ==>
      Forward(env, i) == StepEffects(env, i) + Forward(env, i + 1)
    ensures i < STEPS && !env.cancelled(i) && !env.behave(i).completes ==> Forward(env, i) == StepEffects(env, i)
  {
    assert StepEffects(env, i) + [] == StepEffects(env, i);
  }

  lemma {:induction false} EndIsLater(env: Env, i: nat)
    ensures !EndOf(env, i).Success? ==> i <= EndOf(env, i).step < STEPS
    decreases STEPS - i
  {
    if i < STEPS && !env.cancelled(i) && env.behave(i).completes { EndIsLater(env, i + 1); }
  }

  // ---------------------------------------------------------------- appending

  lemma {:induction false} RecordAppend(t: Table, a: seq<Effect>, b: seq<Effect>)
    ensures Record(t, a + b) == Record(Record(t, a), b)
  {
    if b == [] {
      assert a + b == a;
    } else {
      RecordAppend(t, a, b[..|b| - 1]);
      assert (a + b)[..|a + b| - 1] == a + b[..|b| - 1];
    }
  }

  lemma {:induction false} ResourcesAppend(live: set<nat>, a: seq<Effect>, b: seq<Effect>)
    ensures Resources(live, a + b) == Resources(Resources(live, a), b)
  {
    if b == [] {
      assert a + b == a;
    } else {
      ResourcesAppend(live, a, b[..|b| - 1]);
      assert (a + b)[..|a + b| - 1] == a + b[..|b| - 1];
    }
  }

  lemma {:induction false} StackAppend(a: seq<Effect>, b: seq<Effect>)
    ensures Stack(a + b) == Stack(a) + Stack(b)
  {
    if b == [] {
      assert a + b == a;
    } else {
      StackAppend(a, b[..|b| - 1]);
      assert (a + b)[..|a + b| - 1] == a + b[..|b| - 1];
    }
  }

  // ---------------------------------------------------------------- crash and resume

  /** Steps below `k` are completed, step `k` may be running or failed, later steps are unrecorded. */
  ghost predicate PrefixAt(t: Table, k: nat) {
    && k <= STEPS
    && (forall i :: 0 <= i < k ==> i in t && t[i] == Completed)
    && (k in t ==> k < STEPS && t[k] != Completed)
    && (forall i :: i in t ==> i <= k)
  }

  lemma ResumeAtPrefix(t: Table, k: nat)
    requires PrefixAt(t, k)
    ensures ResumeFrom(t) == k
  {
  }

  lemma StepPrefix(env: Env, i: nat, t: Table, n: nat)
    requires i < STEPS && PrefixAt(t, i) && n <= |StepEffects(env, i)|
    ensures n < |StepEffects(env, i)| ==> PrefixAt(Record(t, StepEffects(env, i)[..n]), i)
    ensures n == |StepEffects(env, i)| ==>
      PrefixAt(Record(t, StepEffects(env, i)), if env.behave(i).completes then i + 1 else i)
  {
    StepTable(env, i, t, n);
    StepTable(env, i, t, |StepEffects(env, i)|);
    assert StepEffects(env, i)[..|StepEffects(env, i)|] == StepEffects(env, i);
  }

  /** The status of a step after some of its effects. */
  lemma StepTable(env: Env, i: nat, t: Table, n: nat)
    requires n <= |StepEffects(env, i)|
    ensures Record(t, StepEffects(env, i)[..n]) ==
      if n == 0 then t
      else t[i := if n < |StepEffects(env, i)| then Running else if env.behave(i).completes then Completed else Failed]
  {
    TableOf(Recorded(i, Running), Work(env.behave(i), i),
            Recorded(i, if env.behave(i).completes then Completed else Failed), t, n);
  }

  lemma TableOf(run: Effect, w: seq<Effect>, last: Effect, t: Table, n: nat)
    requires run.Recorded? && last.Recorded? && run.step == last.step && n <= |w| + 2
    requires forall x :: x in w ==> !x.Recorded?
    ensures Record(t, ([run] + w + [last])[..n]) ==
      if n == 0 then t else t[run.step := if n < |w| + 2 then run.status else last.status]
  {
    var e := [run] + w + [last];
    RecordPush(t, [], run);
    assert [] + [run] == [run];
    if n == |w| + 2 {
      RecordWork(t, [run], w);
      RecordPush(t, [run] + w, last);
      assert e[..n] == [run] + w + [last];
    } else if n > 0 {
      RecordWork(t, [run], w[..n - 1]);
      assert e[..n] == [run] + w[..n - 1];
    }
  }

  lemma {:induction false} RecordWork(t: Table, a: seq<Effect>, w: seq<Effect>)
    requires forall x :: x in w ==> !x.Recorded?
    ensures Record(t, a + w) == Record(t, a)
  {
    if w == [] {
      assert a + w == a;
    } else {
      var front, last := w[..|w| - 1], w[|w| - 1];
      assert last in w && forall x :: x in front ==> x in w;
      RecordWork(t, a, front);
      RecordPush(t, a + front, last);
      assert a + w == a + front + [last];
    }
  }

  /** The table after the forward part of an attempt, step by step. */
  function FinalTable(env: Env, i: nat, t: Table): Table
    decreases STEPS - i
  {
    if i >= STEPS || env.cancelled(i) then t
    else if env.behave(i).completes then FinalTable(env, i + 1, t[i := Completed])
    else t[i := Failed]
  }

  lemma {:induction false} FinalTableIsRecord(env: Env, i: nat, t: Table)
    ensures Record(t, Forward(env, i)) == FinalTable(env, i, t)
    decreases STEPS - i
  {
    TableUnfold(env, i, t);
    if i < STEPS && !env.cancelled(i) && env.behave(i).completes { FinalTableIsRecord(env, i + 1, t[i := Completed]); }
  }

  /** The status of a step after the forward part of an attempt. */
  lemma {:induction false} StatusAtEnd(env: Env, i: nat, t: Table, j: nat)
    requires i <= STEPS && (j < i ==> j in t)
    requires EndOf(env, i).Success? ==> j < STEPS
    requires EndOf(env, i).CancelledAt? ==> j < EndOf(env, i).step
    requires EndOf(env, i).FailedAt? ==> j <= EndOf(env, i).step
    ensures j in FinalTable(env, i, t)
    ensures FinalTable(env, i, t)[j] == if j < i then t[j] else if EndOf(env, i) == FailedAt(j) then Failed else Completed
    decreases STEPS - i
  {
    if i < STEPS && !env.cancelled(i) && env.behave(i).completes {
      EndIsLater(env, i + 1);
      StatusAtEnd(env, i + 1, t[i := Completed], j);
    }
  }

  lemma TableUnfold(env: Env, i: nat, t: Table)
    ensures Record(t, Forward(env, i)) ==
      if i >= STEPS || env.cancelled(i) then t
      else if env.behave(i).completes then Record(t[i := Completed], Forward(env, i + 1))
      else t[i := Failed]
  {
    ForwardUnfold(env, i);
    var e := StepEffects(env, i);
    StepTable(env, i, t, |e|);
    assert e[..|e|] == e;
    RecordAppend(t, e, Forward(env, i + 1));
  }

  lemma RecordPush(t: Table, a: seq<Effect>, x: Effect)
    ensures Record(t, a + [x]) == if x.Recorded? then Record(t, a)[x.step := x.status] else Record(t, a)
  {
    assert (a + [x])[..|a|] == a;
  }

  lemma {:induction false} ForwardPrefix(env: Env, i: nat, t: Table, n: nat) returns (k: nat)
    requires i <= STEPS && PrefixAt(t, i) && n <= |Forward(env, i)|
    ensures PrefixAt(Record(t, Forward(env, i)[..n]), k)
    decreases STEPS - i
  {
    ForwardUnfold(env, i);
    var f := Forward(env, i);
    if i == STEPS || env.cancelled(i) {
      k := i;
      assert f[..n] == [];
    } else {
      var e := StepEffects(env, i);
      if n < |e| {
        StepPrefix(env, i, t, n);
        assert f[..n] == e[..n];
        k := i;
      } else {
        StepPrefix(env, i, t, |e|);
        if env.behave(i).completes {
          var rest := Forward(env, i + 1)[..n - |e|];
          RecordAppend(t, e, rest);
          assert f[..n] == e + rest;
          k := ForwardPrefix(env, i + 1, Record(t, e), n - |e|);
        } else {
          assert f[..n] == e;
          k := i;
        }
      }
    }
  }

  lemma {:induction false} UnwindRecordsNothing(t: Table, env: Env, stack: seq<nat>, n: nat)
    requires n <= |stack|
    ensures Record(t, Unwind(env, stack)[..n]) == t
  {
    if n > 0 {
      UnwindRecordsNothing(t, env, stack, n - 1);
      assert Unwind(env, stack)[..n][..n - 1] == Unwind(env, stack)[..n - 1];
    }
  }

  /** One attempt that runs for `n` effects and then crashes (or ends, if `n` covers it). */
  function Crashed(env: Env, i: nat, n: nat): seq<Effect> {
    var a := Attempt(env, i);
    if n < |a| then a[..n] else a
  }

  lemma AttemptPrefix(env: Env, i: nat, t: Table, n: nat) returns (k: nat)
    requires i <= STEPS && PrefixAt(t, i)
    ensures PrefixAt(Record(t, Crashed(env, i, n)), k)
  {
    if n <= |Forward(env, i)| {
      k := ForwardPrefix(env, i, t, n);
      CrashedForward(env, i, t, n);
    } else {
      k := ForwardPrefix(env, i, t, |Forward(env, i)|);
      CrashedLater(env, i, t, n);
    }
  }

  lemma CrashedForward(env: Env, i: nat, t: Table, n: nat)
    requires n <= |Forward(env, i)|
    ensures Record(t, Crashed(env, i, n)) == Record(t, Forward(env, i)[..n])
  {
    CutBefore(Forward(env, i), Aftermath(env, i), n);
  }

  /** A crash in the rollback, or none. */
  lemma CrashedLater(env: Env, i: nat, t: Table, n: nat)
    requires n > |Forward(env, i)|
    ensures Record(t, Crashed(env, i, n)) == Record(t, Forward(env, i)[..|Forward(env, i)|])
  {
    var f, u := Forward(env, i), Aftermath(env, i);
    var m := if n < |f + u| then n - |f| else |u|;
    assert f[..|f|] == f;
    assert Crashed(env, i, n) == f + u[..m] by { CutAfter(f, u, n); }
    RecordWork(t, f, u[..m]);
  }

  lemma CutBefore(f: seq<Effect>, u: seq<Effect>, n: nat)
    requires n <= |f|
    ensures (if n < |f + u| then (f + u)[..n] else f + u) == f[..n]
  {
  }

  lemma CutAfter(f: seq<Effect>, u: seq<Effect>, n: nat)
    requires n > |f|
    ensures (if n < |f + u| then (f + u)[..n] else f + u) == f + u[..if n < |f + u| then n - |f| else |u|]
  {
  }

  datatype Life = Life(env: Env, crashAfter: nat)

  /** The table after a sequence of attempts, each resuming where the table says. On an empty table
      resuming is executing. */
  function TableAfter(lives: seq<Life>): Table {
    if lives == [] then map[]
    else
      var t, l := TableAfter(lives[..|lives| - 1]), lives[|lives| - 1];
      Record(t, Crashed(l.env, ResumeFrom(t), l.crashAfter))
  }

  /** Whatever crashes, failures, cancellations and resumes there have been, the table holds a completed
      prefix of the pipeline followed by at most one running or failed step. */
  lemma {:induction false} TableIsPrefix(lives: seq<Life>)
    ensures PrefixAt(TableAfter(lives), ResumeFrom(TableAfter(lives)))
  {
    if lives != [] {
      var t, l := TableAfter(lives[..|lives| - 1]), lives[|lives| - 1];
      TableIsPrefix(lives[..|lives| - 1]);
      var k := AttemptPrefix(l.env, ResumeFrom(t), t, l.crashAfter);
      ResumeAtPrefix(TableAfter(lives), k);
    }
  }

  lemma {:induction false} ForwardStartsAt(env: Env, i: nat, j: nat)
    requires j < |Forward(env, i)|
    ensures i <= Forward(env, i)[j].step < STEPS
    ensures !Forward(env, i)[j].RolledBack?
    decreases STEPS - i
  {
    ForwardUnfold(env, i);
    EffectsOfStep(env, i);
    var n := |StepEffects(env, i)|;
    if j >= n {
      ForwardStartsAt(env, i + 1, j - n);
      assert Forward(env, i)[j] == Forward(env, i + 1)[j - n];
    } else {
      assert Forward(env, i)[j] == StepEffects(env, i)[j];
    }
  }

  lemma EffectsOfStep(env: Env, i: nat)
    ensures forall j :: 0 <= j < |StepEffects(env, i)| ==>
      StepEffects(env, i)[j].step == i && !StepEffects(env, i)[j].RolledBack?
  {
  }

  /** A resume touches no step that the table has as completed: it neither records nor registers it. */
  lemma ResumeNeverReruns(lives: seq<Life>, env: Env, j: nat)
    requires j < |Attempt(env, ResumeFrom(TableAfter(lives)))|
    ensures var t := TableAfter(lives);
      var e := Attempt(env, ResumeFrom(t))[j];
      e.RolledBack? || Open(t, e.step)
  {
    TableIsPrefix(lives);
    AttemptTouches(env, TableAfter(lives), ResumeFrom(TableAfter(lives)), j);
  }

  lemma AttemptTouches(env: Env, t: Table, k: nat, j: nat)
    requires PrefixAt(t, k) && j < |Attempt(env, k)|
    ensures Attempt(env, k)[j].RolledBack? || Open(t, Attempt(env, k)[j].step)
  {
    AttemptAt(env, k, j);
    if j < |Forward(env, k)| {
      ForwardStartsAt(env, k, j);
      LaterIsOpen(t, k, Forward(env, k)[j].step);
    }
  }

  predicate Open(t: Table, step: nat) {
    step !in t || t[step] != Completed
  }

  lemma LaterIsOpen(t: Table, k: nat, step: nat)
    requires PrefixAt(t, k) && k <= step
    ensures Open(t, step)
  {
  }

  lemma AttemptAt(env: Env, i: nat, j: nat)
    requires j < |Attempt(env, i)|
    ensures if j < |Forward(env, i)| then Attempt(env, i)[j] == Forward(env, i)[j] else Attempt(env, i)[j].RolledBack?
  {
    var f := Forward(env, i);
    var u := if EndOf(env, i).Success? then [] else Unwind(env, Stack(f));
    assert forall l :: 0 <= l < |u| ==> u[l].RolledBack?;
    assert Attempt(env, i) == f + u;
  }

  // ---------------------------------------------------------------- rollback and resources

  /** Steps from `i` on, each at most once, in order. */
  predicate Rising(stack: seq<nat>, i: nat) {
    stack == [] || (i <= stack[0] < STEPS && Rising(stack[1..], stack[0] + 1))
  }

  lemma {:induction false} RisingAt(stack: seq<nat>, i: nat, j: nat)
    requires Rising(stack, i) && j < |stack|
    ensures i <= stack[j] < STEPS
    ensures forall k :: j < k < |stack| ==> stack[j] < stack[k]
  {
    if j > 0 {
      RisingAt(stack[1..], stack[0] + 1, j - 1);
      assert forall k :: j < k < |stack| ==> stack[k] == stack[1..][k - 1];
    } else {
      forall k | 0 < k < |stack| ensures stack[0] < stack[k] { RisingAt(stack[1..], stack[0] + 1, k - 1); }
    }
  }

  lemma {:induction false} StackOfForward(env: Env, i: nat)
    ensures Rising(Stack(Forward(env, i)), i)
    decreases STEPS - i
  {
    ForwardUnfold(env, i);
    if i < STEPS && !env.cancelled(i) {
      StackOfStep(env, i);
      if env.behave(i).completes {
        StackOfForward(env, i + 1);
        StackSplits(StepEffects(env, i), Forward(env, i + 1), Forward(env, i));
        RisingGrows(Stack(Forward(env, i + 1)), i);
      }
    }
  }

  /** Steps register at most once each, in pipeline order. */
  lemma StackOrder(env: Env, i: nat)
    ensures forall j :: 0 <= j < |Stack(Forward(env, i))| ==> i <= Stack(Forward(env, i))[j] < STEPS
    ensures forall j, k :: 0 <= j < k < |Stack(Forward(env, i))| ==> Stack(Forward(env, i))[j] < Stack(Forward(env, i))[k]
  {
    StackOfForward(env, i);
    var stack := Stack(Forward(env, i));
    forall j | 0 <= j < |stack| ensures i <= stack[j] < STEPS && forall k :: j < k < |stack| ==> stack[j] < stack[k] {
      RisingAt(stack, i, j);
    }
  }

  lemma RisingGrows(stack: seq<nat>, i: nat)
    requires i < STEPS && Rising(stack, i + 1)
    ensures Rising([i] + stack, i) && Rising([] + stack, i)
  {
    assert ([i] + stack)[1..] == stack && [] + stack == stack;
  }

  /** A step is on the stack if it is the one that registered first or one of the later ones. */
  lemma OnStack(registers: bool, later: seq<nat>, i: nat, s: nat)
    requires Rising(later, i + 1) && i <= s
    ensures s in (if registers then [i] else []) + later <==> if s == i then registers else s in later
  {
    forall j | 0 <= j < |later| ensures later[j] != i { RisingAt(later, i + 1, j); }
  }

  lemma StackSplits(a: seq<Effect>, b: seq<Effect>, f: seq<Effect>)
    requires f == a + b
    ensures Stack(f) == Stack(a) + Stack(b)
  {
    StackAppend(a, b);
  }

  lemma StackOfStep(env: Env, i: nat)
    ensures Stack(StepEffects(env, i)) == if env.behave(i).registers then [i] else []
    ensures forall live :: Resources(live, StepEffects(env, i)) == live + if env.behave(i).registers then {i} else {}
  {
    var a, last := [Recorded(i, Running)],
      [Recorded(i, if env.behave(i).completes then Completed else Failed)];
    var made := if env.behave(i).creates then [Created(i)] else [];
    var mid := if env.behave(i).registers then [Registered(i)] else [];
    assert StepEffects(env, i) == a + made + mid + last;
    StackAppend(a + made + mid, last);
    StackAppend(a + made, mid);
    StackAppend(a, made);
    forall live ensures Resources(live, StepEffects(env, i)) == live + if env.behave(i).registers then {i} else {} {
      ResourcesAppend(live, a + made + mid, last);
      ResourcesAppend(live, a + made, mid);
      ResourcesAppend(live, a, made);
    }
  }

  lemma {:induction false} ResourcesOfForward(env: Env, i: nat, live: set<nat>)
    ensures Resources(live, Forward(env, i)) == live + Registering(Forward(env, i))
    decreases STEPS - i
  {
    ForwardUnfold(env, i);
    if i < STEPS && !env.cancelled(i) {
      ResourcesOfStep(env, i, live);
      if env.behave(i).completes {
        ResourcesOfForward(env, i + 1, Resources(live, StepEffects(env, i)));
        ResourcesJoin(live, StepEffects(env, i), Forward(env, i + 1));
      }
    }
  }

  lemma ResourcesJoin(live: set<nat>, a: seq<Effect>, b: seq<Effect>)
    requires Resources(live, a) == live + Registering(a)
    requires Resources(Resources(live, a), b) == Resources(live, a) + Registering(b)
    ensures Resources(live, a + b) == live + Registering(a + b)
  {
    ResourcesAppend(live, a, b);
    RegisteringSplits(a, b, a + b);
  }

  lemma ResourcesOfStep(env: Env, i: nat, live: set<nat>)
    ensures Resources(live, StepEffects(env, i)) == live + Registering(StepEffects(env, i))
  {
    StackOfStep(env, i);
    assert Registering(StepEffects(env, i)) == if env.behave(i).registers then {i} else {};
  }

  lemma RegisteringSplits(a: seq<Effect>, b: seq<Effect>, f: seq<Effect>)
    requires f == a + b
    ensures Registering(f) == Registering(a) + Registering(b)
  {
    StackSplits(a, b, f);
  }

  /** The steps that register in a sequence of effects. */
  function Registering(effects: seq<Effect>): set<nat> {
    set s | s in Stack(effects)
  }

  lemma {:induction false} ResourcesOfUnwind(env: Env, stack: seq<nat>, live: set<nat>, n: nat)
    requires n <= |stack|
    ensures Resources(live, Unwind(env, stack)[..n]) ==
      live - set j | |stack| - n <= j < |stack| && env.undoes(stack[j]) :: stack[j]
    decreases n
  {
    var u := Unwind(env, stack);
    if n > 0 {
      ResourcesOfUnwind(env, stack, live, n - 1);
      assert u[..n][..n - 1] == u[..n - 1] && u[..n][n - 1] == u[n - 1];
      var top := stack[|stack| - n];
      assert u[n - 1] == RolledBack(top, env.undoes(top));
      assert (set j | |stack| - n <= j < |stack| && env.undoes(stack[j]) :: stack[j]) ==
        (set j | |stack| - (n - 1) <= j < |stack| && env.undoes(stack[j]) :: stack[j])
        + if env.undoes(top) then {top} else {};
    }
  }

  /** Of the registered resources an attempt that did not succeed leaves exactly those that were there before
      it and those of its own whose rollback failed. */
  lemma RegisteredLeft(env: Env, i: nat, live: set<nat>)
    requires !EndOf(env, i).Success? && live !! Registering(Forward(env, i))
    ensures Resources(live, Attempt(env, i)) == live + set s | s in Stack(Forward(env, i)) && !env.undoes(s)
  {
    var stack := Stack(Forward(env, i));
    ResourcesOfForward(env, i, live);
    ResourcesAppend(live, Forward(env, i), Unwind(env, stack));
    WholeUnwind(env, stack, Resources(live, Forward(env, i)));
  }

  lemma WholeUnwind(env: Env, stack: seq<nat>, live: set<nat>)
    ensures Resources(live, Unwind(env, stack)) == live - set s | s in stack && env.undoes(s)
  {
    ResourcesOfUnwind(env, stack, live, |stack|);
    assert Unwind(env, stack)[..|stack|] == Unwind(env, stack);
    assert (set j | 0 <= j < |stack| && env.undoes(stack[j]) :: stack[j]) == (set s | s in stack && env.undoes(s));
  }

  /** The steps that create a resource in a sequence of effects. */
  function Creating(effects: seq<Effect>): set<nat> {
    set s | s in effects && s.Created? :: s.step
  }

  lemma {:induction false} ExistingAppend(live: set<nat>, a: seq<Effect>, b: seq<Effect>)
    ensures Existing(live, a + b) == Existing(Existing(live, a), b)
  {
    if b == [] {
      assert a + b == a;
    } else {
      ExistingAppend(live, a, b[..|b| - 1]);
      assert (a + b)[..|a + b| - 1] == a + b[..|b| - 1];
    }
  }

  lemma {:induction false} ExistingGrows(live: set<nat>, effects: seq<Effect>)
    requires forall x :: x in effects ==> !x.RolledBack?
    ensures Existing(live, effects) == live + Creating(effects)
  {
    if effects != [] {
      var front, last := effects[..|effects| - 1], effects[|effects| - 1];
      assert forall x :: x in effects <==> x in front || x == last;
      ExistingGrows(live, front);
      assert Creating(effects) == Creating(front) + if last.Created? then {last.step} else {};
    }
  }

  /** A rollback takes away what it takes away, registered or not. */
  lemma {:induction false} SameUnwind(live: set<nat>, effects: seq<Effect>)
    requires forall x :: x in effects ==> x.RolledBack?
    ensures Existing(live, effects) == Resources(live, effects)
  {
    if effects != [] {
      assert effects[|effects| - 1] in effects && forall x :: x in effects[..|effects| - 1] ==> x in effects;
      SameUnwind(live, effects[..|effects| - 1]);
    }
  }

  /** What an attempt that did not succeed leaves of the resources it has created: exactly those for which no
      rollback action was registered, as their step failed in between, and those whose rollback failed. */
  lemma LeftBehind(env: Env, i: nat, live: set<nat>)
    requires !EndOf(env, i).Success? && live !! Creating(Forward(env, i)) && live !! Registering(Forward(env, i))
    ensures var f := Forward(env, i);
      Existing(live, Attempt(env, i)) == live + set s | s in Creating(f) && !(s in Stack(f) && env.undoes(s))
  {
    var f := Forward(env, i);
    var u := Unwind(env, Stack(f));
    NoRollback(env, i, |f|);
    assert f[..|f|] == f;
    ExistingAppend(live, f, u);
    ExistingGrows(live, f);
    SameUnwind(live + Creating(f), u);
    WholeUnwind(env, Stack(f), live + Creating(f));
  }

  /** In every step of the source that completes, what it has created is registered. */
  ghost predicate RegistersWhatItCreates(env: Env) {
    forall s :: env.behave(s).completes && env.behave(s).creates ==> env.behave(s).registers
  }

  /** Then an unsuccessful attempt leaves nothing of its own, however late the step, if and only if every
      rollback of something created succeeds and the failing step did not stop between creating and
      registering. */
  lemma RollbackLeavesOnlyFailures(env: Env, i: nat, live: set<nat>)
    requires !EndOf(env, i).Success? && live !! Creating(Forward(env, i)) && live !! Registering(Forward(env, i))
    requires RegistersWhatItCreates(env)
    ensures var f, stuck := Forward(env, i), Stuck(env, EndOf(env, i));
      && Existing(live, Attempt(env, i)) == live + (set s | s in Creating(f) && s in Stack(f) && !env.undoes(s)) + stuck
      && (Existing(live, Attempt(env, i)) == live <==>
            stuck == {} && forall s :: s in Creating(f) && s in Stack(f) ==> env.undoes(s))
  {
    var f, stuck := Forward(env, i), Stuck(env, EndOf(env, i));
    LeftBehind(env, i, live);
    Unregistered(env, i);
    assert stuck == UnregisteredIn(f);
    assert (set s | s in Creating(f) && !(s in Stack(f) && env.undoes(s))) ==
      (set s | s in Creating(f) && s in Stack(f) && !env.undoes(s)) + UnregisteredIn(f);
  }

  /** Only the failing step can have created something without registering it. */
  lemma {:induction false} Unregistered(env: Env, i: nat)
    requires RegistersWhatItCreates(env)
    ensures UnregisteredIn(Forward(env, i)) == Stuck(env, EndOf(env, i))
    decreases STEPS - i
  {
    UnregisteredUnfold(env, i);
    if i < STEPS && !env.cancelled(i) && env.behave(i).completes { Unregistered(env, i + 1); }
  }

  lemma UnregisteredUnfold(env: Env, i: nat)
    requires RegistersWhatItCreates(env)
    ensures UnregisteredIn(Forward(env, i)) ==
      if i >= STEPS || env.cancelled(i) then {}
      else if env.behave(i).completes then UnregisteredIn(Forward(env, i + 1))
      else if env.behave(i).creates && !env.behave(i).registers then {i} else {}
  {
    ForwardUnfold(env, i);
    CreatingOfStep(env, i);
    StackOfStep(env, i);
    LaterSteps(env, i + 1);
    if i < STEPS && env.behave(i).completes { UnregisteredJoin(StepEffects(env, i), Forward(env, i + 1), i); }
  }

  /** The steps that have created something without registering it. */
  function UnregisteredIn(effects: seq<Effect>): set<nat> {
    set s | s in Creating(effects) && s !in Stack(effects)
  }

  /** The failing step, if it stopped between creating and registering. */
  function Stuck(env: Env, end: End): set<nat> {
    if end.FailedAt? && env.behave(end.step).creates && !env.behave(end.step).registers then {end.step} else {}
  }

  /** A step that registers what it creates adds nothing unregistered. */
  lemma UnregisteredJoin(a: seq<Effect>, b: seq<Effect>, i: nat)
    requires (forall s :: s in Creating(a) ==> s == i && s in Stack(a)) && (forall s :: s in Stack(a) ==> s == i)
    requires forall s :: s in Creating(b) || s in Stack(b) ==> s > i
    ensures UnregisteredIn(a + b) == UnregisteredIn(b)
  {
    StackAppend(a, b);
    assert forall x :: x in a + b <==> x in a || x in b;
    assert Creating(a + b) == Creating(a) + Creating(b);
  }

  lemma CreatingOfStep(env: Env, i: nat)
    ensures Creating(StepEffects(env, i)) == if env.behave(i).creates then {i} else {}
  {
    if env.behave(i).creates { assert StepEffects(env, i)[1] == Created(i); }
  }

  lemma LaterSteps(env: Env, i: nat)
    ensures forall s :: s in Creating(Forward(env, i)) || s in Stack(Forward(env, i)) ==> s >= i
  {
    StackOrder(env, i);
    forall j | 0 <= j < |Forward(env, i)| ensures Forward(env, i)[j].step >= i { ForwardStartsAt(env, i, j); }
  }

  /** The rollbacks of an attempt are its registrations in reverse, each once. */
  lemma RollbackIsReverse(env: Env, i: nat, j: nat)
    requires !EndOf(env, i).Success? && j < |Stack(Forward(env, i))|
    ensures var f := Forward(env, i);
      var a, stack := Attempt(env, i), Stack(f);
      && |a| == |f| + |stack|
      && a[|f| + j] == RolledBack(stack[|stack| - 1 - j], env.undoes(stack[|stack| - 1 - j]))
      && (forall k, l :: 0 <= k < l < |stack| ==> stack[k] < stack[l])
  {
    StackOrder(env, i);
    var f := Forward(env, i);
    var u := Unwind(env, Stack(f));
    assert Attempt(env, i) == f + u && (f + u)[|f| + j] == u[j];
  }

  /** The disk check registers nothing, so the SSH connection is closed last. */
  lemma SshClosesLast(env: Env, j: nat)
    requires !EndOf(env, 0).Success? && !env.behave(0).registers && j < |Stack(Forward(env, 0))|
    ensures var f := Forward(env, 0);
      |Attempt(env, 0)| == |f| + |Stack(f)| &&
      (Attempt(env, 0)[|f| + j] == RolledBack(SSH_CONNECT, env.undoes(SSH_CONNECT)) ==> j == |Stack(f)| - 1)
  {
    var stack := Stack(Forward(env, 0));
    RollbackIsReverse(env, 0, j);
    FirstStepNotRegistered(env);
    assert stack[0] in stack;
  }

  lemma FirstStepNotRegistered(env: Env)
    requires !env.behave(0).registers
    ensures forall s :: s in Stack(Forward(env, 0)) ==> s > 0
  {
    StackOfStep(env, 0);
    if !env.cancelled(0) && env.behave(0).completes {
      StackAppend(StepEffects(env, 0), Forward(env, 1));
      StackOrder(env, 1);
    } else if !env.cancelled(0) {
      assert Forward(env, 0) == StepEffects(env, 0);
    }
  }

  lemma {:induction false} StackBefore(env: Env, i: nat, s: nat)
    requires EndOf(env, i).Success? || (EndOf(env, i).FailedAt? && s < EndOf(env, i).step)
    requires i <= s < STEPS
    ensures s in Stack(Forward(env, i)) <==> env.behave(s).registers
    decreases STEPS - i
  {
    StackUnfold(env, i);
    StackOfForward(env, i + 1);
    OnStack(env.behave(i).registers, Stack(Forward(env, i + 1)), i, s);
    if s > i { StackBefore(env, i + 1, s); }
  }

  lemma StackUnfold(env: Env, i: nat)
    requires i < STEPS && !env.cancelled(i) && env.behave(i).completes
    ensures Stack(Forward(env, i)) == (if env.behave(i).registers then [i] else []) + Stack(Forward(env, i + 1))
  {
    ForwardUnfold(env, i);
    StackOfStep(env, i);
    StackSplits(StepEffects(env, i), Forward(env, i + 1), Forward(env, i));
  }

  lemma {:induction false} TableAtFailure(env: Env, i: nat, t: Table)
    requires i <= STEPS && PrefixAt(t, i) && EndOf(env, i).FailedAt?
    ensures i <= EndOf(env, i).step < STEPS && PrefixAt(Record(t, Forward(env, i)), EndOf(env, i).step)
    decreases STEPS - i
  {
    StepPrefix(env, i, t, |StepEffects(env, i)|);
    if env.behave(i).completes {
      RecordAppend(t, StepEffects(env, i), Forward(env, i + 1));
      TableAtFailure(env, i + 1, Record(t, StepEffects(env, i)));
    } else {
      assert Forward(env, i) == StepEffects(env, i);
    }
  }

  /** A successful resume leaves what was there and adds what its own steps register: a resource of a
      step it skipped is there afterwards if and only if it was there before. */
  lemma ResumeKeepsWhatIsThere(env: Env, i: nat, live: set<nat>, s: nat)
    requires EndOf(env, i).Success? && s < STEPS
    ensures s in Resources(live, Attempt(env, i)) <==>
      if s < i then s in live else s in live || env.behave(s).registers
  {
    ResourcesOfForward(env, i, live);
    StackOrder(env, i);
    assert Attempt(env, i) == Forward(env, i);
    if i <= s { StackBefore(env, i, s); }
  }

  /** Rolling back does not rewrite the recorded statuses. So after a failed and fully rolled back
      execute, a resume that succeeds skips every step before the failed one and ends without their
      resources, although the table has them completed: it misses exactly what they had registered. */
  lemma ResumeAfterRollbackMissesResources(first: Env, second: Env, s: nat)
    requires EndOf(first, 0).FailedAt? && s < EndOf(first, 0).step
    requires forall x :: first.undoes(x)
    requires EndOf(second, ResumeFrom(Record(map[], Attempt(first, 0)))).Success?
    ensures var t := Record(map[], Attempt(first, 0));
      var live := Resources(Resources({}, Attempt(first, 0)), Attempt(second, ResumeFrom(t)));
      && ResumeFrom(t) == EndOf(first, 0).step
      && s in t && t[s] == Completed
      && s !in live
      && (s in Resources({}, Forward(first, 0)) <==> first.behave(s).registers)
  {
    TableAfterRollback(first);
    NothingRegisteredLeft(first);
    ResumeKeepsWhatIsThere(second, EndOf(first, 0).step, {}, s);
    RegisteredBefore(first, s);
  }

  lemma NothingRegisteredLeft(env: Env)
    requires !EndOf(env, 0).Success? && forall x :: env.undoes(x)
    ensures Resources({}, Attempt(env, 0)) == {}
  {
    RegisteredLeft(env, 0, {});
    assert (set x | x in Stack(Forward(env, 0)) && !env.undoes(x)) == {};
  }

  lemma RegisteredBefore(env: Env, s: nat)
    requires EndOf(env, 0).FailedAt? && s < EndOf(env, 0).step < STEPS
    ensures s in Resources({}, Forward(env, 0)) <==> env.behave(s).registers
  {
    ResourcesOfForward(env, 0, {});
    StackBefore(env, 0, s);
  }

  lemma TableAfterRollback(first: Env)
    requires EndOf(first, 0).FailedAt?
    ensures var t := Record(map[], Attempt(first, 0));
      PrefixAt(t, EndOf(first, 0).step) && ResumeFrom(t) == EndOf(first, 0).step < STEPS
  {
    var f := Forward(first, 0);
    var stack := Stack(f);
    TableAtFailure(first, 0, map[]);
    UnwindRecordsNothing(Record(map[], f), first, stack, |stack|);
    assert Unwind(first, stack)[..|stack|] == Unwind(first, stack);
    RecordAppend(map[], f, Unwind(first, stack));
    ResumeAtPrefix(Record(map[], f), EndOf(first, 0).step);
  }

  // ---------------------------------------------------------------- what a resumed process has

  /** Among these effects step `s` has completed or not, and its resource is there if it registers one. */
  ghost predicate Found(before: seq<Effect>, s: nat, ran: bool, registers: bool) {
    (Recorded(s, Completed) in before <==> ran) && (s in Resources({}, before) <==> ran && registers)
  }

  /** What the steps of an attempt do that starts at `k`, before its effect `p` begins step `j`: an earlier
      step has run in this process, and left its connection or its data there, if and only if it is not
      before `k`. */
  lemma {:induction false} WhatAStepFinds(env: Env, k: nat, p: nat, s: nat)
    requires p < |Forward(env, k)| && Forward(env, k)[p].Recorded? && Forward(env, k)[p].status == Running
    requires s < Forward(env, k)[p].step
    ensures Found(Forward(env, k)[..p], s, k <= s, env.behave(s).registers)
    decreases STEPS - k
  {
    var n := |StepEffects(env, k)|;
    if p < n {
      BeginsFirst(env, k, p);
    } else {
      SplitAt(env, k, p);
      NoRollback(env, k + 1, p - n);
      if s > k { WhatAStepFinds(env, k + 1, p - n, s); } else { NothingBefore(env, k + 1, p - n, s); }
      FoundAfterStep(env, k, Forward(env, k)[..p], Forward(env, k + 1)[..p - n], s);
    }
  }

  lemma BeginsFirst(env: Env, k: nat, p: nat)
    requires p < |Forward(env, k)| && p < |StepEffects(env, k)|
    requires Forward(env, k)[p].Recorded? && Forward(env, k)[p].status == Running
    ensures p == 0 && Forward(env, k)[p].step == k && Forward(env, k)[..p] == []
  {
    ForwardUnfold(env, k);
    assert Forward(env, k)[p] == StepEffects(env, k)[p];
  }

  lemma SplitAt(env: Env, k: nat, p: nat)
    requires |StepEffects(env, k)| <= p < |Forward(env, k)|
    ensures env.behave(k).completes && p - |StepEffects(env, k)| < |Forward(env, k + 1)|
    ensures Forward(env, k)[..p] == StepEffects(env, k) + Forward(env, k + 1)[..p - |StepEffects(env, k)|]
    ensures Forward(env, k)[p] == Forward(env, k + 1)[p - |StepEffects(env, k)|]
  {
    ForwardUnfold(env, k);
  }

  lemma NoRollback(env: Env, k: nat, n: nat)
    requires n <= |Forward(env, k)|
    ensures forall x :: x in Forward(env, k)[..n] ==> !x.RolledBack?
  {
    forall j | 0 <= j < n ensures !Forward(env, k)[j].RolledBack? { ForwardStartsAt(env, k, j); }
  }

  /** A completed step and what follows it. */
  lemma FoundAfterStep(env: Env, k: nat, before: seq<Effect>, later: seq<Effect>, s: nat)
    requires env.behave(k).completes && (forall x :: x in later ==> !x.RolledBack?)
    requires before == StepEffects(env, k) + later && Found(later, s, k + 1 <= s, env.behave(s).registers)
    ensures Found(before, s, k <= s, env.behave(s).registers)
  {
    var e := StepEffects(env, k);
    assert forall x :: x in e ==> x.step == k;
    assert e[|e| - 1] == Recorded(k, Completed);
    ResourcesAppend({}, e, later);
    ResourcesOfStep(env, k, {});
    StackOfStep(env, k);
    ResourcesGrow(Resources({}, e), later, s);
  }

  lemma {:induction false} ResourcesGrow(live: set<nat>, effects: seq<Effect>, s: nat)
    requires forall x :: x in effects ==> !x.RolledBack?
    ensures s in Resources(live, effects) <==> s in live || s in Resources({}, effects)
  {
    if effects != [] {
      var front := effects[..|effects| - 1];
      assert effects[|effects| - 1] in effects && forall x :: x in front ==> x in effects;
      ResourcesGrow(live, front, s);
    }
  }

  /** An attempt leaves the steps before its first one alone. */
  lemma NothingBefore(env: Env, k: nat, n: nat, s: nat)
    requires n <= |Forward(env, k)| && s < k
    ensures Found(Forward(env, k)[..n], s, false, env.behave(s).registers)
  {
    var f := Forward(env, k)[..n];
    forall j | 0 <= j < n ensures f[j].step >= k { ForwardStartsAt(env, k, j); }
    NotRegistered(f, s);
  }

  lemma {:induction false} NotRegistered(effects: seq<Effect>, s: nat)
    requires forall x :: x in effects ==> x.step != s
    ensures s !in Resources({}, effects)
  {
    if effects != [] {
      var front := effects[..|effects| - 1];
      assert effects[|effects| - 1] in effects && forall x :: x in front ==> x in effects;
      NotRegistered(front, s);
    }
  }

  /** A process that resumes after a crash opens its SSH connection for the remaining steps if and only if
      the crash came before ssh_connect was recorded completed; otherwise every step it begins runs without
      one. */
  lemma ResumeRunsUnconnected(lives: seq<Life>, env: Env, p: nat)
    requires var a := Attempt(env, ResumeFrom(TableAfter(lives)));
      p < |a| && a[p].Recorded? && a[p].status == Running && a[p].step > SSH_CONNECT
    requires env.behave(SSH_CONNECT).registers
    ensures var t := TableAfter(lives);
      SSH_CONNECT in Resources({}, Attempt(env, ResumeFrom(t))[..p]) <==>
        !(forall s :: 0 <= s <= SSH_CONNECT ==> s in t && t[s] == Completed)
  {
    var t := TableAfter(lives);
    var k := ResumeFrom(t);
    AttemptAt(env, k, p);
    assert Attempt(env, k)[..p] == Forward(env, k)[..p];
    WhatAStepFinds(env, k, p, SSH_CONNECT);
  }
}
