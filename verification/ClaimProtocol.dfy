/** claimWorkItem (src/symphony/claim.ts) as a transaction of separate statements, interleaved with any
    number of others and with releases, renewals and expiries. Advisory locks are taken in the order
    global, project, host, state and kept until the transaction ends; a key that is no lock key makes its
    statement fail. An inserted row is invisible to others until the commit. Lock keys are hashes, so
    different projects or hosts may share a key. */
module ClaimProtocol {
  import opened Wrappers
  import opened ClaimTable
  import opened LockKeys

  type TxId = nat

  datatype Lock = GlobalLock | ProjectLock(key: nat) | HostLock(key: nat) | StateLock(index: nat)

  datatype Options = Options(
    item: string, orchestrator: string, projectKey: nat, hostKey: nat, stateIndex: Option<nat>,
    idempotencyKey: Option<string>)

  datatype Result = Claimed(id: nat, epoch: int) | AlreadyClaimed | LimitReached | Threw

  /** The next statement of a transaction. */
  datatype Phase =
    | FindIdempotent | TakeGlobal | TakeProject | TakeHost | TakeState | FindExisting | CountRuns
    | ReadEpoch | Insert(next: int) | Commit(row: Claim) | Ended(result: Result)

  /** `skipped` are the rows the search for an existing claim passed over as locked. */
  datatype Tx = Tx(opts: Options, phase: Phase, skipped: set<nat>)

  datatype System = System(claims: Claims, holder: map<Lock, TxId>, txs: map<TxId, Tx>)

  datatype Step =
    | Begin(t: TxId, opts: Options)
    | Next(t: TxId, now: int, skipped: set<nat>, overLimit: bool, until: int)
    | Abort(t: TxId)
    | ReleaseOne(id: nat, at: int)
    | RenewOne(id: nat, until: int)
    | ExpireAll(owner: Option<string>, at: int)

  const EMPTY: System := System([], map[], map[])

  predicate LiveFor(c: Claim, item: string) {
    Live(c) && c.item == item
  }

  /** A claim the idempotency check returns. */
  predicate Reusable(c: Claim, o: Options, now: int) {
    LiveFor(c, o.item) && o.idempotencyKey.Some? && c.idempotencyKey == o.idempotencyKey && c.leaseExpiresAt > now
  }

  /** COALESCE(MAX(claim_epoch), 0) over the claims of an item. */
  function MaxEpoch(claims: Claims, item: string): int {
    if claims == [] then 0
    else
      var rest, c := MaxEpoch(claims[..|claims| - 1], item), claims[|claims| - 1];
      if c.item == item && c.epoch > rest then c.epoch else rest
  }

  function WantedLock(o: Options, p: Phase): Option<Lock> {
    match p
    case TakeGlobal => Some(GlobalLock)
    case TakeProject => Some(ProjectLock(o.projectKey))
    case TakeHost => Some(HostLock(o.hostKey))
    case TakeState => if o.stateIndex.Some? then Some(StateLock(o.stateIndex.value)) else None
    case _ => None
  }

  /** The lock statement is given a key outside the range of lock keys. */
  predicate BadKey(o: Options, p: Phase) {
    (p.TakeProject? && !IsLockKey(o.projectKey)) || (p.TakeHost? && !IsLockKey(o.hostKey))
  }

  /** Waiting for a lock another transaction holds is the only way to be stuck. */
  predicate CanStep(s: System, t: TxId) {
    && t in s.txs && !s.txs[t].phase.Ended?
    && (BadKey(s.txs[t].opts, s.txs[t].phase) || LockIsFree(s, t))
  }

  predicate LockIsFree(s: System, t: TxId)
    requires t in s.txs
  {
    var l := WantedLock(s.txs[t].opts, s.txs[t].phase);
    l.Some? && l.value in s.holder ==> s.holder[l.value] == t
  }

  function End(s: System, t: TxId, result: Result): System
    requires t in s.txs
  {
    s.(holder := map l | l in s.holder && s.holder[l] != t :: s.holder[l],
       txs := s.txs[t := s.txs[t].(phase := Ended(result))])
  }

  function Goto(s: System, t: TxId, p: Phase): System
    requires t in s.txs
  {
    s.(txs := s.txs[t := s.txs[t].(phase := p)])
  }

  function Take(s: System, t: TxId, p: Phase): System
    requires t in s.txs
  {
    var l := WantedLock(s.txs[t].opts, s.txs[t].phase);
    if l.Some? then Goto(s.(holder := s.holder[l.value := t]), t, p) else Goto(s, t, p)
  }

  /** No live claim among the rows that were not locked. */
  function PassOver(s: System, t: TxId, skipped: set<nat>): System
    requires t in s.txs
  {
    s.(txs := s.txs[t := s.txs[t].(phase := CountRuns, skipped := skipped)])
  }

  predicate FoundReusable(claims: Claims, o: Options, now: int) {
    exists i :: 0 <= i < |claims| && Reusable(claims[i], o, now)
  }

  predicate HasLive(claims: Claims, item: string, skipped: set<nat>) {
    exists i :: 0 <= i < |claims| && i !in skipped && LiveFor(claims[i], item)
  }

  /** A claim the idempotency check returns; there is at most one. */
  function PickReusable(claims: Claims, o: Options, now: int): (i: nat)
    requires FoundReusable(claims, o, now)
    ensures i < |claims| && Reusable(claims[i], o, now)
  {
    if Reusable(claims[|claims| - 1], o, now) then |claims| - 1
    else
      assert FoundReusable(claims[..|claims| - 1], o, now) by {
        var i :| 0 <= i < |claims| && Reusable(claims[i], o, now);
        assert claims[..|claims| - 1][i] == claims[i];
      }
      PickReusable(claims[..|claims| - 1], o, now)
  }

  /** One statement of transaction `t`. `skipped` are rows another session has locked at that
      instant, which FOR UPDATE SKIP LOCKED passes over; `overLimit` is the verdict of the counts. */
  function Advance(s: System, t: TxId, now: int, skipped: set<nat>, overLimit: bool, until: int): System
    requires CanStep(s, t)
  {
    var o := s.txs[t].opts;
    if BadKey(o, s.txs[t].phase) then End(s, t, Threw)
    else
    match s.txs[t].phase
    case FindIdempotent =>
      if FoundReusable(s.claims, o, now) then
        var i := PickReusable(s.claims, o, now);
        End(s, t, Claimed(i, s.claims[i].epoch))
      else Goto(s, t, TakeGlobal)
    case TakeGlobal => Take(s, t, TakeProject)
    case TakeProject => Take(s, t, TakeHost)
    case TakeHost => Take(s, t, TakeState)
    case TakeState => Take(s, t, FindExisting)
    case FindExisting => if HasLive(s.claims, o.item, skipped) then End(s, t, AlreadyClaimed) else PassOver(s, t, skipped)
    case CountRuns => if overLimit then End(s, t, LimitReached) else Goto(s, t, ReadEpoch)
    case ReadEpoch => Goto(s, t, Insert(MaxEpoch(s.claims, o.item) + 1))
    case Insert(next) =>
      // The partial unique index on live claims rejects a second one.
      if HasLive(s.claims, o.item, {}) then End(s, t, Threw)
      else Goto(s, t, Commit(Claim(o.item, o.orchestrator, Active, next, until, None, o.idempotencyKey)))
    case Commit(row) => End(s.(claims := s.claims + [row]), t, Claimed(|s.claims|, row.epoch))
  }

  function Apply(s: System, step: Step): System {
    match step
    case Begin(t, opts) => if t in s.txs then s else s.(txs := s.txs[t := Tx(opts, FindIdempotent, {})])
    case Next(t, now, skipped, overLimit, until) =>
      if CanStep(s, t) then Advance(s, t, now, skipped, overLimit, until) else s
    case Abort(t) => if t in s.txs && !s.txs[t].phase.Ended? then End(s, t, Threw) else s
    case ReleaseOne(id, at) => s.(claims := Release(s.claims, id, at))
    case RenewOne(id, until) => s.(claims := Renew(s.claims, id, until))
    case ExpireAll(owner, at) => s.(claims := Expire(s.claims, owner, at))
  }

  function Exec(s: System, steps: seq<Step>): System {
    if steps == [] then s else Apply(Exec(s, steps[..|steps| - 1]), steps[|steps| - 1])
  }

  // ---------------------------------------------------------------- invariant

  function Count(claims: Claims, item: string): nat {
    if claims == [] then 0
    else Count(claims[..|claims| - 1], item) + if claims[|claims| - 1].item == item then 1 else 0
  }

  /** The claims of an item carry the epochs 1, 2, 3, ... in the order they were made. */
  ghost predicate EpochsInOrder(claims: Claims) {
    forall i :: 0 <= i < |claims| ==> claims[i].epoch == Count(claims[..i], claims[i].item) + 1
  }

  ghost predicate OneLive(claims: Claims) {
    forall i, j :: 0 <= i < j < |claims| && Live(claims[i]) && Live(claims[j]) ==> claims[i].item != claims[j].item
  }

  predicate PastGlobal(p: Phase) {
    !p.FindIdempotent? && !p.TakeGlobal? && !p.Ended?
  }

  ghost predicate TxOk(s: System, t: TxId)
    requires t in s.txs
  {
    var item := s.txs[t].opts.item;
    && (PastGlobal(s.txs[t].phase) ==> GlobalLock in s.holder && s.holder[GlobalLock] == t)
    && match s.txs[t].phase
       case Insert(next) => next == Count(s.claims, item) + 1
       case Commit(row) => row.epoch == Count(s.claims, item) + 1 && LiveFor(row, item) && !HasLive(s.claims, item, {})
       case Ended(Claimed(id, epoch)) => id < |s.claims| && s.claims[id].epoch == epoch && s.claims[id].item == item
       case _ => true
  }

  ghost predicate Inv(s: System) {
    && EpochsInOrder(s.claims)
    && OneLive(s.claims)
    && (forall t :: t in s.txs ==> TxOk(s, t))
    && (forall l :: l in s.holder ==> s.holder[l] in s.txs && PastGlobal(s.txs[s.holder[l]].phase))
  }

  lemma {:induction false} MaxEpochIsCount(claims: Claims, item: string)
    requires EpochsInOrder(claims)
    ensures MaxEpoch(claims, item) == Count(claims, item)
  {
    if claims != [] {
      var rest := claims[..|claims| - 1];
      assert forall i :: 0 <= i < |rest| ==> rest[..i] == claims[..i];
      MaxEpochIsCount(rest, item);
      assert claims[|claims| - 1].epoch == Count(rest, claims[|claims| - 1].item) + 1;
    }
  }

  lemma {:induction false} CountFrame(a: Claims, b: Claims, item: string)
    requires |a| == |b| && forall i :: 0 <= i < |a| ==> a[i].item == b[i].item
    ensures Count(a, item) == Count(b, item)
  {
    if a != [] { CountFrame(a[..|a| - 1], b[..|b| - 1], item); }
  }

  lemma {:induction false} CountMonotone(claims: Claims, i: nat, j: nat, item: string)
    requires i <= j <= |claims|
    ensures Count(claims[..i], item) <= Count(claims[..j], item)
  {
    if i < j {
      CountMonotone(claims, i, j - 1, item);
      assert claims[..j][..j - 1] == claims[..j - 1];
    }
  }

  /** A change that keeps items and epochs and revives no claim keeps the invariant. */
  lemma QuietUpdate(s: System, claims: Claims)
    requires Inv(s) && |claims| == |s.claims|
    requires forall i :: 0 <= i < |claims| ==>
      && claims[i].item == s.claims[i].item && claims[i].epoch == s.claims[i].epoch
      && (Live(claims[i]) ==> Live(s.claims[i]))
    ensures Inv(s.(claims := claims))
  {
    forall i, item | 0 <= i <= |claims| ensures Count(claims[..i], item) == Count(s.claims[..i], item) {
      CountFrame(claims[..i], s.claims[..i], item);
    }
    assert claims[..|claims|] == claims && s.claims[..|claims|] == s.claims;
    var s' := s.(claims := claims);
    forall t | t in s'.txs ensures TxOk(s', t) { assert TxOk(s, t); }
  }

  lemma EndKeeps(s: System, t: TxId, result: Result)
    requires Inv(s) && t in s.txs && !s.txs[t].phase.Ended?
    requires result.Claimed? ==>
      result.id < |s.claims| && s.claims[result.id].epoch == result.epoch && s.claims[result.id].item == s.txs[t].opts.item
    ensures Inv(End(s, t, result))
  {
    var s' := End(s, t, result);
    forall u | u in s'.txs ensures TxOk(s', u) { assert u in s.txs && TxOk(s, u); }
  }

  lemma OnlyGlobalHolderPastGlobal(s: System, t: TxId, u: TxId)
    requires Inv(s) && t in s.txs && u in s.txs && PastGlobal(s.txs[t].phase) && PastGlobal(s.txs[u].phase)
    ensures t == u
  {
    assert TxOk(s, t) && TxOk(s, u);
  }

  /** A claim with the next epoch, for an item without a live one, fits at the end. */
  lemma AppendFits(claims: Claims, row: Claim)
    requires EpochsInOrder(claims) && OneLive(claims)
    requires row.epoch == Count(claims, row.item) + 1 && !HasLive(claims, row.item, {})
    ensures EpochsInOrder(claims + [row]) && OneLive(claims + [row])
  {
    EpochsAppend(claims, row);
    OneLiveAppend(claims, row);
  }

  lemma EpochsAppend(claims: Claims, row: Claim)
    requires EpochsInOrder(claims) && row.epoch == Count(claims, row.item) + 1
    ensures EpochsInOrder(claims + [row])
  {
    var all := claims + [row];
    forall i | 0 <= i < |all| ensures all[i].epoch == Count(all[..i], all[i].item) + 1 {
      if i < |claims| { assert all[..i] == claims[..i]; } else { assert all[..i] == claims; }
    }
  }

  lemma CountAppend(claims: Claims, row: Claim, item: string)
    ensures Count(claims + [row], item) == Count(claims, item) + if item == row.item then 1 else 0
  {
    assert (claims + [row])[..|claims|] == claims;
  }

  lemma OneLiveAppend(claims: Claims, row: Claim)
    requires OneLive(claims) && !HasLive(claims, row.item, {})
    ensures OneLive(claims + [row])
  {
    forall i | 0 <= i < |claims| && Live(claims[i]) ensures claims[i].item != row.item {
      assert claims[i].item == row.item ==> LiveFor(claims[i], row.item);
    }
  }

  lemma CommitKeeps(s: System, t: TxId)
    requires Inv(s) && t in s.txs && s.txs[t].phase.Commit?
    ensures Inv(End(s.(claims := s.claims + [s.txs[t].phase.row]), t, Claimed(|s.claims|, s.txs[t].phase.row.epoch)))
  {
    var row := s.txs[t].phase.row;
    assert TxOk(s, t);
    AppendFits(s.claims, row);
    var s' := End(s.(claims := s.claims + [row]), t, Claimed(|s.claims|, row.epoch));
    forall u | u in s'.txs ensures TxOk(s', u) { OthersAtCommit(s, t, u); }
  }

  /** The committing transaction is the only one past the global lock. */
  lemma OthersAtCommit(s: System, t: TxId, u: TxId)
    requires Inv(s) && t in s.txs && s.txs[t].phase.Commit? && u in s.txs
    ensures
      var row := s.txs[t].phase.row;
      TxOk(End(s.(claims := s.claims + [row]), t, Claimed(|s.claims|, row.epoch)), u)
  {
    assert TxOk(s, u) && TxOk(s, t);
    CountAppend(s.claims, s.txs[t].phase.row, s.txs[u].opts.item);
    if u != t && PastGlobal(s.txs[u].phase) { OnlyGlobalHolderPastGlobal(s, t, u); }
  }

  lemma TakeKeeps(s: System, t: TxId, p: Phase)
    requires Inv(s) && CanStep(s, t)
    requires s.txs[t].phase in {TakeGlobal, TakeProject, TakeHost, TakeState}
    requires p in {TakeProject, TakeHost, TakeState, FindExisting}
    ensures Inv(Take(s, t, p))
  {
    var s' := Take(s, t, p);
    forall u | u in s'.txs ensures TxOk(s', u) { TakeKeepsTx(s, t, p, u); }
  }

  lemma TakeKeepsTx(s: System, t: TxId, p: Phase, u: TxId)
    requires Inv(s) && CanStep(s, t) && u in s.txs
    requires s.txs[t].phase in {TakeGlobal, TakeProject, TakeHost, TakeState}
    requires p in {TakeProject, TakeHost, TakeState, FindExisting}
    ensures TxOk(Take(s, t, p), u)
  {
    assert TxOk(s, t) && TxOk(s, u);
    if PastGlobal(s.txs[t].phase) && PastGlobal(s.txs[u].phase) { OnlyGlobalHolderPastGlobal(s, t, u); }
  }

  lemma GotoKeeps(s: System, t: TxId, p: Phase)
    requires Inv(s) && t in s.txs && PastGlobal(p) ==> PastGlobal(s.txs[t].phase)
    requires Inv(s) && t in s.txs && !s.txs[t].phase.Ended? && !p.Ended?
    requires PastGlobal(s.txs[t].phase) ==> PastGlobal(p)
    requires p.Insert? ==> p.next == Count(s.claims, s.txs[t].opts.item) + 1
    requires p.Commit? ==> var item := s.txs[t].opts.item;
      p.row.epoch == Count(s.claims, item) + 1 && LiveFor(p.row, item) && !HasLive(s.claims, item, {})
    ensures Inv(Goto(s, t, p))
  {
    var s' := Goto(s, t, p);
    forall u | u in s'.txs ensures TxOk(s', u) { assert TxOk(s, u); }
  }

  lemma PassOverKeeps(s: System, t: TxId, skipped: set<nat>)
    requires Inv(s) && t in s.txs && s.txs[t].phase.FindExisting?
    ensures Inv(PassOver(s, t, skipped))
  {
    var s' := PassOver(s, t, skipped);
    forall u | u in s'.txs ensures TxOk(s', u) { assert TxOk(s, u); }
  }

  lemma AdvanceKeeps(s: System, t: TxId, now: int, skipped: set<nat>, overLimit: bool, until: int)
    requires Inv(s) && CanStep(s, t)
    ensures Inv(Advance(s, t, now, skipped, overLimit, until))
  {
    var o := s.txs[t].opts;
    assert TxOk(s, t);
    if BadKey(o, s.txs[t].phase) { EndKeeps(s, t, Threw); return; }
    match s.txs[t].phase
    case FindIdempotent =>
      if FoundReusable(s.claims, o, now) {
        var i := PickReusable(s.claims, o, now);
        EndKeeps(s, t, Claimed(i, s.claims[i].epoch));
      } else {
        GotoKeeps(s, t, TakeGlobal);
      }
    case TakeGlobal => TakeKeeps(s, t, TakeProject);
    case TakeProject => TakeKeeps(s, t, TakeHost);
    case TakeHost => TakeKeeps(s, t, TakeState);
    case TakeState => TakeKeeps(s, t, FindExisting);
    case FindExisting =>
      if HasLive(s.claims, o.item, skipped) { EndKeeps(s, t, AlreadyClaimed); } else { PassOverKeeps(s, t, skipped); }
    case CountRuns => if overLimit { EndKeeps(s, t, LimitReached); } else { GotoKeeps(s, t, ReadEpoch); }
    case ReadEpoch =>
      MaxEpochIsCount(s.claims, o.item);
      GotoKeeps(s, t, Insert(MaxEpoch(s.claims, o.item) + 1));
    case Insert(next) =>
      if HasLive(s.claims, o.item, {}) { EndKeeps(s, t, Threw); }
      else { GotoKeeps(s, t, Commit(Claim(o.item, o.orchestrator, Active, next, until, None, o.idempotencyKey))); }
    case Commit(row) => CommitKeeps(s, t);
  }

  lemma BeginKeeps(s: System, t: TxId, opts: Options)
    requires Inv(s) && t !in s.txs
    ensures Inv(s.(txs := s.txs[t := Tx(opts, FindIdempotent, {})]))
  {
    var s' := s.(txs := s.txs[t := Tx(opts, FindIdempotent, {})]);
    forall u | u in s'.txs ensures TxOk(s', u) { assert u in s.txs ==> TxOk(s, u); }
  }

  lemma StepKeeps(s: System, step: Step)
    requires Inv(s)
    ensures Inv(Apply(s, step))
  {
    match step
    case Begin(t, opts) => if t !in s.txs { BeginKeeps(s, t, opts); }
    case Next(t, now, skipped, overLimit, until) =>
      if CanStep(s, t) { AdvanceKeeps(s, t, now, skipped, overLimit, until); }
    case Abort(t) => if t in s.txs && !s.txs[t].phase.Ended? { EndKeeps(s, t, Threw); }
    case _ => QuietStepKeeps(s, step);
  }

  lemma QuietStepKeeps(s: System, step: Step)
    requires Inv(s) && (step.ReleaseOne? || step.RenewOne? || step.ExpireAll?)
    ensures Inv(Apply(s, step))
  {
    match step
    case ReleaseOne(id, at) => QuietUpdate(s, Release(s.claims, id, at));
    case RenewOne(id, until) => QuietUpdate(s, Renew(s.claims, id, until));
    case ExpireAll(owner, at) => QuietUpdate(s, Expire(s.claims, owner, at));
  }

  lemma {:induction false} Reach(steps: seq<Step>)
    ensures Inv(Exec(EMPTY, steps))
  {
    if steps != [] {
      Reach(steps[..|steps| - 1]);
      StepKeeps(Exec(EMPTY, steps[..|steps| - 1]), steps[|steps| - 1]);
    }
  }

  // ---------------------------------------------------------------- main results

  /** In every reachable state an item has at most one live claim, and a later claim of an item has a
      higher epoch than every earlier one, so no epoch is ever used twice. */
  lemma ClaimsAreExclusive(steps: seq<Step>, i: nat, j: nat)
    requires i < j < |Exec(EMPTY, steps).claims|
    requires Exec(EMPTY, steps).claims[i].item == Exec(EMPTY, steps).claims[j].item
    ensures var claims := Exec(EMPTY, steps).claims;
      && !(Live(claims[i]) && Live(claims[j]))
      && claims[i].epoch < claims[j].epoch
  {
    Reach(steps);
    var claims := Exec(EMPTY, steps).claims;
    CountMonotone(claims, i + 1, j, claims[i].item);
    assert claims[..i + 1][..i] == claims[..i];
  }

  /** The epochs handed out for an item are 1, 2, 3, ... without a gap. */
  lemma EpochsHaveNoGap(steps: seq<Step>, i: nat)
    requires i < |Exec(EMPTY, steps).claims|
    ensures var claims := Exec(EMPTY, steps).claims; claims[i].epoch == Count(claims[..i], claims[i].item) + 1
  {
    Reach(steps);
  }

  /** A transaction that reports a claim reports one that was committed for its own item. */
  lemma SuccessNamesAClaim(steps: seq<Step>, t: TxId)
    requires var s := Exec(EMPTY, steps); t in s.txs && s.txs[t].phase.Ended? && s.txs[t].phase.result.Claimed?
    ensures var s := Exec(EMPTY, steps);
      var r := s.txs[t].phase.result;
      r.id < |s.claims| && s.claims[r.id].epoch == r.epoch && s.claims[r.id].item == s.txs[t].opts.item
  {
    Reach(steps);
    assert TxOk(Exec(EMPTY, steps), t);
  }

  /** No deadlock: while a transaction is unfinished, some unfinished transaction can step. */
  lemma NoDeadlock(steps: seq<Step>, t: TxId) returns (u: TxId)
    requires var s := Exec(EMPTY, steps); t in s.txs && !s.txs[t].phase.Ended?
    ensures CanStep(Exec(EMPTY, steps), u)
  {
    Reach(steps);
    u := HolderCanStep(Exec(EMPTY, steps), t);
  }

  lemma HolderCanStep(s: System, t: TxId) returns (u: TxId)
    requires Inv(s) && t in s.txs && !s.txs[t].phase.Ended?
    ensures CanStep(s, u)
  {
    if GlobalLock in s.holder {
      u := s.holder[GlobalLock];
      forall l | l in s.holder ensures s.holder[l] == u { OnlyGlobalHolderPastGlobal(s, s.holder[l], u); }
    } else {
      u := t;
      assert TxOk(s, t);
    }
  }

  /** Each statement brings its transaction nearer its end and leaves the others where they were, so
      with NoDeadlock every set of transactions runs to completion. */
  lemma StepsAreFinite(s: System, t: TxId, now: int, skipped: set<nat>, overLimit: bool, until: int)
    requires CanStep(s, t)
    ensures var s' := Apply(s, Next(t, now, skipped, overLimit, until));
      && s'.txs.Keys == s.txs.Keys
      && Remaining(s'.txs[t].phase) < Remaining(s.txs[t].phase)
      && forall v :: v in s.txs && v != t ==> s'.txs[v] == s.txs[v]
  {
  }

  function Remaining(p: Phase): nat {
    match p
    case FindIdempotent => 10
    case TakeGlobal => 9
    case TakeProject => 8
    case TakeHost => 7
    case TakeState => 6
    case FindExisting => 5
    case CountRuns => 4
    case ReadEpoch => 3
    case Insert(_) => 2
    case Commit(_) => 1
    case Ended(_) => 0
  }

  // ------------------------------------------------ the unique index is only a backstop

  predicate PastExisting(p: Phase) {
    p.CountRuns? || p.ReadEpoch? || p.Insert? || p.Commit?
  }

  /** Every live claim of the item is one the transaction passed over. */
  ghost predicate OnlySkipped(s: System, t: TxId)
    requires t in s.txs
  {
    forall id :: 0 <= id < |s.claims| && LiveFor(s.claims[id], s.txs[t].opts.item) ==> id in s.txs[t].skipped
  }

  ghost predicate CheckedInv(s: System) {
    forall t :: t in s.txs && PastExisting(s.txs[t].phase) ==> OnlySkipped(s, t)
  }

  lemma CheckedAdvance(s: System, t: TxId, now: int, skipped: set<nat>, overLimit: bool, until: int)
    requires Inv(s) && CheckedInv(s) && CanStep(s, t)
    ensures CheckedInv(Advance(s, t, now, skipped, overLimit, until))
  {
    var s' := Advance(s, t, now, skipped, overLimit, until);
    assert s'.txs.Keys == s.txs.Keys;
    forall u | u in s'.txs && PastExisting(s'.txs[u].phase) ensures OnlySkipped(s', u) {
      CheckedOne(s, t, u, now, skipped, overLimit, until);
    }
  }

  lemma CheckedOne(s: System, t: TxId, u: TxId, now: int, skipped: set<nat>, overLimit: bool, until: int)
    requires Inv(s) && CheckedInv(s) && CanStep(s, t) && u in s.txs
    ensures var s' := Advance(s, t, now, skipped, overLimit, until);
      u in s'.txs && (PastExisting(s'.txs[u].phase) ==> OnlySkipped(s', u))
  {
    if s.txs[t].phase.Commit? {
      if PastExisting(s.txs[u].phase) { OnlyGlobalHolderPastGlobal(s, t, u); }
    } else if u == t {
      CheckedSelf(s, t, now, skipped, overLimit, until);
    } else {
      OnlyOwnTx(s, t, u, now, skipped, overLimit, until);
    }
  }

  lemma OnlyOwnTx(s: System, t: TxId, u: TxId, now: int, skipped: set<nat>, overLimit: bool, until: int)
    requires CanStep(s, t) && u in s.txs && u != t && !s.txs[t].phase.Commit?
    ensures var s' := Advance(s, t, now, skipped, overLimit, until);
      s'.claims == s.claims && u in s'.txs && s'.txs[u] == s.txs[u]
  {
  }

  lemma CheckedSelf(s: System, t: TxId, now: int, skipped: set<nat>, overLimit: bool, until: int)
    requires CheckedInv(s) && CanStep(s, t) && !s.txs[t].phase.Commit?
    ensures var s' := Advance(s, t, now, skipped, overLimit, until);
      s'.claims == s.claims && (PastExisting(s'.txs[t].phase) ==> OnlySkipped(s', t))
  {
  }

  lemma QuietKeepsChecked(s: System, claims: Claims)
    requires CheckedInv(s) && |claims| == |s.claims|
    requires forall i :: 0 <= i < |claims| && Live(claims[i]) ==> Live(s.claims[i]) && claims[i].item == s.claims[i].item
    ensures CheckedInv(s.(claims := claims))
  {
    var s' := s.(claims := claims);
    forall t | t in s'.txs && PastExisting(s'.txs[t].phase) ensures OnlySkipped(s', t) { assert OnlySkipped(s, t); }
  }

  lemma CheckedStep(s: System, step: Step)
    requires Inv(s) && CheckedInv(s)
    ensures CheckedInv(Apply(s, step))
  {
    match step
    case Next(t, now, skipped, overLimit, until) =>
      if CanStep(s, t) { CheckedAdvance(s, t, now, skipped, overLimit, until); }
    case ReleaseOne(id, at) => QuietKeepsChecked(s, Release(s.claims, id, at));
    case RenewOne(id, until) => QuietKeepsChecked(s, Renew(s.claims, id, until));
    case ExpireAll(owner, at) => QuietKeepsChecked(s, Expire(s.claims, owner, at));
    case _ =>
      var s' := Apply(s, step);
      forall u | u in s'.txs && PastExisting(s'.txs[u].phase) ensures OnlySkipped(s', u) { assert OnlySkipped(s, u); }
  }

  lemma {:induction false} CheckedReach(steps: seq<Step>)
    ensures CheckedInv(Exec(EMPTY, steps))
  {
    if steps != [] {
      var prefix := steps[..|steps| - 1];
      CheckedReach(prefix);
      Reach(prefix);
      CheckedStep(Exec(EMPTY, prefix), steps[|steps| - 1]);
    }
  }

  /** In every reachable state an INSERT meets the unique index if and only if one of the rows that its
      transaction passed over as locked is still a live claim of the item. Then the caller gets an
      exception where it would have been told that the item is already claimed. */
  lemma InsertConflictsIff(steps: seq<Step>, t: TxId, now: int, skipped: set<nat>, overLimit: bool, until: int)
    requires var s := Exec(EMPTY, steps); t in s.txs && s.txs[t].phase.Insert?
    ensures var s := Exec(EMPTY, steps);
      var s' := Apply(s, Next(t, now, skipped, overLimit, until));
      && (HasLive(s.claims, s.txs[t].opts.item, {}) <==> SkippedStillLive(s, t))
      && (s'.txs[t].phase == Ended(Threw) <==> SkippedStillLive(s, t))
      && (s'.txs[t].phase.Commit? <==> !SkippedStillLive(s, t))
  {
    CheckedReach(steps);
    assert OnlySkipped(Exec(EMPTY, steps), t);
  }

  ghost predicate SkippedStillLive(s: System, t: TxId)
    requires t in s.txs
  {
    exists id :: id in s.txs[t].skipped && id < |s.claims| && LiveFor(s.claims[id], s.txs[t].opts.item)
  }

  /** So a transaction that passed over no row never meets the index: the locks alone keep live claims
      apart. */
  lemma InsertNeverConflicts(steps: seq<Step>, t: TxId)
    requires var s := Exec(EMPTY, steps); t in s.txs && PastExisting(s.txs[t].phase) && s.txs[t].skipped == {}
    ensures var s := Exec(EMPTY, steps); !HasLive(s.claims, s.txs[t].opts.item, {})
  {
    CheckedReach(steps);
    assert OnlySkipped(Exec(EMPTY, steps), t);
  }

  // ------------------------------------------------ the row a transaction adds

  /** The row a transaction is about to commit is a live one of its own. */
  predicate RowIsOwn(x: Tx) {
    x.phase.Commit? ==>
      var row := x.phase.row;
      && row.item == x.opts.item && row.orchestrator == x.opts.orchestrator && row.idempotencyKey == x.opts.idempotencyKey
      && row.status == Active && row.releasedAt.None?
  }

  lemma {:induction false} RowsAreOwn(steps: seq<Step>)
    ensures forall t :: t in Exec(EMPTY, steps).txs ==> RowIsOwn(Exec(EMPTY, steps).txs[t])
  {
    if steps != [] {
      RowsAreOwn(steps[..|steps| - 1]);
      OwnStep(Exec(EMPTY, steps[..|steps| - 1]), steps[|steps| - 1]);
    }
  }

  lemma OwnStep(s: System, step: Step)
    requires forall t :: t in s.txs ==> RowIsOwn(s.txs[t])
    ensures forall t :: t in Apply(s, step).txs ==> RowIsOwn(Apply(s, step).txs[t])
  {
    if step.Next? && CanStep(s, step.t) {
      OwnAdvance(s, step.t, step.now, step.skipped, step.overLimit, step.until);
    }
  }

  lemma OwnAdvance(s: System, t: TxId, now: int, skipped: set<nat>, overLimit: bool, until: int)
    requires CanStep(s, t) && RowIsOwn(s.txs[t])
    ensures var s' := Advance(s, t, now, skipped, overLimit, until);
      s'.txs.Keys == s.txs.Keys && RowIsOwn(s'.txs[t]) && forall u :: u in s.txs && u != t ==> s'.txs[u] == s.txs[u]
  {
  }

  /** Every claim is added by a transaction for its own item, orchestrator and idempotency key, with the epoch
      that counts the claims of the item, and is live. */
  lemma AddedClaimIsOwn(steps: seq<Step>, step: Step)
    requires |Apply(Exec(EMPTY, steps), step).claims| > |Exec(EMPTY, steps).claims|
    ensures
      var s, s' := Exec(EMPTY, steps), Apply(Exec(EMPTY, steps), step);
      && step.Next? && step.t in s.txs && |s'.claims| == |s.claims| + 1 && s'.claims[..|s.claims|] == s.claims
      && var row, o := s'.claims[|s.claims|], s.txs[step.t].opts;
         && row.item == o.item && row.orchestrator == o.orchestrator && row.idempotencyKey == o.idempotencyKey
         && row.status == Active && row.releasedAt.None? && row.epoch == Count(s.claims, o.item) + 1
         && s'.txs[step.t].phase == Ended(Claimed(|s.claims|, row.epoch))
  {
    RowsAreOwn(steps);
    Reach(steps);
  }

  /** The limits alone decide at the count: over them the transaction is refused, otherwise it goes on. */
  lemma RefusedIffOverLimit(s: System, t: TxId, now: int, skipped: set<nat>, overLimit: bool, until: int)
    requires t in s.txs && s.txs[t].phase.CountRuns?
    ensures
      var p := Apply(s, Next(t, now, skipped, overLimit, until)).txs[t].phase;
      && (p == Ended(LimitReached) <==> overLimit) && (p.ReadEpoch? <==> !overLimit)
  {
  }

  // ------------------------------------------------ how a claim ends

  /** The claim is released by its own release, or by an expiry that finds its lease over. */
  predicate Stops(s: System, step: Step, id: nat)
    requires id < |s.claims|
  {
    || (step.ReleaseOne? && step.id == id)
    || (step.ExpireAll? && s.claims[id].leaseExpiresAt < step.at
        && (step.owner == None || step.owner == Some(s.claims[id].orchestrator)))
  }

  lemma StopsOnlySo(s: System, step: Step, id: nat)
    requires id < |s.claims|
    ensures id < |Apply(s, step).claims|
    ensures var c, c' := s.claims[id], Apply(s, step).claims[id];
      && (Live(c') <==> Live(c) && !Stops(s, step, id))
      && (Live(c) && Stops(s, step, id) ==>
            c' == c.(status := if step.ReleaseOne? then Released else Expired, releasedAt := Some(step.at)))
      && (!(Live(c) && Stops(s, step, id)) ==>
            c' == if Live(c) && step.RenewOne? && step.id == id then c.(leaseExpiresAt := step.until) else c)
  {
  }

  /** Over any steps: a claim that was live and is so no more was released under its own id, or expired when
      its lease was over. */
  lemma {:induction false} LiveUntilStopped(s: System, steps: seq<Step>, id: nat) returns (k: nat)
    requires id < |s.claims| && Live(s.claims[id])
    requires id < |Exec(s, steps).claims| ==> !Live(Exec(s, steps).claims[id])
    ensures k < |steps| && id < |Exec(s, steps[..k]).claims|
    ensures Live(Exec(s, steps[..k]).claims[id]) && Stops(Exec(s, steps[..k]), steps[k], id)
  {
    var front := steps[..|steps| - 1];
    if id < |Exec(s, front).claims| && Live(Exec(s, front).claims[id]) {
      k := |steps| - 1;
      StopsOnlySo(Exec(s, front), steps[k], id);
    } else {
      k := LiveUntilStopped(s, front, id);
      assert front[..k] == steps[..k];
    }
  }

  // ------------------------------------------------ keys outside the range of lock keys

  predicate KeysFit(o: Options) {
    IsLockKey(o.projectKey) && IsLockKey(o.hostKey)
  }

  predicate PastLocks(p: Phase) {
    p.TakeState? || p.FindExisting? || PastExisting(p)
  }

  predicate KeysChecked(x: Tx) {
    && (x.phase.TakeHost? ==> IsLockKey(x.opts.projectKey))
    && (PastLocks(x.phase) ==> KeysFit(x.opts))
  }

  ghost predicate KeysInv(s: System) {
    forall t :: t in s.txs ==> KeysChecked(s.txs[t])
  }

  lemma KeysAdvance(s: System, t: TxId, now: int, skipped: set<nat>, overLimit: bool, until: int)
    requires CanStep(s, t) && KeysChecked(s.txs[t])
    ensures var s' := Advance(s, t, now, skipped, overLimit, until);
      s'.txs.Keys == s.txs.Keys && KeysChecked(s'.txs[t]) && forall u :: u in s.txs && u != t ==> s'.txs[u] == s.txs[u]
  {
  }

  lemma KeysStep(s: System, step: Step)
    requires KeysInv(s)
    ensures KeysInv(Apply(s, step))
  {
    if step.Next? && CanStep(s, step.t) { KeysAdvance(s, step.t, step.now, step.skipped, step.overLimit, step.until); }
  }

  /** A transaction gets past its lock statements only if both keys are lock keys. */
  lemma {:induction false} KeysReach(steps: seq<Step>)
    ensures KeysInv(Exec(EMPTY, steps))
  {
    if steps != [] {
      KeysReach(steps[..|steps| - 1]);
      KeysStep(Exec(EMPTY, steps[..|steps| - 1]), steps[|steps| - 1]);
    }
  }

  /** All that can become of a transaction without a lock key: it waits or throws before it has taken its
      locks, or it repeats a claim made before with the same idempotency key. */
  predicate Barred(claims: Claims, x: Tx) {
    match x.phase
    case FindIdempotent | TakeGlobal | TakeProject | TakeHost => true
    case Ended(Threw) => true
    case Ended(Claimed(id, epoch)) =>
      && id < |claims| && claims[id].item == x.opts.item && claims[id].epoch == epoch
      && x.opts.idempotencyKey.Some? && claims[id].idempotencyKey == x.opts.idempotencyKey
    case _ => false
  }

  ghost predicate BarredInv(s: System) {
    forall t :: t in s.txs && !KeysFit(s.txs[t].opts) ==> Barred(s.claims, s.txs[t])
  }

  lemma BarredAdvance(s: System, t: TxId, now: int, skipped: set<nat>, overLimit: bool, until: int)
    requires CanStep(s, t) && !KeysFit(s.txs[t].opts) && KeysChecked(s.txs[t]) && Barred(s.claims, s.txs[t])
    ensures var s' := Advance(s, t, now, skipped, overLimit, until);
      && s'.claims == s.claims && Barred(s'.claims, s'.txs[t])
      && (s'.txs[t].phase.Ended? && s'.txs[t].phase.result.Claimed? ==>
            var id := s'.txs[t].phase.result.id;
            id < |s.claims| && Reusable(s.claims[id], s.txs[t].opts, now))
  {
  }

  /** The columns that no statement rewrites. */
  predicate SameRows(a: Claims, b: Claims) {
    |a| <= |b| && forall i :: 0 <= i < |a| ==>
      b[i].item == a[i].item && b[i].epoch == a[i].epoch && b[i].idempotencyKey == a[i].idempotencyKey
  }

  lemma StepKeepsRows(s: System, step: Step)
    ensures SameRows(s.claims, Apply(s, step).claims)
  {
  }

  lemma BarredStep(s: System, step: Step)
    requires KeysInv(s) && BarredInv(s)
    ensures BarredInv(Apply(s, step))
  {
    StepKeepsRows(s, step);
    var s' := Apply(s, step);
    forall t | t in s'.txs && !KeysFit(s'.txs[t].opts) ensures Barred(s'.claims, s'.txs[t]) {
      if step.Next? && CanStep(s, step.t) {
        KeysAdvance(s, step.t, step.now, step.skipped, step.overLimit, step.until);
        if t == step.t { BarredAdvance(s, t, step.now, step.skipped, step.overLimit, step.until); }
      }
    }
  }

  lemma {:induction false} BarredReach(steps: seq<Step>)
    ensures BarredInv(Exec(EMPTY, steps))
  {
    if steps != [] {
      BarredReach(steps[..|steps| - 1]);
      KeysReach(steps[..|steps| - 1]);
      BarredStep(Exec(EMPTY, steps[..|steps| - 1]), steps[|steps| - 1]);
    }
  }

  /** In any mix of callers, one whose project or host has no lock key never adds a claim. If it is told of
      one nevertheless, then of an unexpired one with its own idempotency key that was there before. */
  lemma NoClaimWithoutLockKey(steps: seq<Step>, t: TxId, now: int, skipped: set<nat>, overLimit: bool, until: int)
    requires var s := Exec(EMPTY, steps); CanStep(s, t) && !KeysFit(s.txs[t].opts)
    ensures var s := Exec(EMPTY, steps);
      var s' := Apply(s, Next(t, now, skipped, overLimit, until));
      && s'.claims == s.claims && Barred(s'.claims, s'.txs[t])
      && (s'.txs[t].phase.Ended? && s'.txs[t].phase.result.Claimed? ==>
            var id := s'.txs[t].phase.result.id;
            id < |s.claims| && Reusable(s.claims[id], s.txs[t].opts, now))
  {
    KeysReach(steps);
    BarredReach(steps);
    BarredAdvance(Exec(EMPTY, steps), t, now, skipped, overLimit, until);
  }

  /** So each claim is added by a caller with lock keys. */
  lemma ClaimsNeedLockKeys(steps: seq<Step>, step: Step)
    requires |Apply(Exec(EMPTY, steps), step).claims| > |Exec(EMPTY, steps).claims|
    ensures step.Next? && step.t in Exec(EMPTY, steps).txs && KeysFit(Exec(EMPTY, steps).txs[step.t].opts)
  {
    KeysReach(steps);
  }

  /** A locked live row can slip past the check, and then it is the index that refuses: the caller
      gets an exception where it would have been told that the item is already claimed. */
  lemma SkippedRowThrows(s: System, t: TxId, id: nat, at: int, until: int)
    requires t in s.txs && s.txs[t].phase.FindExisting?
    requires id < |s.claims| && LiveFor(s.claims[id], s.txs[t].opts.item) && OneLive(s.claims)
    ensures var s1 := Apply(s, Next(t, at, {id}, false, until));
      var s2 := Apply(Apply(s1, Next(t, at, {}, false, until)), Next(t, at, {}, false, until));
      var s3 := Apply(s2, Next(t, at, {}, false, until));
      && s3.txs[t].phase == Ended(Threw) && s3.claims == s.claims
      && Apply(s, Next(t, at, {}, false, until)).txs[t].phase == Ended(AlreadyClaimed)
  {
    assert HasLive(s.claims, s.txs[t].opts.item, {});
    assert !HasLive(s.claims, s.txs[t].opts.item, {id});
    var s1 := Apply(s, Next(t, at, {id}, false, until));
    assert s1.txs[t].phase.CountRuns?;
    var s2 := Apply(s1, Next(t, at, {}, false, until));
    assert s2.txs[t].phase.ReadEpoch?;
    var s3 := Apply(s2, Next(t, at, {}, false, until));
    assert s3.txs[t].phase.Insert? && s3.claims == s.claims && s3.txs[t].opts == s.txs[t].opts;
  }
}
