/** Enrollment by token (src/tmux-worker/enrollment-ssh-server.ts): validation reads the token row without a
    lock; the increment and the insert of the connection share one transaction. Any number of enrollments
    interleave. The increment locks the token row until its transaction ends. */
module Enrollment {
  import opened Wrappers

  type TokenId = nat
  type EnrollId = nat

  datatype Token = Token(maxUses: Option<nat>, uses: nat, expiresAt: Option<int>)

  datatype Phase =
    | Validated(token: TokenId, readAt: int)              // read the row and found it good
    | Counted(token: TokenId, readAt: int, at: int)       // incremented, holding the row lock
    | Inserted(token: TokenId, readAt: int, at: int)      // and inserted the connection, still holding it
    | Accepted(token: TokenId)
    | Dropped(token: TokenId)                             // rejected, as telling the subscribers threw after the commit
    | Rejected

  /** A committed connection, with the times at which its token was read and counted (auxiliary). */
  datatype Connection = Connection(e: EnrollId, token: TokenId, readAt: int, countedAt: int)

  /** `tokens` and `connections` are committed; `lock` maps a token row to the transaction that holds it. */
  datatype System = System(
    tokens: map<TokenId, Token>, connections: seq<Connection>,
    lock: map<TokenId, EnrollId>, phases: map<EnrollId, Phase>)

  datatype Step =
    | Validate(e: EnrollId, token: TokenId, now: int)
    | Increment(e: EnrollId, now: int)
    | InsertConnection(e: EnrollId, fails: bool)
    | Commit(e: EnrollId, fails: bool, throws: bool)      // and tell the subscribers, with no await in between

  function Init(tokens: map<TokenId, Token>): System {
    System(tokens, [], map[], map[])
  }

  /** validateEnrollmentToken. */
  predicate Acceptable(tokens: map<TokenId, Token>, token: TokenId, now: int) {
    && token in tokens
    && (tokens[token].expiresAt.Some? ==> tokens[token].expiresAt.value >= now)
    && (tokens[token].maxUses.Some? ==> tokens[token].uses < tokens[token].maxUses.value)
  }

  /** SET uses = uses + 1. */
  function Used(tokens: map<TokenId, Token>, token: TokenId): map<TokenId, Token>
    requires token in tokens
  {
    tokens[token := tokens[token].(uses := tokens[token].uses + 1)]
  }

  function Goto(s: System, e: EnrollId, p: Phase): System {
    s.(phases := s.phases[e := p])
  }

  function Unlock(s: System, token: TokenId): System {
    s.(lock := s.lock - {token})
  }

  /** The transaction ends without effect. */
  function Rollback(s: System, e: EnrollId, token: TokenId): System {
    Goto(Unlock(s, token), e, Rejected)
  }

  predicate Enabled(s: System, step: Step) {
    match step
    case Validate(e, _, _) => e !in s.phases
    case Increment(e, _) => e in s.phases && s.phases[e].Validated? && s.phases[e].token !in s.lock
    case InsertConnection(e, _) => e in s.phases && s.phases[e].Counted?
    case Commit(e, _, _) => e in s.phases && s.phases[e].Inserted?
  }

  function Apply(s: System, step: Step): System {
    if !Enabled(s, step) then s
    else
      match step
      case Validate(e, token, now) => Goto(s, e, if Acceptable(s.tokens, token, now) then Validated(token, now) else Rejected)
      case Increment(e, now) =>
        var t := s.phases[e].token;
        if t in s.tokens && (s.tokens[t].maxUses.Some? ==> s.tokens[t].uses < s.tokens[t].maxUses.value)
        then Goto(s.(lock := s.lock[t := e]), e, Counted(t, s.phases[e].readAt, now))
        else Goto(s, e, Rejected)
      case InsertConnection(e, fails) =>
        var t := s.phases[e].token;
        if fails then Rollback(s, e, t) else Goto(s, e, Inserted(t, s.phases[e].readAt, s.phases[e].at))
      case Commit(e, fails, throws) =>
        var t := s.phases[e].token;
        if fails || t !in s.tokens then Rollback(s, e, t)
        else
          Goto(Unlock(s, t), e, if throws then Dropped(t) else Accepted(t)).(
            tokens := Used(s.tokens, t),
            connections := s.connections + [Connection(e, t, s.phases[e].readAt, s.phases[e].at)])
  }

  function Exec(tokens: map<TokenId, Token>, steps: seq<Step>): System {
    if steps == [] then Init(tokens) else Apply(Exec(tokens, steps[..|steps| - 1]), steps[|steps| - 1])
  }

  // ---------------------------------------------------------------- what every run keeps

  /** Connections committed through a token. */
  function Through(connections: seq<Connection>, t: TokenId): nat {
    if connections == [] then 0
    else Through(connections[..|connections| - 1], t) + if connections[|connections| - 1].token == t then 1 else 0
  }

  predicate InTransaction(p: Phase) {
    p.Counted? || p.Inserted?
  }

  ghost predicate Locks(s: System) {
    && (forall t :: t in s.lock ==> s.lock[t] in s.phases && InTransaction(s.phases[s.lock[t]]) && s.phases[s.lock[t]].token == t)
    && (forall e :: e in s.phases && InTransaction(s.phases[e]) ==> s.phases[e].token in s.lock && s.lock[s.phases[e].token] == e)
    && (forall t :: t in s.lock ==> t in s.tokens && (s.tokens[t].maxUses.Some? ==> s.tokens[t].uses < s.tokens[t].maxUses.value))
  }

  ghost predicate Accounts(start: map<TokenId, Token>, s: System) {
    && s.tokens.Keys == start.Keys
    && (forall t :: t in start ==>
          && s.tokens[t].maxUses == start[t].maxUses
          && s.tokens[t].uses == start[t].uses + Through(s.connections, t)
          && (start[t].maxUses.Some? ==>
                s.tokens[t].uses <= if start[t].uses > start[t].maxUses.value then start[t].uses else start[t].maxUses.value))
  }

  /** An enrollment is accepted, or dropped after its commit, if and only if exactly one connection was
      committed for it. */
  ghost predicate OneEach(s: System) {
    && (forall i :: 0 <= i < |s.connections| ==> Committed(s, s.connections[i]))
    && (forall i, j :: 0 <= i < j < |s.connections| ==> s.connections[i].e != s.connections[j].e)
    && (forall e :: e in s.phases && PastCommit(s.phases[e]) ==> HasConnection(s, e))
  }

  predicate PastCommit(p: Phase) {
    p.Accepted? || p.Dropped?
  }

  predicate Committed(s: System, c: Connection) {
    c.e in s.phases && PastCommit(s.phases[c.e]) && s.phases[c.e].token == c.token
  }

  predicate HasConnection(s: System, e: EnrollId)
    requires e in s.phases && PastCommit(s.phases[e])
  {
    exists i :: 0 <= i < |s.connections| && s.connections[i].e == e && s.connections[i].token == s.phases[e].token
  }

  lemma StepKeepsLocks(s: System, step: Step)
    requires Locks(s)
    ensures Locks(Apply(s, step))
  {
  }

  lemma StepKeepsAccounts(start: map<TokenId, Token>, s: System, step: Step)
    requires Locks(s) && Accounts(start, s)
    ensures Accounts(start, Apply(s, step))
  {
    if step.Commit? && Enabled(s, step) {
      var t := s.phases[step.e].token;
      var p := s.phases[step.e];
      assert (s.connections + [Connection(step.e, t, p.readAt, p.at)])[..|s.connections|] == s.connections;
    }
  }

  lemma StepKeepsOneEach(s: System, step: Step)
    requires OneEach(s)
    ensures OneEach(Apply(s, step))
  {
    var s1 := Apply(s, step);
    if s1.connections == s.connections {
      forall i | 0 <= i < |s1.connections| ensures Committed(s1, s1.connections[i]) { assert Committed(s, s.connections[i]); }
      forall e | e in s1.phases && PastCommit(s1.phases[e]) ensures HasConnection(s1, e) { assert HasConnection(s, e); }
    } else {
      CommitKeepsOneEach(s, step.e, step.throws);
    }
  }

  lemma CommitKeepsOneEach(s: System, e: EnrollId, throws: bool)
    requires OneEach(s) && e in s.phases && s.phases[e].Inserted? && s.phases[e].token in s.tokens
    ensures OneEach(Apply(s, Commit(e, false, throws)))
  {
    var s1, c := Apply(s, Commit(e, false, throws)), Connection(e, s.phases[e].token, s.phases[e].readAt, s.phases[e].at);
    assert s1.connections == s.connections + [c];
    forall i | 0 <= i < |s1.connections| ensures Committed(s1, s1.connections[i]) {
      if i < |s.connections| { assert Committed(s, s.connections[i]); }
    }
    forall i | 0 <= i < |s.connections| ensures s.connections[i].e != e { assert Committed(s, s.connections[i]); }
    forall d | d in s1.phases && PastCommit(s1.phases[d]) ensures HasConnection(s1, d) {
      if d == e { assert s1.connections[|s.connections|] == c; } else { StillConnected(s, s1, d); }
    }
  }

  lemma StillConnected(s: System, s1: System, d: EnrollId)
    requires d in s.phases && PastCommit(s.phases[d]) && HasConnection(s, d)
    requires d in s1.phases && s1.phases[d] == s.phases[d] && s.connections <= s1.connections
    ensures HasConnection(s1, d)
  {
    var i :| 0 <= i < |s.connections| && s.connections[i].e == d && s.connections[i].token == s.phases[d].token;
    assert s1.connections[i] == s.connections[i];
  }

  /** Under any interleaving, however stale the validations: no token is used beyond its maximum (nor at all
      if it was beyond it already), and each use is one committed connection of one enrollment that got past its commit. */
  lemma {:induction false} UsesAreConnections(start: map<TokenId, Token>, steps: seq<Step>)
    ensures Locks(Exec(start, steps)) && Accounts(start, Exec(start, steps)) && OneEach(Exec(start, steps))
  {
    if steps != [] {
      var before, step := Exec(start, steps[..|steps| - 1]), steps[|steps| - 1];
      UsesAreConnections(start, steps[..|steps| - 1]);
      StepKeepsLocks(before, step);
      StepKeepsAccounts(start, before, step);
      StepKeepsOneEach(before, step);
    }
  }

  /** An enrollment that its client sees rejected has a connection all the same if and only if telling the
      subscribers threw. */
  lemma RejectedButEnrolled(start: map<TokenId, Token>, steps: seq<Step>, e: EnrollId)
    requires e in Exec(start, steps).phases && (Exec(start, steps).phases[e].Rejected? || Exec(start, steps).phases[e].Dropped?)
    ensures (exists c :: c in Exec(start, steps).connections && c.e == e) <==> Exec(start, steps).phases[e].Dropped?
  {
    UsesAreConnections(start, steps);
    var s := Exec(start, steps);
    if s.phases[e].Dropped? {
      assert HasConnection(s, e);
      var i :| 0 <= i < |s.connections| && s.connections[i].e == e && s.connections[i].token == s.phases[e].token;
      assert s.connections[i] in s.connections;
    } else {
      forall i | 0 <= i < |s.connections| ensures s.connections[i].e != e { assert Committed(s, s.connections[i]); }
    }
  }

  /** Statements an enrollment still has to run. */
  function Left(p: Phase): nat {
    match p
    case Validated(_, _) => 3
    case Counted(_, _, _) => 2
    case Inserted(_, _, _) => 1
    case _ => 0
  }

  /** An enrollment that waits, waits for a transaction that can go on; so some step is always possible. */
  lemma NobodyWaitsForever(start: map<TokenId, Token>, steps: seq<Step>, e: EnrollId) returns (step: Step)
    requires e in Exec(start, steps).phases && Left(Exec(start, steps).phases[e]) > 0
    ensures
      var s := Exec(start, steps);
      && Enabled(s, step) && !step.Validate?
      && (step.e == e || (s.phases[e].Validated? && s.phases[e].token in s.lock && s.lock[s.phases[e].token] == step.e))
      && step.e in Apply(s, step).phases && step.e in s.phases
      && Left(Apply(s, step).phases[step.e]) < Left(s.phases[step.e])
  {
    UsesAreConnections(start, steps);
    var s := Exec(start, steps);
    var d := if s.phases[e].Validated? && s.phases[e].token in s.lock then s.lock[s.phases[e].token] else e;
    step := if s.phases[d].Validated? then Increment(d, 0)
            else if s.phases[d].Counted? then InsertConnection(d, false) else Commit(d, false, false);
  }

  /** An enrollment with nothing in between is accepted exactly if its token is there, alive and not used up,
      and neither statement of the transaction nor the subscribers fail. */
  lemma AloneIsAccepted(s: System, e: EnrollId, t: TokenId, now: int, insertFails: bool, commitFails: bool, throws: bool)
    requires e !in s.phases && t !in s.lock
    ensures
      var s' := Apply(Apply(Apply(Apply(s, Validate(e, t, now)), Increment(e, now)), InsertConnection(e, insertFails)),
                      Commit(e, commitFails, throws));
      var good := && t in s.tokens && (s.tokens[t].expiresAt.Some? ==> now <= s.tokens[t].expiresAt.value)
                  && (s.tokens[t].maxUses.Some? ==> s.tokens[t].uses + 1 <= s.tokens[t].maxUses.value);
      && e in s'.phases && (s'.phases[e].Accepted? <==> good && !insertFails && !commitFails && !throws)
      && s'.connections == if good && !insertFails && !commitFails then s.connections + [Connection(e, t, now, now)] else s.connections
  {
  }

  // ---------------------------------------------------------------- expiry

  predicate Alive(tokens: map<TokenId, Token>, token: TokenId, at: int) {
    token in tokens && (tokens[token].expiresAt.Some? ==> at <= tokens[token].expiresAt.value)
  }

  /** Every token was alive when it was read. */
  ghost predicate ReadAlive(start: map<TokenId, Token>, s: System) {
    && s.tokens.Keys == start.Keys && (forall t :: t in start ==> s.tokens[t].expiresAt == start[t].expiresAt)
    && (forall e :: e in s.phases && !PastCommit(s.phases[e]) && !s.phases[e].Rejected? ==>
          Alive(start, s.phases[e].token, s.phases[e].readAt))
    && (forall i :: 0 <= i < |s.connections| ==> Alive(start, s.connections[i].token, s.connections[i].readAt))
  }

  lemma StepKeepsReadAlive(start: map<TokenId, Token>, s: System, step: Step)
    requires ReadAlive(start, s)
    ensures ReadAlive(start, Apply(s, step))
  {
  }

  lemma {:induction false} ReadsAreAlive(start: map<TokenId, Token>, steps: seq<Step>)
    ensures ReadAlive(start, Exec(start, steps))
  {
    if steps != [] {
      ReadsAreAlive(start, steps[..|steps| - 1]);
      StepKeepsReadAlive(start, Exec(start, steps[..|steps| - 1]), steps[|steps| - 1]);
    }
  }

  /** A committed use comes after the expiry of its token if and only if the token expired between the
      read and the increment, which does not look at the time. */
  lemma LateUseIff(start: map<TokenId, Token>, steps: seq<Step>, i: nat)
    requires i < |Exec(start, steps).connections|
    ensures
      var c := Exec(start, steps).connections[i];
      && c.token in start
      && (!Alive(start, c.token, c.countedAt) <==>
            && start[c.token].expiresAt.Some?
            && c.readAt <= start[c.token].expiresAt.value < c.countedAt)
  {
    ReadsAreAlive(start, steps);
  }

  /** And it does come late whenever the increment does: for every acceptable token and every later time. */
  lemma LateUse(start: map<TokenId, Token>, t: TokenId, e: EnrollId, readAt: int, at: int) returns (steps: seq<Step>)
    requires Acceptable(start, t, readAt) && !Alive(start, t, at)
    ensures Exec(start, steps).connections == [Connection(e, t, readAt, at)]
    ensures Exec(start, steps).tokens == Used(start, t)
  {
    var s1 := One(start, [], Validate(e, t, readAt));
    var s2 := One(start, [] + [Validate(e, t, readAt)], Increment(e, at));
    var s3 := One(start, [] + [Validate(e, t, readAt)] + [Increment(e, at)], InsertConnection(e, false));
    steps := [] + [Validate(e, t, readAt)] + [Increment(e, at)] + [InsertConnection(e, false)];
    var s4 := One(start, steps, Commit(e, false, false));
    steps := steps + [Commit(e, false, false)];
    assert [] + [Connection(e, t, readAt, at)] == [Connection(e, t, readAt, at)];
  }

  lemma One(start: map<TokenId, Token>, steps: seq<Step>, step: Step) returns (s: System)
    ensures s == Exec(start, steps + [step]) == Apply(Exec(start, steps), step)
    ensures Exec(start, []) == Init(start)
  {
    assert (steps + [step])[..|steps|] == steps;
    s := Exec(start, steps + [step]);
  }

  // ---------------------------------------------------------------- failed attempts of one address

  const MAX_FAILED_ATTEMPTS := 5
  const RATE_LIMIT_WINDOW_MS := 60_000

  datatype Attempts = Attempts(count: nat, lastAttempt: int)

  datatype Event = Fail(at: int) | Clear(at: int) | Ask(at: int) | CleanUp(at: int)

  predicate Stale(a: Attempts, now: int) {
    now - a.lastAttempt > RATE_LIMIT_WINDOW_MS
  }

  function AfterFailure(a: Option<Attempts>, now: int): Attempts {
    if a.Some? && now - a.value.lastAttempt < RATE_LIMIT_WINDOW_MS then Attempts(a.value.count + 1, now) else Attempts(1, now)
  }

  /** Asking and the periodic clean-up both drop a stale entry. */
  function DropStale(a: Option<Attempts>, now: int): Option<Attempts> {
    if a.Some? && Stale(a.value, now) then None else a
  }

  predicate IsLimited(a: Option<Attempts>, now: int) {
    a.Some? && !Stale(a.value, now) && a.value.count >= MAX_FAILED_ATTEMPTS
  }

  function ApplyEvent(a: Option<Attempts>, e: Event): Option<Attempts> {
    match e
    case Fail(at) => Some(AfterFailure(a, at))
    case Clear(_) => None
    case Ask(at) => DropStale(a, at)
    case CleanUp(at) => DropStale(a, at)
  }

  function EntryAfter(events: seq<Event>): Option<Attempts> {
    if events == [] then None else ApplyEvent(EntryAfter(events[..|events| - 1]), events[|events| - 1])
  }

  /** The last failure that no success has cleared. */
  function LastFailure(events: seq<Event>): Option<int> {
    if events == [] then None
    else
      match events[|events| - 1]
      case Fail(at) => Some(at)
      case Clear(_) => None
      case _ => LastFailure(events[..|events| - 1])
  }

  /** Length of the latest run of failures, each less than a window after the one before. */
  function Run(events: seq<Event>): nat {
    if events == [] then 0
    else
      var front := events[..|events| - 1];
      match events[|events| - 1]
      case Fail(at) =>
        if LastFailure(front).Some? && at - LastFailure(front).value < RATE_LIMIT_WINDOW_MS then Run(front) + 1 else 1
      case Clear(_) => 0
      case _ => Run(front)
  }

  predicate InOrder(events: seq<Event>) {
    forall i, j :: 0 <= i < j < |events| ==> events[i].at <= events[j].at
  }

  /** Dropping entries is invisible: an address is limited if and only if its latest run has five failures
      and the last is at most a window ago. */
  lemma LimitedByRun(events: seq<Event>, now: int)
    requires InOrder(events) && forall e :: e in events ==> e.at <= now
    ensures IsLimited(EntryAfter(events), now) <==>
      Run(events) >= MAX_FAILED_ATTEMPTS && LastFailure(events).Some? && now - LastFailure(events).value <= RATE_LIMIT_WINDOW_MS
  {
    EntryMeans(events, now);
  }

  lemma {:induction false} EntryMeans(events: seq<Event>, now: int)
    requires InOrder(events) && forall e :: e in events ==> e.at <= now
    ensures EntryAfter(events).Some? ==>
      LastFailure(events) == Some(EntryAfter(events).value.lastAttempt) && Run(events) == EntryAfter(events).value.count
    ensures EntryAfter(events).None? && LastFailure(events).Some? ==> now - LastFailure(events).value > RATE_LIMIT_WINDOW_MS
  {
    if events != [] {
      var front, last := events[..|events| - 1], events[|events| - 1];
      forall e | e in front ensures e.at <= last.at {
        var i :| 0 <= i < |front| && front[i] == e;
        assert events[i] == e;
      }
      assert last in events;
      EntryMeans(front, last.at);
    }
  }

  /** Attempts that are still being validated are not counted: however many have been checked since, an
      address is limited exactly if it was by the failures recorded before. */
  lemma ChecksAreNotCounted(events: seq<Event>, checks: seq<Event>, now: int)
    requires InOrder(events + checks) && forall e :: e in events + checks ==> e.at <= now
    requires forall e :: e in checks ==> e.Ask?
    ensures IsLimited(EntryAfter(events + checks), now) <==> IsLimited(EntryAfter(events), now)
  {
    var all := events + checks;
    assert forall i :: 0 <= i < |events| ==> all[i] == events[i];
    LimitedByRun(all, now);
    LimitedByRun(events, now);
    SameRun(events, checks);
  }

  lemma {:induction false} SameRun(events: seq<Event>, checks: seq<Event>)
    requires forall e :: e in checks ==> e.Ask?
    ensures Run(events + checks) == Run(events) && LastFailure(events + checks) == LastFailure(events)
  {
    if checks == [] {
      assert events + checks == events;
    } else {
      var front, last := checks[..|checks| - 1], checks[|checks| - 1];
      assert last in checks && forall e :: e in front ==> e in checks;
      SameRun(events, front);
      assert (events + checks)[..|events + checks| - 1] == events + front;
    }
  }

  // ---------------------------------------------------------------- the server

  type Ip = string

  class EnrollmentServer {
    var tokens: map<TokenId, Token>
    var connections: seq<Connection>
    var failedAuthAttempts: map<Ip, Attempts>

    constructor (tokens: map<TokenId, Token>)
      ensures this.tokens == tokens && connections == [] && failedAuthAttempts == map[]
    {
      this.tokens, connections, failedAuthAttempts := tokens, [], map[];
    }

    function EntryOf(ip: Ip): Option<Attempts>
      reads this
    {
      if ip in failedAuthAttempts then Some(failedAuthAttempts[ip]) else None
    }

    method IsRateLimited(ip: Ip, now: int) returns (limited: bool)
      modifies this`failedAuthAttempts
      ensures limited <==> IsLimited(old(EntryOf(ip)), now)
      ensures EntryOf(ip) == ApplyEvent(old(EntryOf(ip)), Ask(now))
      ensures forall other :: other != ip ==> EntryOf(other) == old(EntryOf(other))
    {
      if ip !in failedAuthAttempts { return false; }
      var entry := failedAuthAttempts[ip];
      if now - entry.lastAttempt > RATE_LIMIT_WINDOW_MS {
        failedAuthAttempts := failedAuthAttempts - {ip};
        return false;
      }
      return entry.count >= MAX_FAILED_ATTEMPTS;
    }

    method RecordFailedAttempt(ip: Ip, now: int)
      modifies this`failedAuthAttempts
      ensures EntryOf(ip) == ApplyEvent(old(EntryOf(ip)), Fail(now))
      ensures forall other :: other != ip ==> EntryOf(other) == old(EntryOf(other))
    {
      if ip in failedAuthAttempts && now - failedAuthAttempts[ip].lastAttempt < RATE_LIMIT_WINDOW_MS {
        failedAuthAttempts := failedAuthAttempts[ip := Attempts(failedAuthAttempts[ip].count + 1, now)];
      } else {
        failedAuthAttempts := failedAuthAttempts[ip := Attempts(1, now)];
      }
    }

    method ClearRateLimit(ip: Ip)
      modifies this`failedAuthAttempts
      ensures EntryOf(ip).None?
      ensures forall other :: other != ip ==> EntryOf(other) == old(EntryOf(other))
    {
      failedAuthAttempts := failedAuthAttempts - {ip};
    }

    /** The password handler with nothing in between. It accepts if and only if the user name is right, the
        address is not limited, the token is acceptable, the transaction goes through and telling the
        subscribers (`throws`) does not throw; in the last case the connection is committed already. */
    method Authenticate(e: EnrollId, ip: Ip, isEnroll: bool, token: TokenId, now: int, fails: bool, throws: bool)
      returns (accepted: bool)
      modifies this
      ensures Acceptable(old(tokens), token, now) <==>
        && token in old(tokens)
        && (old(tokens)[token].expiresAt == None || now <= old(tokens)[token].expiresAt.value)
        && (old(tokens)[token].maxUses == None || old(tokens)[token].uses + 1 <= old(tokens)[token].maxUses.value)
      ensures
        var valid := isEnroll && !IsLimited(old(EntryOf(ip)), now) && Acceptable(old(tokens), token, now);
        && (accepted <==> valid && !fails && !throws)
        && tokens == (if valid && !fails then Used(old(tokens), token) else old(tokens))
        && connections == (if valid && !fails then old(connections) + [Connection(e, token, now, now)] else old(connections))
        && (valid ==> EntryOf(ip).None?)
      ensures !isEnroll ==> EntryOf(ip) == Some(AfterFailure(old(EntryOf(ip)), now))
      ensures isEnroll && IsLimited(old(EntryOf(ip)), now) ==> EntryOf(ip) == old(EntryOf(ip))
      ensures isEnroll && !IsLimited(old(EntryOf(ip)), now) && !Acceptable(old(tokens), token, now) ==>
        EntryOf(ip) == Some(AfterFailure(old(EntryOf(ip)), now))
      ensures forall other :: other != ip ==> EntryOf(other) == old(EntryOf(other))
    {
      if !isEnroll {
        RecordFailedAttempt(ip, now);
        return false;
      }
      var limited := IsRateLimited(ip, now);
      if limited { return false; }
      if !Acceptable(tokens, token, now) {
        RecordFailedAttempt(ip, now);
        return false;
      }
      ClearRateLimit(ip);
      var done := Register(e, token, now, fails);
      accepted := done && !throws;
    }

    /** The transaction: guarded increment and insert, both or neither. */
    method Register(e: EnrollId, token: TokenId, now: int, fails: bool) returns (done: bool)
      modifies this`tokens, this`connections
      ensures done <==>
        && token in old(tokens) && !fails
        && (old(tokens)[token].maxUses.Some? ==> old(tokens)[token].uses < old(tokens)[token].maxUses.value)
      ensures tokens == if done then Used(old(tokens), token) else old(tokens)
      ensures done ==> tokens == old(tokens)[token := old(tokens)[token].(uses := old(tokens)[token].uses + 1)]
      ensures connections == if done then old(connections) + [Connection(e, token, now, now)] else old(connections)
    {
      var tokens0, connections0 := tokens, connections;
      if token !in tokens || (tokens[token].maxUses.Some? && tokens[token].uses >= tokens[token].maxUses.value) {
        return false;
      }
      tokens := Used(tokens, token);
      connections := connections + [Connection(e, token, now, now)];
      if fails {
        tokens, connections := tokens0, connections0;
        return false;
      }
      return true;
    }
  }
}
