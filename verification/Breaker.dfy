/** CircuitBreaker (src/symphony-worker/retry.ts), restoring persisted state aside. Times are
    parameters. */
module Breaker {
  import opened Sets

  datatype Circuit = Closed | Open | HalfOpen
  datatype Config = Config(failureThreshold: nat, recoveryMs: int, successThreshold: nat)
  datatype State = State(circuit: Circuit, failures: nat, successes: nat, probe: bool, since: int)

  /** A request is identified by the place of its isAllowed in the history; a report says which request it
      is of, which the code does not look at. */
  type Request = nat

  datatype Event = IsAllowed(now: int) | Success(of: Request, now: int) | Failure(of: Request, now: int)

  predicate Sensible(c: Config) {
    c.failureThreshold >= 1 && c.successThreshold >= 1
  }

  function Init(now: int): State {
    State(Closed, 0, 0, false, now)
  }

  function Goto(s: State, circuit: Circuit, now: int): State {
    s.(circuit := circuit, since := now)
  }

  /** Whether a request is let through, and the state after asking. */
  function Ask(c: Config, s: State, asked: int, now: int): (bool, State) {
    match s.circuit
    case Closed => (true, s)
    case Open => if asked - s.since >= c.recoveryMs then (true, Goto(s, HalfOpen, now).(probe := true)) else (false, s)
    case HalfOpen => if s.probe then (false, s) else (true, s.(probe := true))
  }

  function Succeed(c: Config, s: State, now: int): State {
    match s.circuit
    case HalfOpen =>
      var s1 := s.(probe := false, successes := s.successes + 1);
      if s1.successes >= c.successThreshold then Goto(s1, Closed, now).(failures := 0, successes := 0) else s1
    case Closed => s.(failures := 0, successes := 0)
    case Open => s
  }

  function Fail(c: Config, s: State, now: int): State {
    match s.circuit
    case Closed =>
      var s1 := s.(failures := s.failures + 1);
      if s1.failures >= c.failureThreshold then Goto(s1, Open, now) else s1
    case HalfOpen => Goto(s.(probe := false), Open, now).(successes := 0)
    case Open => s
  }

  function Apply(c: Config, s: State, e: Event): State {
    match e
    case IsAllowed(now) => Ask(c, s, now, now).1
    case Success(_, now) => Succeed(c, s, now)
    case Failure(_, now) => Fail(c, s, now)
  }

  function Exec(c: Config, start: int, events: seq<Event>): State {
    if events == [] then Init(start) else Apply(c, Exec(c, start, events[..|events| - 1]), events[|events| - 1])
  }

  /** Whether the last event of a history was a request that was let through. */
  predicate Admitted(c: Config, start: int, events: seq<Event>) {
    events != [] && events[|events| - 1].IsAllowed?
    && var now := events[|events| - 1].now;
       Ask(c, Exec(c, start, events[..|events| - 1]), now, now).0
  }

  // ---------------------------------------------------------------- measures of the history alone

  /** Failures reported since the last success. */
  function Streak(events: seq<Event>): nat {
    if events == [] then 0
    else
      match events[|events| - 1]
      case IsAllowed(_) => Streak(events[..|events| - 1])
      case Success(_, _) => 0
      case Failure(_, _) => Streak(events[..|events| - 1]) + 1
  }

  /** Requests let through since the last report. */
  function Outstanding(c: Config, start: int, events: seq<Event>): nat {
    if events == [] then 0
    else
      match events[|events| - 1]
      case IsAllowed(_) => Outstanding(c, start, events[..|events| - 1]) + if Admitted(c, start, events) then 1 else 0
      case _ => 0
  }

  /** The events after the circuit was last open. */
  function SinceOpen(c: Config, start: int, events: seq<Event>): seq<Event> {
    if events == [] || Exec(c, start, events).circuit.Open? then []
    else SinceOpen(c, start, events[..|events| - 1]) + [events[|events| - 1]]
  }

  function Successes(events: seq<Event>): nat {
    if events == [] then 0
    else Successes(events[..|events| - 1]) + if events[|events| - 1].Success? then 1 else 0
  }

  predicate NoFailure(events: seq<Event>) {
    forall e :: e in events ==> !e.Failure?
  }

  // ---------------------------------------------------------------- the state in terms of the history

  predicate Inv(c: Config, start: int, events: seq<Event>) {
    var s := Exec(c, start, events);
    Counters(c, s, Streak(events), Outstanding(c, start, events)) && Episode(c, s, SinceOpen(c, start, events))
  }

  predicate Counters(c: Config, s: State, streak: nat, outstanding: nat) {
    && (s.probe ==> s.circuit.HalfOpen?)
    && (s.circuit.Closed? ==> s.failures == streak < c.failureThreshold)
    && (!s.circuit.HalfOpen? ==> s.successes == 0)
    && (s.circuit.HalfOpen? ==> outstanding == if s.probe then 1 else 0)
    && (s.circuit.Open? ==> outstanding == 0)
  }

  predicate Episode(c: Config, s: State, since: seq<Event>) {
    s.circuit.HalfOpen? ==> NoFailure(since) && Successes(since) == s.successes < c.successThreshold
  }

  lemma {:induction false} History(c: Config, start: int, events: seq<Event>)
    requires Sensible(c)
    ensures Inv(c, start, events)
  {
    if events != [] {
      History(c, start, events[..|events| - 1]);
      StepKeepsInv(c, start, events[..|events| - 1], events[|events| - 1]);
      assert events == events[..|events| - 1] + [events[|events| - 1]];
    }
  }

  lemma StepKeepsInv(c: Config, start: int, events: seq<Event>, e: Event)
    requires Sensible(c) && Inv(c, start, events)
    ensures Inv(c, start, events + [e])
  {
    Unfold(c, start, events, e);
    var s, since := Exec(c, start, events), SinceOpen(c, start, events);
    CountersStep(c, s, e, Streak(events), Outstanding(c, start, events));
    EpisodeGrows(c, s, since, e);
    if s.circuit.Open? { OpenIsEmpty(c, start, events); }
    assert Episode(c, Apply(c, s, e), since + [e]);
  }

  lemma CountersStep(c: Config, s: State, e: Event, streak: nat, outstanding: nat)
    requires Sensible(c) && Counters(c, s, streak, outstanding)
    ensures Counters(c, Apply(c, s, e),
                     if e.IsAllowed? then streak else if e.Success? then 0 else streak + 1,
                     if e.IsAllowed? then outstanding + (if Ask(c, s, e.now, e.now).0 then 1 else 0) else 0)
  {
  }

  lemma OpenIsEmpty(c: Config, start: int, events: seq<Event>)
    requires Exec(c, start, events).circuit.Open?
    ensures SinceOpen(c, start, events) == []
  {
  }

  lemma EpisodeGrows(c: Config, s: State, since: seq<Event>, e: Event)
    requires Sensible(c) && Episode(c, s, since) && (s.circuit.Open? ==> s.successes == 0)
    ensures s.circuit.Open? && since == [] ==> Episode(c, Apply(c, s, e), since + [e])
    ensures !s.circuit.Open? ==> Episode(c, Apply(c, s, e), since + [e])
    ensures Successes(since + [e]) == Successes(since) + if e.Success? then 1 else 0
    ensures NoFailure(since + [e]) <==> NoFailure(since) && !e.Failure?
  {
    assert (since + [e])[..|since|] == since;
    assert forall x :: x in since + [e] <==> x in since || x == e;
  }

  lemma Unfold(c: Config, start: int, events: seq<Event>, e: Event)
    ensures
      var all := events + [e];
      && Exec(c, start, all) == Apply(c, Exec(c, start, events), e)
      && Streak(all) == (if e.IsAllowed? then Streak(events) else if e.Success? then 0 else Streak(events) + 1)
      && Outstanding(c, start, all) ==
          (if e.IsAllowed? then Outstanding(c, start, events) + (if Admitted(c, start, all) then 1 else 0) else 0)
      && (Admitted(c, start, all) <==> e.IsAllowed? && Ask(c, Exec(c, start, events), e.now, e.now).0)
      && SinceOpen(c, start, all) == if Exec(c, start, all).circuit.Open? then [] else SinceOpen(c, start, events) + [e]
  {
    assert (events + [e])[..|events|] == events;
  }

  // ---------------------------------------------------------------- what callers can rely on

  /** A closed circuit opens exactly when the failures in a row reach the threshold. */
  lemma OpensOnStreak(c: Config, start: int, events: seq<Event>, e: Event)
    requires Sensible(c) && Exec(c, start, events).circuit.Closed?
    ensures Exec(c, start, events + [e]).circuit.Open? <==> e.Failure? && Streak(events) + 1 == c.failureThreshold
    ensures !Exec(c, start, events + [e]).circuit.HalfOpen?
  {
    History(c, start, events);
    Unfold(c, start, events, e);
  }

  /** While half open, at most one request is let through between two reports; and with one out, none is,
      however long it takes: a probe that never reports blocks the circuit. */
  lemma OneProbe(c: Config, start: int, events: seq<Event>)
    requires Sensible(c) && Exec(c, start, events).circuit.HalfOpen?
    ensures Outstanding(c, start, events) <= 1
    ensures Outstanding(c, start, events) == 1 <==> forall now :: !Admitted(c, start, events + [IsAllowed(now)])
  {
    History(c, start, events);
    forall now ensures Admitted(c, start, events + [IsAllowed(now)]) <==> Outstanding(c, start, events) == 0 {
      Unfold(c, start, events, IsAllowed(now));
    }
    Unfold(c, start, events, IsAllowed(0));
  }

  lemma {:induction false} LostProbeBlocks(c: Config, start: int, events: seq<Event>, asks: seq<Event>)
    requires Sensible(c) && Exec(c, start, events).circuit.HalfOpen? && Outstanding(c, start, events) == 1
    requires forall e :: e in asks ==> e.IsAllowed?
    ensures Exec(c, start, events + asks) == Exec(c, start, events)
    ensures Outstanding(c, start, events + asks) == 1
  {
    if asks == [] {
      assert events + asks == events;
    } else {
      var front, last := asks[..|asks| - 1], asks[|asks| - 1];
      assert last in asks && forall e :: e in front ==> e in asks;
      LostProbeBlocks(c, start, events, front);
      BlockedAsk(c, start, events + front, last);
      assert events + asks == events + front + [last];
    }
  }

  lemma BlockedAsk(c: Config, start: int, events: seq<Event>, e: Event)
    requires Sensible(c) && Exec(c, start, events).circuit.HalfOpen? && Outstanding(c, start, events) == 1 && e.IsAllowed?
    ensures Exec(c, start, events + [e]) == Exec(c, start, events) && Outstanding(c, start, events + [e]) == 1
  {
    History(c, start, events);
    Unfold(c, start, events, e);
  }

  /** An open circuit closes through half open only, with exactly the required successes reported since it
      was last open, the last of them just now, and no failure among them. */
  lemma ClosesOnSuccesses(c: Config, start: int, events: seq<Event>, e: Event)
    requires Sensible(c) && !Exec(c, start, events).circuit.Closed?
    ensures
      Exec(c, start, events + [e]).circuit.Closed? <==>
        && Exec(c, start, events).circuit.HalfOpen? && e.Success?
        && Successes(SinceOpen(c, start, events)) + 1 == c.successThreshold
    ensures
      Exec(c, start, events + [e]).circuit.Closed? ==>
        && NoFailure(SinceOpen(c, start, events + [e]))
        && Successes(SinceOpen(c, start, events + [e])) == c.successThreshold
  {
    History(c, start, events);
    Unfold(c, start, events, e);
    ClosesStep(c, Exec(c, start, events), SinceOpen(c, start, events), e);
  }

  lemma ClosesStep(c: Config, s: State, since: seq<Event>, e: Event)
    requires Sensible(c) && !s.circuit.Closed? && Episode(c, s, since) && (s.circuit.Open? ==> s.successes == 0)
    ensures Apply(c, s, e).circuit.Closed? <==>
      s.circuit.HalfOpen? && e.Success? && Successes(since) + 1 == c.successThreshold
    ensures Apply(c, s, e).circuit.Closed? ==>
      NoFailure(since + [e]) && Successes(since + [e]) == c.successThreshold
  {
    EpisodeGrows(c, s, since, e);
  }

  /** An open circuit lets the first request through that asks once the recovery time is over, and no
      report changes it before. */
  lemma OpenUntilAsked(c: Config, start: int, events: seq<Event>, e: Event)
    requires Sensible(c) && Exec(c, start, events).circuit.Open?
    ensures
      var s := Exec(c, start, events);
      Exec(c, start, events + [e]) ==
        if e.IsAllowed? && e.now >= s.since + c.recoveryMs then s.(circuit := HalfOpen, probe := true, since := e.now) else s
    ensures Admitted(c, start, events + [e]) <==>
      e.IsAllowed? && e.now >= Exec(c, start, events).since + c.recoveryMs
  {
    Unfold(c, start, events, e);
  }

  // ---------------------------------------------------------------- one probe at a time

  /** Requests let through whose report has not come. */
  function Out(c: Config, start: int, events: seq<Event>): set<Request> {
    if events == [] then {}
    else
      var front, e := events[..|events| - 1], events[|events| - 1];
      if !e.IsAllowed? then Out(c, start, front) - {e.of}
      else if Admitted(c, start, events) then Out(c, start, front) + {|front|}
      else Out(c, start, front)
  }

  /** Those of them let through since the circuit was last open; meant while it is half open. */
  function Probes(c: Config, start: int, events: seq<Event>): set<Request> {
    set r | r in Out(c, start, events) && r >= |events| - |SinceOpen(c, start, events)|
  }

  /** The request let through last, and the requests reported since. */
  function Latest(c: Config, start: int, events: seq<Event>): Request {
    if events == [] then 0
    else if Admitted(c, start, events) then |events| - 1
    else Latest(c, start, events[..|events| - 1])
  }

  function ReportedSince(c: Config, start: int, events: seq<Event>): set<Request> {
    if events == [] || Admitted(c, start, events) then {}
    else
      var front, e := events[..|events| - 1], events[|events| - 1];
      ReportedSince(c, start, front) + if e.IsAllowed? then {} else {e.of}
  }

  /** At some point of the history two probes have been out at once. */
  predicate TwoOut(c: Config, start: int, events: seq<Event>) {
    events != [] &&
    (TwoOut(c, start, events[..|events| - 1])
     || (Exec(c, start, events).circuit.HalfOpen? && |Probes(c, start, events)| > 1))
  }

  /** At some point, while half open, reports of other requests had come since the last probe was let
      through, and none of that probe, when somebody asked. */
  predicate AskedAfterStray(c: Config, start: int, events: seq<Event>) {
    events != [] &&
    var front := events[..|events| - 1];
    (AskedAfterStray(c, start, front)
     || (events[|events| - 1].IsAllowed? && Exec(c, start, front).circuit.HalfOpen?
         && ReportedSince(c, start, front) != {} && Latest(c, start, front) !in ReportedSince(c, start, front)))
  }

  /** Half open, the flag says whether a report has come since the last probe; and short of two probes out
      at once only the last one can be out. */
  ghost predicate ProbeInv(c: Config, start: int, events: seq<Event>) {
    && (forall r :: r in Out(c, start, events) ==> r < |events|)
    && |SinceOpen(c, start, events)| <= |events|
    && Slot(Exec(c, start, events), Probes(c, start, events), Latest(c, start, events),
            ReportedSince(c, start, events), TwoOut(c, start, events))
  }

  ghost predicate Slot(s: State, probes: set<Request>, latest: Request, reported: set<Request>, two: bool) {
    s.circuit.HalfOpen? ==>
      && (s.probe <==> reported == {}) && (latest in probes <==> latest !in reported)
      && (!two ==> probes <= {latest})
  }

  lemma UnfoldProbes(c: Config, start: int, events: seq<Event>, e: Event)
    ensures
      var all := events + [e];
      var admitted := e.IsAllowed? && Ask(c, Exec(c, start, events), e.now, e.now).0;
      && Out(c, start, all) ==
          (if !e.IsAllowed? then Out(c, start, events) - {e.of}
           else if admitted then Out(c, start, events) + {|events|} else Out(c, start, events))
      && Latest(c, start, all) == (if admitted then |events| else Latest(c, start, events))
      && ReportedSince(c, start, all) ==
          (if admitted then {} else ReportedSince(c, start, events) + if e.IsAllowed? then {} else {e.of})
      && (TwoOut(c, start, all) <==>
            TwoOut(c, start, events) || (Exec(c, start, all).circuit.HalfOpen? && |Probes(c, start, all)| > 1))
      && (AskedAfterStray(c, start, all) <==>
            AskedAfterStray(c, start, events)
            || (e.IsAllowed? && Exec(c, start, events).circuit.HalfOpen?
                && ReportedSince(c, start, events) != {} && Latest(c, start, events) !in ReportedSince(c, start, events)))
  {
    Unfold(c, start, events, e);
    assert (events + [e])[..|events|] == events;
  }

  /** The probes after one more event, if the circuit is half open then. */
  lemma ProbesStep(c: Config, start: int, events: seq<Event>, e: Event)
    requires Sensible(c) && ProbeInv(c, start, events) && Exec(c, start, events + [e]).circuit.HalfOpen?
    ensures
      var s := Exec(c, start, events);
      var before := if s.circuit.HalfOpen? then Probes(c, start, events) else {};
      Probes(c, start, events + [e]) ==
        if !e.IsAllowed? then before - {e.of}
        else if Ask(c, s, e.now, e.now).0 then before + {|events|} else before
  {
    Unfold(c, start, events, e);
    UnfoldProbes(c, start, events, e);
    if Exec(c, start, events).circuit.Open? { OpenIsEmpty(c, start, events); }
  }

  lemma ProbeStep(c: Config, start: int, events: seq<Event>, e: Event)
    requires Sensible(c) && ProbeInv(c, start, events)
    requires TwoOut(c, start, events) <==> AskedAfterStray(c, start, events)
    ensures ProbeInv(c, start, events + [e])
    ensures TwoOut(c, start, events + [e]) <==> AskedAfterStray(c, start, events + [e])
  {
    Unfold(c, start, events, e);
    UnfoldProbes(c, start, events, e);
    if Exec(c, start, events + [e]).circuit.HalfOpen? {
      ProbesStep(c, start, events, e);
      var s, probes := Exec(c, start, events), Probes(c, start, events);
      var latest, reported, two := Latest(c, start, events), ReportedSince(c, start, events), TwoOut(c, start, events);
      if e.IsAllowed? {
        AskStep(c, s, probes, latest, reported, two, |events|, e.now);
      } else {
        ReportStep(s, probes, latest, reported, two, e.of);
      }
    }
  }

  /** Half open before and after. */
  lemma ReportStep(s: State, probes: set<Request>, latest: Request, reported: set<Request>, two: bool, of: Request)
    requires s.circuit.HalfOpen? && Slot(s, probes, latest, reported, two)
    ensures Slot(s.(probe := false), probes - {of}, latest, reported + {of}, two)
    ensures !two ==> |probes - {of}| <= 1
  {
    if !two { SubsetSize(probes - {of}, {latest}); }
  }

  lemma AskStep(c: Config, s: State, probes: set<Request>, latest: Request, reported: set<Request>, two: bool, n: nat, now: int)
    requires Slot(s, probes, latest, reported, two) && (forall r :: r in probes ==> r < n)
    requires Ask(c, s, now, now).1.circuit.HalfOpen?
    ensures
      var (admitted, s') := Ask(c, s, now, now);
      var before := if s.circuit.HalfOpen? then probes else {};
      var probes' := if admitted then before + {n} else before;
      && Slot(s', probes', if admitted then n else latest, if admitted then {} else reported, two || |probes'| > 1)
      && (!two ==> (|probes'| > 1 <==> s.circuit.HalfOpen? && reported != {} && latest !in reported))
  {
    if s.circuit.HalfOpen? && !two {
      assert probes == if latest in probes then {latest} else {};
      assert latest in probes ==> |probes + {n}| == 2;
      assert latest !in probes ==> probes + {n} == {n};
    }
  }

  /** Two probes are ever out at once if and only if, half open, a report of another request has stood in for
      that of the probe that is out, and then somebody asks. */
  lemma {:induction false} OneProbeUnlessStray(c: Config, start: int, events: seq<Event>)
    requires Sensible(c)
    ensures TwoOut(c, start, events) <==> AskedAfterStray(c, start, events)
    ensures ProbeInv(c, start, events)
  {
    if events != [] {
      var front, e := events[..|events| - 1], events[|events| - 1];
      OneProbeUnlessStray(c, start, front);
      ProbeStep(c, start, front, e);
      assert events == front + [e];
    }
  }

  /** Every report that comes while half open is of a probe that is out. */
  predicate OnlyProbesReport(c: Config, start: int, events: seq<Event>) {
    events != [] ==>
      var front, e := events[..|events| - 1], events[|events| - 1];
      && OnlyProbesReport(c, start, front)
      && (!e.IsAllowed? && Exec(c, start, front).circuit.HalfOpen? ==> e.of in Probes(c, start, front))
  }

  /** Then there is never more than one: only a request from before the opening that reports late, or a
      report without a request, lets a second probe out. */
  lemma {:induction false} OneProbeWithoutStragglers(c: Config, start: int, events: seq<Event>)
    requires Sensible(c) && OnlyProbesReport(c, start, events)
    ensures !TwoOut(c, start, events)
    ensures Exec(c, start, events).circuit.HalfOpen? ==> ReportedSince(c, start, events) <= {Latest(c, start, events)}
  {
    if events != [] {
      var front, e := events[..|events| - 1], events[|events| - 1];
      OneProbeWithoutStragglers(c, start, front);
      OneProbeUnlessStray(c, start, front);
      NoStragglerStep(c, start, front, e);
      assert events == front + [e];
    }
  }

  lemma NoStragglerStep(c: Config, start: int, events: seq<Event>, e: Event)
    requires Sensible(c) && ProbeInv(c, start, events) && !TwoOut(c, start, events)
    requires TwoOut(c, start, events) <==> AskedAfterStray(c, start, events)
    requires Exec(c, start, events).circuit.HalfOpen? ==> ReportedSince(c, start, events) <= {Latest(c, start, events)}
    requires !e.IsAllowed? && Exec(c, start, events).circuit.HalfOpen? ==> e.of in Probes(c, start, events)
    ensures !TwoOut(c, start, events + [e])
    ensures Exec(c, start, events + [e]).circuit.HalfOpen? ==>
      ReportedSince(c, start, events + [e]) <= {Latest(c, start, events + [e])}
  {
    ProbeStep(c, start, events, e);
    Unfold(c, start, events, e);
    UnfoldProbes(c, start, events, e);
  }

  /** The request that half-opens the circuit. */
  lemma FirstProbe(c: Config, start: int, events: seq<Event>, at: int)
    requires Sensible(c) && Exec(c, start, events).circuit.Open? && at >= Exec(c, start, events).since + c.recoveryMs
    ensures var s := Exec(c, start, events + [IsAllowed(at)]);
      s.circuit.HalfOpen? && s.successes == 0 && Probes(c, start, events + [IsAllowed(at)]) == {|events|}
  {
    History(c, start, events);
    OneProbeUnlessStray(c, start, events);
    Unfold(c, start, events, IsAllowed(at));
    ProbesStep(c, start, events, IsAllowed(at));
  }

  /** A success of a request that is no probe. */
  lemma StrayReport(c: Config, start: int, events: seq<Event>, stray: Request, now: int)
    requires Sensible(c) && Exec(c, start, events).circuit.HalfOpen? && stray !in Probes(c, start, events)
    requires Exec(c, start, events).successes + 1 < c.successThreshold
    ensures var s := Exec(c, start, events + [Success(stray, now)]);
      s.circuit.HalfOpen? && !s.probe && Probes(c, start, events + [Success(stray, now)]) == Probes(c, start, events)
  {
    OneProbeUnlessStray(c, start, events);
    Unfold(c, start, events, Success(stray, now));
    ProbesStep(c, start, events, Success(stray, now));
  }

  /** The next request. */
  lemma NextProbe(c: Config, start: int, events: seq<Event>, now: int)
    requires Sensible(c) && Exec(c, start, events).circuit.HalfOpen? && !Exec(c, start, events).probe
    ensures Admitted(c, start, events + [IsAllowed(now)]) && Exec(c, start, events + [IsAllowed(now)]).circuit.HalfOpen?
    ensures Probes(c, start, events + [IsAllowed(now)]) == Probes(c, start, events) + {|events|}
    ensures |Probes(c, start, events + [IsAllowed(now)])| > 1 ==> TwoOut(c, start, events + [IsAllowed(now)])
  {
    OneProbeUnlessStray(c, start, events);
    Unfold(c, start, events, IsAllowed(now));
    UnfoldProbes(c, start, events, IsAllowed(now));
    ProbesStep(c, start, events, IsAllowed(now));
  }

  /** A success of a request let through before the opening is taken for the probe's: the next request is
      let through while the first probe is still out. */
  lemma StraySuccessFreesProbe(c: Config, start: int, events: seq<Event>, stray: Request, at: int, now: int)
    requires Sensible(c) && c.successThreshold > 1 && stray in Out(c, start, events)
    requires Exec(c, start, events).circuit.Open? && at >= Exec(c, start, events).since + c.recoveryMs
    ensures
      var probe := |events|;
      var history := events + [IsAllowed(at)] + [Success(stray, at)];
      && Probes(c, start, history) == {probe} && Admitted(c, start, history + [IsAllowed(now)])
      && Probes(c, start, history + [IsAllowed(now)]) == {probe, probe + 2} && TwoOut(c, start, history + [IsAllowed(now)])
  {
    OneProbeUnlessStray(c, start, events);
    FirstProbe(c, start, events, at);
    StrayReport(c, start, events + [IsAllowed(at)], stray, at);
    NextProbe(c, start, events + [IsAllowed(at)] + [Success(stray, at)], now);
    assert |{|events|, |events| + 2}| == 2;
  }

  /** Such histories exist for every configuration: the first request is slow while later ones fail. */
  lemma SlowRequest(c: Config, start: int) returns (events: seq<Event>)
    requires Sensible(c)
    ensures Exec(c, start, events).circuit.Open? && 0 in Out(c, start, events)
  {
    events := Failing(c, start, c.failureThreshold);
  }

  /** One request, then `k` that are asked for and fail. */
  lemma {:induction false} Failing(c: Config, start: int, k: nat) returns (events: seq<Event>)
    requires Sensible(c) && k <= c.failureThreshold
    ensures |events| == 2 * k + 1 && 0 in Out(c, start, events)
    ensures
      var s := Exec(c, start, events);
      if k < c.failureThreshold then s.circuit.Closed? && s.failures == k else s.circuit.Open?
  {
    if k == 0 {
      events := [] + [IsAllowed(start)];
      Unfold(c, start, [], IsAllowed(start));
      UnfoldProbes(c, start, [], IsAllowed(start));
    } else {
      var before := Failing(c, start, k - 1);
      var asked := before + [IsAllowed(start)];
      Unfold(c, start, before, IsAllowed(start));
      UnfoldProbes(c, start, before, IsAllowed(start));
      events := asked + [Failure(|before|, start)];
      Unfold(c, start, asked, Failure(|before|, start));
      UnfoldProbes(c, start, asked, Failure(|before|, start));
    }
  }

  // ---------------------------------------------------------------- the class

  class CircuitBreaker {
    const config: Config
    var state: Circuit
    var failureCount: nat
    var successCount: nat
    var probeInFlight: bool
    var lastTransitionAt: int

    ghost function Now(): State
      reads this
    {
      State(state, failureCount, successCount, probeInFlight, lastTransitionAt)
    }

    constructor (config: Config, now: int)
      ensures this.config == config && Now() == Init(now)
    {
      this.config := config;
      state, failureCount, successCount, probeInFlight, lastTransitionAt := Closed, 0, 0, false, now;
    }

    method TransitionTo(newState: Circuit, now: int)
      modifies this`state, this`lastTransitionAt
      ensures Now() == Goto(old(Now()), newState, now)
    {
      state := newState;
      lastTransitionAt := now;
    }

    method IsAllowed(now: int) returns (allowed: bool)
      modifies this
      ensures (allowed, Now()) == Ask(config, old(Now()), now, now)
    {
      match state {
        case Closed => return true;
        case Open =>
          var elapsed := now - lastTransitionAt;
          if elapsed >= config.recoveryMs {
            TransitionTo(HalfOpen, now);
            probeInFlight := true;
            return true;
          }
          return false;
        case HalfOpen =>
          if probeInFlight { return false; }
          probeInFlight := true;
          return true;
      }
    }

    method RecordSuccess(now: int)
      modifies this
      ensures Now() == Succeed(config, old(Now()), now)
    {
      match state {
        case HalfOpen =>
          probeInFlight := false;
          successCount := successCount + 1;
          if successCount >= config.successThreshold {
            TransitionTo(Closed, now);
            failureCount := 0;
            successCount := 0;
          }
        case Closed =>
          failureCount := 0;
          successCount := 0;
        case Open =>
      }
    }

    method RecordFailure(now: int)
      modifies this
      ensures Now() == Fail(config, old(Now()), now)
    {
      match state {
        case Closed =>
          failureCount := failureCount + 1;
          if failureCount >= config.failureThreshold { TransitionTo(Open, now); }
        case HalfOpen =>
          probeInFlight := false;
          TransitionTo(Open, now);
          successCount := 0;
        case Open =>
      }
    }
  }
}
