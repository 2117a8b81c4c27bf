/** The per-destination circuit breaker of webhook dispatch (src/worker/circuit-breaker.ts), keyed by
    host. Times are parameters. */
module WebhookBreaker {

  type Key = string
  datatype Circuit = Closed | Open | HalfOpen
  datatype Config = Config(threshold: nat, cooldownMs: int)
  datatype Dest = Dest(circuit: Circuit, failures: nat, openUntil: int)

  datatype Event = IsOpen(key: Key, now: int) | Success(key: Key) | Failure(key: Key, now: int)

  const FRESH: Dest := Dest(Closed, 0, 0)

  // ---------------------------------------------------------------- one destination

  predicate Blocked(d: Dest, now: int) {
    d.circuit.Open? && now < d.openUntil
  }

  function ApplyOne(c: Config, d: Dest, e: Event): Dest {
    match e
    case IsOpen(_, now) => if d.circuit.Open? && now >= d.openUntil then d.(circuit := HalfOpen) else d
    case Success(_) => FRESH
    case Failure(_, now) =>
      var d1 := d.(failures := d.failures + 1);
      if d1.failures >= c.threshold && !d.circuit.Open? then d1.(circuit := Open, openUntil := now + c.cooldownMs) else d1
  }

  function ExecOne(c: Config, events: seq<Event>): Dest {
    if events == [] then FRESH else ApplyOne(c, ExecOne(c, events[..|events| - 1]), events[|events| - 1])
  }

  // ---------------------------------------------------------------- all destinations

  type Table = map<Key, Dest>

  function Get(t: Table, key: Key): Dest {
    if key in t then t[key] else FRESH
  }

  function Exec(c: Config, events: seq<Event>): Table {
    if events == [] then map[]
    else
      var t, e := Exec(c, events[..|events| - 1]), events[|events| - 1];
      t[e.key := ApplyOne(c, Get(t, e.key), e)]
  }

  function Only(events: seq<Event>, key: Key): seq<Event> {
    if events == [] then []
    else
      var front, e := Only(events[..|events| - 1], key), events[|events| - 1];
      if e.key == key then front + [e] else front
  }

  /** A destination's state depends on its own events alone, however they interleave with others. */
  lemma {:induction false} DestinationsAreIndependent(c: Config, events: seq<Event>, key: Key)
    ensures Get(Exec(c, events), key) == ExecOne(c, Only(events, key))
    ensures key in Exec(c, events) <==> Only(events, key) != []
  {
    if events != [] {
      DestinationsAreIndependent(c, events[..|events| - 1], key);
      var front, e := Only(events[..|events| - 1], key), events[|events| - 1];
      assert (front + [e])[..|front|] == front;
    }
  }

  // ---------------------------------------------------------------- the state in terms of the history

  /** Failures since the last success, counted whether or not requests are blocked. */
  function Streak(events: seq<Event>): nat {
    if events == [] then 0
    else
      match events[|events| - 1]
      case IsOpen(_, _) => Streak(events[..|events| - 1])
      case Success(_) => 0
      case Failure(_, _) => Streak(events[..|events| - 1]) + 1
  }

  /** The last failure that was neither below the threshold nor reported while requests were blocked. */
  function OpenedAt(c: Config, events: seq<Event>): int {
    if events == [] then 0
    else
      var front, e := events[..|events| - 1], events[|events| - 1];
      if e.Failure? && Streak(events) >= c.threshold && (Streak(front) < c.threshold || Probed(c, front)) then e.now
      else OpenedAt(c, front)
  }

  /** Since the last report someone has asked when the cooldown of the last opening was over. */
  predicate Probed(c: Config, events: seq<Event>) {
    events != [] && events[|events| - 1].IsOpen? &&
    var front, now := events[..|events| - 1], events[|events| - 1].now;
    Probed(c, front) || (Streak(front) >= c.threshold && now >= OpenedAt(c, front) + c.cooldownMs)
  }

  lemma {:induction false} History(c: Config, events: seq<Event>)
    requires c.threshold >= 1
    ensures
      var d := ExecOne(c, events);
      && d.failures == Streak(events)
      && (d.circuit.Closed? <==> Streak(events) < c.threshold)
      && (d.circuit.HalfOpen? <==> Probed(c, events))
      && (!d.circuit.Closed? ==> d.openUntil == OpenedAt(c, events) + c.cooldownMs)
  {
    if events != [] { History(c, events[..|events| - 1]); }
  }

  /** A request is blocked if and only if the streak has reached the threshold, the cooldown of the last
      opening is not over, and nobody has asked after it was since the last report. */
  lemma BlockedWhen(c: Config, events: seq<Event>, now: int)
    requires c.threshold >= 1
    ensures Blocked(ExecOne(c, events), now) <==>
      Streak(events) >= c.threshold && now < OpenedAt(c, events) + c.cooldownMs && !Probed(c, events)
  {
    History(c, events);
  }

  /** The code says it lets one probe through; it lets every request through until the next report. */
  lemma {:induction false} HalfOpenBlocksNobody(c: Config, events: seq<Event>, asks: seq<Event>, now: int)
    requires ExecOne(c, events).circuit.HalfOpen? && forall e :: e in asks ==> e.IsOpen?
    ensures ExecOne(c, events + asks) == ExecOne(c, events)
    ensures !Blocked(ExecOne(c, events + asks), now)
  {
    if asks == [] {
      assert events + asks == events;
    } else {
      var front, last := asks[..|asks| - 1], asks[|asks| - 1];
      assert last in asks;
      HalfOpenBlocksNobody(c, events, front, now);
      assert (events + asks)[..|events + asks| - 1] == events + front;
    }
  }

  /** One failure reported in half open blocks for a whole cooldown again; one success closes. */
  lemma HalfOpenReport(c: Config, events: seq<Event>, key: Key, now: int)
    requires c.threshold >= 1 && ExecOne(c, events).circuit.HalfOpen?
    ensures ExecOne(c, events + [Failure(key, now)]).circuit.Open?
    ensures ExecOne(c, events + [Failure(key, now)]).openUntil == now + c.cooldownMs
    ensures ExecOne(c, events + [Success(key)]) == FRESH
  {
    History(c, events);
    assert (events + [Failure(key, now)])[..|events|] == events;
    assert (events + [Success(key)])[..|events|] == events;
  }

  // ---------------------------------------------------------------- the class

  class CircuitBreaker {
    const config: Config
    var destinations: Table

    constructor (config: Config)
      ensures this.config == config && destinations == map[]
    {
      this.config, destinations := config, map[];
    }

    method GetOrCreate(key: Key) returns (d: Dest)
      modifies this`destinations
      ensures d == Get(old(destinations), key) && destinations == old(destinations)[key := d]
    {
      if key !in destinations { destinations := destinations[key := FRESH]; }
      d := destinations[key];
    }

    method IsOpen(key: Key, now: int) returns (blocked: bool)
      modifies this`destinations
      ensures blocked <==> Blocked(Get(old(destinations), key), now)
      ensures destinations == old(destinations)[key := ApplyOne(config, Get(old(destinations), key), Event.IsOpen(key, now))]
    {
      var s := GetOrCreate(key);
      if s.circuit == Closed { return false; }
      if s.circuit == Open {
        if now >= s.openUntil {
          destinations := destinations[key := s.(circuit := HalfOpen)];
          return false;
        }
        return true;
      }
      return false;
    }

    method RecordSuccess(key: Key)
      modifies this`destinations
      ensures destinations == old(destinations)[key := ApplyOne(config, Get(old(destinations), key), Success(key))]
    {
      destinations := destinations[key := Dest(Closed, 0, 0)];
    }

    method RecordFailure(key: Key, now: int)
      modifies this`destinations
      ensures destinations == old(destinations)[key := ApplyOne(config, Get(old(destinations), key), Failure(key, now))]
    {
      var s := GetOrCreate(key);
      var previous := s.circuit;
      s := s.(failures := s.failures + 1);
      if s.failures >= config.threshold && previous != Open {
        s := s.(circuit := Open, openUntil := now + config.cooldownMs);
      }
      destinations := destinations[key := s];
    }
  }
}
