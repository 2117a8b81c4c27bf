/** NotifyListener (src/worker/listener.ts): a LISTEN client that reconnects and delivers in batches.
    The event loop runs one callback at a time, in any order; the state includes what it still has to
    run (timers, connects in flight, resolved reconnects). start is called once. */
module Listener {
  import opened Sets
  import opened Wrappers

  type ClientId = nat
  type Note = string

  datatype State = State(
    client: Option<ClientId>, connected: bool, stopping: bool, reconnecting: bool, reconnectCount: nat,
    debounce: bool, pending: seq<Note>,
    nextClient: ClientId, initial: Option<ClientId>, timers: nat, chain: set<ClientId>, settling: nat,
    ended: set<ClientId>, received: seq<Note>, delivered: seq<Note>, lost: seq<Note>)

  datatype Event =
    | Start
    | ConnectOk(c: ClientId)             // connect and every LISTEN went through
    | ConnectRejected(c: ClientId)       // connect was rejected
    | ListenRejected(c: ClientId)        // connect went through, a LISTEN was rejected; nothing ends the client
    | TimerFired
    | Settled(calls: bool, throws: bool) // the reconnect's then-callback; is there an onReconnect, does it throw
    | ClientError(c: ClientId)
    | ClientEnd(c: ClientId)
    | Notification(note: Note)
    | DebounceFired(bad: Option<nat>)    // index of a notification whose callback throws
    | Stop

  const FRESH: State := State(None, false, false, false, 0, false, [], 0, None, 0, {}, 0, {}, [], [], [])

  // ---------------------------------------------------------------- the code

  function Connect(s: State, first: bool): State {
    var c := s.nextClient;
    if first then s.(client := Some(c), nextClient := c + 1, initial := Some(c))
    else s.(client := Some(c), nextClient := c + 1, chain := s.chain + {c})
  }

  function ScheduleReconnect(s: State): State {
    if s.stopping || s.reconnecting then s else s.(reconnecting := true, timers := s.timers + 1)
  }

  function HandleDisconnect(s: State): State {
    if s.stopping then s else ScheduleReconnect(s.(connected := false, client := None))
  }

  predicate InFlight(s: State, c: ClientId) {
    s.initial == Some(c) || c in s.chain
  }

  /** The promise of a connect is settled: start returns, or the reconnect's then-callback is due. */
  function Resolve(s: State, c: ClientId): State {
    if s.initial == Some(c) then s.(initial := None)
    else s.(chain := s.chain - {c}, settling := s.settling + 1)
  }

  /** The catch block of connect: nothing is closed. */
  function CatchBlock(s: State, c: ClientId): State {
    Resolve(ScheduleReconnect(s.(connected := false)), c)
  }

  function Settle(s: State, calls: bool, throws: bool): State {
    var s1 := s.(settling := if s.settling > 0 then s.settling - 1 else 0, reconnecting := false);
    if !s1.stopping && s1.connected && calls then (if throws then ScheduleReconnect(s1) else s1)
    else if !s1.stopping && !s1.connected then ScheduleReconnect(s1)
    else s1
  }

  function Deliver(s: State, bad: Option<nat>): State {
    var n := if bad.Some? && bad.value < |s.pending| then bad.value else |s.pending|;
    s.(debounce := false, pending := [], delivered := s.delivered + s.pending[..n], lost := s.lost + s.pending[n..])
  }

  /** stop. An ended client needs no closing. */
  function StopNow(s: State): State {
    var s1 := s.(stopping := true, reconnecting := false, debounce := false);
    if s.client.Some? then s1.(client := None, connected := false, ended := s.ended + {s.client.value}) else s1
  }

  /** When the event loop can run the event. A client that has ended does not connect. */
  predicate Enabled(s: State, e: Event) {
    match e
    case Start => s.nextClient == 0
    case ConnectOk(c) => InFlight(s, c) && c !in s.ended
    case ConnectRejected(c) => InFlight(s, c)
    case ListenRejected(c) => InFlight(s, c)
    case TimerFired => s.timers > 0
    case Settled(_, _) => s.settling > 0
    case ClientError(c) => c < s.nextClient
    case ClientEnd(c) => c < s.nextClient
    case Notification(_) => s.nextClient > 0
    case DebounceFired(_) => s.debounce
    case Stop => s.nextClient > 0
  }

  function Apply(s: State, e: Event): State {
    if !Enabled(s, e) then s
    else
      match e
      case Start => Connect(s.(stopping := false), true)
      case ConnectOk(c) => Resolve(s.(connected := true), c)
      case ConnectRejected(c) => CatchBlock(s.(ended := s.ended + {c}), c)
      case ListenRejected(c) => CatchBlock(s, c)
      case TimerFired =>
        var s1 := s.(timers := s.timers - 1);
        if s.stopping then s1.(reconnecting := false)
        else Connect(s1.(reconnectCount := s.reconnectCount + 1), false)
      case Settled(calls, throws) => Settle(s, calls, throws)
      case ClientError(c) => HandleDisconnect(s.(ended := s.ended + {c}))
      case ClientEnd(c) => HandleDisconnect(s.(ended := s.ended + {c}))
      case Notification(note) => s.(pending := s.pending + [note], received := s.received + [note], debounce := true)
      case DebounceFired(bad) => Deliver(s, bad)
      case Stop => StopNow(s)
  }

  function Exec(events: seq<Event>): State {
    if events == [] then FRESH else Apply(Exec(events[..|events| - 1]), events[|events| - 1])
  }

  // ---------------------------------------------------------------- never stuck

  /** Pieces of the reconnect chain the event loop still has to run. */
  function Chain(s: State): nat {
    s.timers + |s.chain| + s.settling
  }

  ghost predicate Inv(s: State) {
    && s.nextClient > 0
    && (s.reconnecting <==> Chain(s) == 1) && Chain(s) <= 1
    && (s.connected || (s.initial.Some? && s.initial.value !in s.ended) || Chain(s) == 1)
    && (s.pending != [] ==> s.debounce)
    && (forall c: ClientId :: c in s.chain ==> c < s.nextClient)
    && (s.initial.Some? ==> s.initial.value < s.nextClient && s.initial.value !in s.chain)
    && (forall c: ClientId :: c in s.ended ==> c < s.nextClient)
  }

  /** Before the start, running, or stopped. */
  ghost predicate Good(s: State) {
    s == FRESH || (s.stopping && s.nextClient > 0) || Inv(s)
  }

  /** How a connect in flight can end. */
  predicate IsAnswer(e: Event) {
    e.ConnectOk? || e.ConnectRejected? || e.ListenRejected?
  }

  lemma ConnectsKeepInv(s: State, e: Event)
    requires Inv(s) && !s.stopping && IsAnswer(e)
    ensures Inv(Apply(s, e))
  {
    if Enabled(s, e) && s.initial != Some(e.c) {
      assert s.chain == {e.c} by { OneElement(s.chain, e.c); }
      assert s.chain - {e.c} == {};
    }
  }

  lemma OneElement(a: set<ClientId>, c: ClientId)
    requires c in a && |a| <= 1
    ensures a == {c}
  {
    if a != {c} {
      var d :| d in a && d != c;
      assert {c, d} <= a && |{c, d}| == 2;
      SubsetSize({c, d}, a);
    }
  }

  lemma OthersKeepInv(s: State, e: Event)
    requires Inv(s) && !s.stopping && !IsAnswer(e) && !e.Stop?
    ensures Inv(Apply(s, e)) && !Apply(s, e).stopping
  {
    if e.TimerFired? && Enabled(s, e) {
      assert s.chain == {};
      assert s.chain + {s.nextClient} == {s.nextClient};
    }
  }

  lemma StepKeepsGood(s: State, e: Event)
    requires Good(s)
    ensures Good(Apply(s, e))
  {
    if s == FRESH {
      assert e.Start? ==> Apply(s, e).initial == Some(0) && Apply(s, e).chain == {} && Chain(Apply(s, e)) == 0;
      assert !e.Start? ==> Apply(s, e) == s;
    } else if !s.stopping {
      if IsAnswer(e) { ConnectsKeepInv(s, e); }
      else if !e.Stop? { OthersKeepInv(s, e); }
    }
  }

  /** In every reachable state between start and stop the listener is connected, or its first connect is
      in flight, or exactly one reconnect chain is under way; and what is pending has a timer. */
  lemma {:induction false} NeverStuck(events: seq<Event>)
    ensures Good(Exec(events))
  {
    if events != [] {
      NeverStuck(events[..|events| - 1]);
      StepKeepsGood(Exec(events[..|events| - 1]), events[|events| - 1]);
    }
  }

  function ApplyAll(s: State, events: seq<Event>): State
    decreases |events|
  {
    if events == [] then s else ApplyAll(Apply(s, events[0]), events[1..])
  }

  /** From each of those states at most four callbacks bring it back to connected. */
  lemma CanReconnect(s: State) returns (events: seq<Event>)
    requires Inv(s) && !s.stopping
    ensures |events| <= 4 && ApplyAll(s, events).connected
    ensures forall e :: e in events ==> IsAnswer(e) || e.TimerFired? || e.Settled?
  {
    if s.connected {
      events := [];
    } else if s.initial.Some? && s.initial.value !in s.ended {
      events := [ConnectOk(s.initial.value)];
      Finish(s, s.initial.value);
    } else if s.chain != {} {
      var c :| c in s.chain;
      OneElement(s.chain, c);
      if c in s.ended {
        var s1 := Apply(s, ConnectRejected(c));
        ConnectsKeepInv(s, ConnectRejected(c));
        var rest := AfterSettling(s1);
        events := [ConnectRejected(c)] + rest;
        assert events[1..] == rest;
      } else {
        events := [ConnectOk(c)];
        Finish(s, c);
      }
    } else if s.settling > 0 {
      events := AfterSettling(s);
    } else {
      events := AfterTimer(s);
    }
  }

  lemma Finish(s: State, c: ClientId)
    requires Enabled(s, ConnectOk(c))
    ensures ApplyAll(s, [ConnectOk(c)]).connected
  {
    assert [ConnectOk(c)][1..] == [];
  }

  lemma AfterTimer(s: State) returns (events: seq<Event>)
    requires s.timers > 0 && !s.stopping && forall c: ClientId :: c in s.ended ==> c < s.nextClient
    ensures events == [TimerFired, ConnectOk(s.nextClient)] && ApplyAll(s, events).connected
  {
    events := [TimerFired, ConnectOk(s.nextClient)];
    assert events[1..] == [ConnectOk(s.nextClient)];
    Finish(Apply(s, TimerFired), s.nextClient);
  }

  lemma AfterSettling(s: State) returns (events: seq<Event>)
    requires Inv(s) && s.settling > 0 && !s.stopping && !s.connected
    ensures |events| == 3 && ApplyAll(s, events).connected
    ensures forall e :: e in events ==> e.ConnectOk? || e.TimerFired? || e.Settled?
  {
    var s1 := Apply(s, Settled(false, false));
    var rest := AfterTimer(s1);
    events := [Settled(false, false)] + rest;
    assert events[1..] == rest;
  }

  /** Once stop has run, no reconnect is begun any more: no new client, no new timer. */
  lemma StoppedStaysQuiet(s: State, e: Event)
    requires s.stopping && s.nextClient > 0
    ensures Apply(s, e).stopping && Apply(s, e).nextClient == s.nextClient
    ensures Apply(s, e).reconnectCount == s.reconnectCount && Apply(s, e).timers <= s.timers
  {
  }

  // ---------------------------------------------------------------- no notification is lost

  /** Notifications are delivered in order; only a throwing callback loses any, namely the one it threw
      on and the rest of that batch. */
  predicate Conserved(s: State) {
    && |s.delivered| + |s.lost| + |s.pending| == |s.received|
    && (s.lost == [] ==> s.delivered + s.pending == s.received)
  }

  lemma {:induction false} DeliveryInOrder(events: seq<Event>)
    ensures Conserved(Exec(events))
    ensures (forall e :: e in events && e.DebounceFired? ==> e.bad.None?) ==> Exec(events).lost == []
  {
    if events != [] {
      var front, e := events[..|events| - 1], events[|events| - 1];
      DeliveryInOrder(front);
      assert e in events && forall x :: x in front ==> x in events;
      StepConserves(Exec(front), e);
    }
  }

  lemma StepConserves(s: State, e: Event)
    requires Conserved(s)
    ensures Conserved(Apply(s, e))
    ensures s.lost == [] && (e.DebounceFired? ==> e.bad.None?) ==> Apply(s, e).lost == []
  {
    if e.Notification? {
      assert s.delivered + (s.pending + [e.note]) == (s.delivered + s.pending) + [e.note];
    } else if e.DebounceFired? {
      DeliverConserves(s, e.bad);
    }
  }

  lemma DeliverConserves(s: State, bad: Option<nat>)
    requires Conserved(s)
    ensures Conserved(Deliver(s, bad))
    ensures s.lost == [] && bad.None? ==> Deliver(s, bad).lost == []
  {
    var n := if bad.Some? && bad.value < |s.pending| then bad.value else |s.pending|;
    if n == |s.pending| {
      assert s.pending[..n] == s.pending && s.pending[n..] == [];
      assert (s.delivered + s.pending) + [] == s.delivered + s.pending;
    } else {
      assert s.lost + s.pending[n..] != [];
    }
  }

  // ---------------------------------------------------------------- one connection at a time

  /** Clients that have been created and not ended. */
  function Open(s: State): set<ClientId> {
    set c: ClientId | 0 <= c < s.nextClient && c !in s.ended
  }

  /** The clients an event ends. */
  function Ends(s: State, e: Event): set<ClientId> {
    match e
    case ConnectRejected(c) => {c}
    case ClientError(c) => {c}
    case ClientEnd(c) => {c}
    case Stop => if s.client.Some? then {s.client.value} else {}
    case _ => {}
  }

  lemma EndedAfter(s: State, e: Event)
    requires Enabled(s, e)
    ensures Apply(s, e).ended == s.ended + Ends(s, e)
    ensures Apply(s, e).nextClient == s.nextClient + if e.Start? || (e.TimerFired? && !s.stopping) then 1 else 0
  {
    match e
    case ConnectRejected(c) =>
    case ClientError(c) =>
    case ClientEnd(c) =>
    case Stop =>
    case _ => EndsNobody(s, e);
  }

  lemma EndsNobody(s: State, e: Event)
    requires Enabled(s, e) && Ends(s, e) == {}
    ensures Apply(s, e).ended == s.ended
    ensures e.TimerFired? || e.Start? || Apply(s, e).nextClient == s.nextClient
  {
  }

  lemma OpenAfter(s: State, e: Event)
    requires Enabled(s, e)
    ensures Apply(s, e).ended == s.ended + Ends(s, e)
    ensures Open(Apply(s, e)) == (Open(s) + Created(s, e)) - Ends(s, e)
    ensures Created(s, e) !! Ends(s, e)
  {
    EndedAfter(s, e);
    OpenOf(s, Apply(s, e), Created(s, e), Ends(s, e));
  }

  lemma OpenOf(s: State, s1: State, created: set<ClientId>, ends: set<ClientId>)
    requires s1.ended == s.ended + ends && s.nextClient <= s1.nextClient <= s.nextClient + 1
    requires created == if s1.nextClient > s.nextClient && s.nextClient !in s.ended then {s.nextClient} else {}
    ensures Open(s1) == (Open(s) + created) - ends
  {
  }

  /** The client an event creates, if it creates one. */
  function Created(s: State, e: Event): set<ClientId> {
    if s.nextClient !in s.ended && (e.Start? || (e.TimerFired? && !s.stopping)) then {s.nextClient} else {}
  }

  // ------------------------------------------------ more than one

  /** The open clients that an event makes the listener reconnect over: all of them when a LISTEN is rejected
      or onReconnect throws, the others when one client errs, ends or is rejected. */
  function Overlooks(s: State, e: Event): set<ClientId> {
    if s.stopping then {}
    else
      match e
      case ListenRejected(_) => Open(s)
      case ConnectRejected(c) => Open(s) - {c}
      case ClientError(c) => Open(s) - {c}
      case ClientEnd(c) => Open(s) - {c}
      case Settled(calls, throws) => if s.connected && calls && throws then Open(s) else {}
      case _ => {}
  }

  /** The clients that have been overlooked so and have not ended since. */
  function Overlooked(events: seq<Event>): set<ClientId> {
    if events == [] then {}
    else
      var front, e := events[..|events| - 1], events[|events| - 1];
      if Enabled(Exec(front), e) then (Overlooked(front) + Overlooks(Exec(front), e)) - Ends(Exec(front), e) else Overlooked(front)
  }

  /** At some point more than one client has been open. */
  predicate Crowded(events: seq<Event>) {
    |Open(Exec(events))| > 1 || (events != [] && Crowded(events[..|events| - 1]))
  }

  /** At some point the reconnect timer has fired over an overlooked client. */
  predicate FiresOver(events: seq<Event>) {
    events != [] &&
    var front, e := events[..|events| - 1], events[|events| - 1];
    FiresOver(front) || (e.TimerFired? && Enabled(Exec(front), e) && !Exec(front).stopping && Overlooked(front) != {})
  }

  /** Wherever a reconnect is due, every open client has been overlooked. */
  ghost predicate Due(s: State, overlooked: set<ClientId>) {
    && overlooked <= Open(s)
    && (!s.stopping && s.nextClient > 0 ==>
          && (s.timers > 0 ==> Open(s) <= overlooked)
          && (s.settling > 0 && !s.connected ==> Open(s) <= overlooked)
          && (!s.connected ==> forall c: ClientId :: c in Open(s) && !InFlight(s, c) ==> c in overlooked)
          && (s.initial.Some? && s.initial.value in Open(s) && Chain(s) > 0 ==> s.initial.value in overlooked))
  }

  lemma DueStep(s: State, overlooked: set<ClientId>, e: Event)
    requires Good(s) && Due(s, overlooked) && Enabled(s, e)
    ensures Due(Apply(s, e), (overlooked + Overlooks(s, e)) - Ends(s, e))
  {
    OpenAfter(s, e);
    if s == FRESH {
      assert e.Start? && Chain(Apply(s, e)) == 0 && Open(Apply(s, e)) <= {0};
    } else if !s.stopping && !e.Stop? {
      if IsAnswer(e) { AnswerDue(s, overlooked, e); } else { OtherDue(s, overlooked, e); }
    }
  }

  lemma AnswerDue(s: State, overlooked: set<ClientId>, e: Event)
    requires Inv(s) && !s.stopping && Due(s, overlooked) && Enabled(s, e) && IsAnswer(e)
    ensures Due(Apply(s, e), (overlooked + Overlooks(s, e)) - Ends(s, e))
  {
    OpenAfter(s, e);
    if s.initial != Some(e.c) { OneElement(s.chain, e.c); }
  }

  lemma OtherDue(s: State, overlooked: set<ClientId>, e: Event)
    requires Inv(s) && !s.stopping && Due(s, overlooked) && Enabled(s, e) && !IsAnswer(e) && !e.Stop?
    ensures Due(Apply(s, e), (overlooked + Overlooks(s, e)) - Ends(s, e))
  {
    OpenAfter(s, e);
    if e.TimerFired? || e.Settled? { assert s.chain == {}; }
  }

  lemma {:induction false} AlwaysDue(events: seq<Event>)
    ensures Due(Exec(events), Overlooked(events))
  {
    if events == [] {
      assert Open(FRESH) == {};
    } else {
      var front, e := events[..|events| - 1], events[|events| - 1];
      AlwaysDue(front);
      NeverStuck(front);
      if Enabled(Exec(front), e) { DueStep(Exec(front), Overlooked(front), e); }
    }
  }

  /** More than one client is ever open at a time if and only if the reconnect timer at some point fires over
      a client that is still open and was overlooked: by a rejected LISTEN, a throwing onReconnect, or an
      event of another client. */
  lemma {:induction false} OneConnection(events: seq<Event>)
    ensures Crowded(events) <==> FiresOver(events)
  {
    if events == [] {
      assert Open(FRESH) == {};
    } else {
      var front, e := events[..|events| - 1], events[|events| - 1];
      OneConnection(front);
      AlwaysDue(front);
      NeverStuck(front);
      if Enabled(Exec(front), e) { CrowdStep(Exec(front), Overlooked(front), e); }
    }
  }

  lemma CrowdStep(s: State, overlooked: set<ClientId>, e: Event)
    requires Good(s) && Due(s, overlooked) && Enabled(s, e)
    ensures |Open(s)| <= 1 ==>
      (|Open(Apply(s, e))| > 1 <==> e.TimerFired? && !s.stopping && overlooked != {})
  {
    OpenAfter(s, e);
    var after := Open(Apply(s, e));
    if e.TimerFired? && !s.stopping {
      assert Open(s) == overlooked && after == Open(s) + {s.nextClient};
    } else if e.Start? {
      assert Open(s) == {} && after <= {0};
      SubsetSize(after, {0});
    } else {
      SubsetSize(after, Open(s));
    }
  }

  /** Each rejected LISTEN leaves one more client open: after `k` of them there are k, and stop would close
      the last one only. */
  lemma {:induction false} RejectedListensPileUp(k: nat) returns (events: seq<Event>)
    requires k > 0
    ensures forall e :: e in events ==> e == Start || e.ListenRejected? || e.TimerFired? || e == Settled(false, false)
    ensures PiledUp(Exec(events), k)
    ensures |Open(Exec(events))| == k && |Open(StopNow(Exec(events)))| == k - 1
  {
    if k == 1 {
      var s0 := ExecOne([], Start);
      events := [] + [Start];
      var s1 := ExecOne(events, ListenRejected(0));
      events := events + [ListenRejected(0)];
      assert s0.chain == {};
    } else {
      events := RejectedListensPileUp(k - 1);
      var s0 := Exec(events);
      var s1 := ExecOne(events, TimerFired);
      events := events + [TimerFired];
      assert s1.chain == {k - 1};
      var s2 := ExecOne(events, ListenRejected(k - 1));
      events := events + [ListenRejected(k - 1)];
      assert s2.chain == {};
      var s3 := ExecOne(events, Settled(false, false));
      events := events + [Settled(false, false)];
    }
    PileSize(Exec(events), k);
  }

  lemma ExecOne(events: seq<Event>, e: Event) returns (s: State)
    ensures s == Exec(events + [e]) == Apply(Exec(events), e)
    ensures Exec([]) == FRESH
  {
    assert (events + [e])[..|events|] == events;
    s := Exec(events + [e]);
  }

  /** `k` clients created, none ended, and the timer armed. */
  predicate PiledUp(s: State, k: nat) {
    && s.nextClient == k && s.ended == {} && s.timers == 1 && s.chain == {} && s.settling == 0
    && s.initial.None? && s.client == Some(k - 1) && !s.connected && s.reconnecting && !s.stopping
  }

  lemma PileSize(s: State, k: nat)
    requires k > 0 && PiledUp(s, k)
    ensures |Open(s)| == k && |Open(StopNow(s))| == k - 1
  {
    assert Open(s) == Below(k) && Open(StopNow(s)) == Below(k - 1);
  }

  function Below(n: nat): (r: set<ClientId>)
    ensures forall c: ClientId :: c in r <==> c < n
    ensures |r| == n
  {
    if n == 0 then {} else Below(n - 1) + {n - 1}
  }

  // ------------------------------------------------ what stop misses

  /** The open clients an event makes the listener lose hold of: all when it begins a reconnect, the others
      when one client errs or ends. */
  function Drops(s: State, e: Event): set<ClientId> {
    if s.stopping then {}
    else
      match e
      case TimerFired => Open(s)
      case ClientError(c) => Open(s) - {c}
      case ClientEnd(c) => Open(s) - {c}
      case _ => {}
  }

  /** The clients dropped so that have not ended since. */
  function Dropped(events: seq<Event>): set<ClientId> {
    if events == [] then {}
    else
      var front, e := events[..|events| - 1], events[|events| - 1];
      if Enabled(Exec(front), e) then (Dropped(front) + Drops(Exec(front), e)) - Ends(Exec(front), e) else Dropped(front)
  }

  /** An open client is the one the listener holds if and only if it has not been dropped. */
  ghost predicate HeldUnlessDropped(s: State, dropped: set<ClientId>) {
    && dropped <= Open(s)
    && (!s.stopping ==> forall c: ClientId :: c in Open(s) ==> (s.client == Some(c) <==> c !in dropped))
  }

  lemma HeldStep(s: State, dropped: set<ClientId>, e: Event)
    requires Good(s) && HeldUnlessDropped(s, dropped) && Enabled(s, e)
    ensures HeldUnlessDropped(Apply(s, e), (dropped + Drops(s, e)) - Ends(s, e))
  {
    OpenAfter(s, e);
  }

  lemma {:induction false} AlwaysHeld(events: seq<Event>)
    ensures HeldUnlessDropped(Exec(events), Dropped(events))
  {
    if events == [] {
      assert Open(FRESH) == {};
    } else {
      var front, e := events[..|events| - 1], events[|events| - 1];
      AlwaysHeld(front);
      NeverStuck(front);
      if Enabled(Exec(front), e) { HeldStep(Exec(front), Dropped(front), e); }
    }
  }

  /** stop leaves open exactly the clients that were dropped before it. */
  lemma StopMisses(events: seq<Event>)
    requires !Exec(events).stopping
    ensures Open(StopNow(Exec(events))) == Dropped(events)
  {
    AlwaysHeld(events);
    StopCloses(Exec(events));
  }

  /** stop closes every open connection but those the listener does not hold. */
  lemma StopCloses(s: State)
    ensures Open(StopNow(s)) == Open(s) - if s.client.Some? then {s.client.value} else {}
    ensures Open(StopNow(s)) == {} <==> forall c: ClientId :: c in Open(s) ==> s.client == Some(c)
  {
    assert forall c: ClientId :: c in Open(StopNow(s)) <==> c in Open(s) && s.client != Some(c);
  }

  // ------------------------------------------------ the good case

  /** An error, end or rejection of a client that has meanwhile been replaced. */
  predicate Late(s: State, e: Event) {
    (e.ClientError? || e.ClientEnd? || e.ConnectRejected? || e.ListenRejected?) && s.client.Some? && s.client != Some(e.c)
  }

  /** Runs before stop in which no callback throws, no LISTEN is rejected on an open connection and no event
      comes from a replaced client. */
  ghost predicate Prompt(events: seq<Event>) {
    events != [] ==>
      var front, e := events[..|events| - 1], events[|events| - 1];
      && Prompt(front) && !Late(Exec(front), e) && !e.Stop?
      && !(e.Settled? && e.throws) && (e.ListenRejected? ==> e.c in Exec(front).ended)
  }

  /** In such runs no client is overlooked or dropped, so at most one is ever open, and stop closes it. */
  lemma PromptRuns(events: seq<Event>)
    requires Prompt(events)
    ensures !Crowded(events) && Open(StopNow(Exec(events))) == {}
  {
    NothingMissed(events);
    OneConnection(events);
    StopMisses(events);
  }

  lemma {:induction false} NothingMissed(events: seq<Event>)
    requires Prompt(events)
    ensures Overlooked(events) == {} && Dropped(events) == {} && !Exec(events).stopping && !FiresOver(events)
  {
    if events != [] {
      var front, e := events[..|events| - 1], events[|events| - 1];
      NothingMissed(front);
      AlwaysHeld(front);
      AlwaysDue(front);
      NeverStuck(front);
      if Enabled(Exec(front), e) { PromptStep(Exec(front), e); }
    }
  }

  lemma PromptStep(s: State, e: Event)
    requires Good(s) && !s.stopping && HeldUnlessDropped(s, {}) && Due(s, {}) && Enabled(s, e)
    requires !Late(s, e) && !e.Stop? && !(e.Settled? && e.throws) && (e.ListenRejected? ==> e.c in s.ended)
    ensures !Apply(s, e).stopping && Overlooks(s, e) <= Ends(s, e) && Drops(s, e) <= Ends(s, e)
  {
    OpenAfter(s, e);
  }

  /** An error or end of a replaced client makes the listener let go of the present one for good: short of
      failing by itself it stays open whatever happens, stop included. */
  lemma LateEventStrands(s: State, e: Event, d: ClientId, events: seq<Event>)
    requires !s.stopping && d in Open(s) && s.client == Some(d)
    requires (e.ClientError? || e.ClientEnd?) && e.c != d && Enabled(s, e)
    requires forall x :: x in events ==> x != ClientError(d) && x != ClientEnd(d) && x != ConnectRejected(d)
    ensures Late(s, e)
    ensures d in Open(ApplyAll(Apply(s, e), events)) && ApplyAll(Apply(s, e), events).client != Some(d)
  {
    Stranded(Apply(s, e), d, events);
  }

  lemma {:induction false} Stranded(s: State, d: ClientId, events: seq<Event>)
    requires d in Open(s) && s.client != Some(d)
    requires forall x :: x in events ==> x != ClientError(d) && x != ClientEnd(d) && x != ConnectRejected(d)
    ensures d in Open(ApplyAll(s, events)) && ApplyAll(s, events).client != Some(d)
    decreases |events|
  {
    if events != [] {
      assert events[0] in events && forall x :: x in events[1..] ==> x in events;
      StrandedStep(s, d, events[0]);
      Stranded(Apply(s, events[0]), d, events[1..]);
    }
  }

  lemma StrandedStep(s: State, d: ClientId, e: Event)
    requires d in Open(s) && s.client != Some(d) && e != ClientError(d) && e != ClientEnd(d) && e != ConnectRejected(d)
    ensures d in Open(Apply(s, e)) && Apply(s, e).client != Some(d)
  {
    if Enabled(s, e) { EndedAfter(s, e); }
  }

  // ---------------------------------------------------------------- the class

  class NotifyListener {
    var client: Option<ClientId>
    var connected: bool
    var stopping: bool
    var reconnecting: bool
    var reconnectCount: nat
    var debounceTimer: bool
    var pendingNotifications: seq<Note>
    // what the event loop and the outside world hold
    var nextClient: ClientId
    var initial: Option<ClientId>
    var timers: nat
    var chain: set<ClientId>
    var settling: nat
    var ended: set<ClientId>
    var received: seq<Note>
    var delivered: seq<Note>
    var lost: seq<Note>

    ghost function Now(): State
      reads this
    {
      State(client, connected, stopping, reconnecting, reconnectCount, debounceTimer, pendingNotifications,
            nextClient, initial, timers, chain, settling, ended, received, delivered, lost)
    }

    constructor ()
      ensures Now() == FRESH
    {
      client, connected, stopping, reconnecting, reconnectCount := None, false, false, false, 0;
      debounceTimer, pendingNotifications := false, [];
      nextClient, initial, timers, chain, settling, ended := 0, None, 0, {}, 0, {};
      received, delivered, lost := [], [], [];
    }

    /** connect, up to its first await. */
    method Begin(first: bool)
      modifies this
      ensures Now() == Connect(old(Now()), first)
    {
      client := Some(nextClient);
      if first { initial := Some(nextClient); } else { chain := chain + {nextClient}; }
      nextClient := nextClient + 1;
    }

    method Reschedule()
      modifies this
      ensures Now() == ScheduleReconnect(old(Now()))
    {
      if stopping || reconnecting { return; }
      reconnecting := true;
      timers := timers + 1;
    }

    method Disconnected()
      modifies this
      ensures Now() == HandleDisconnect(old(Now()))
    {
      if stopping { return; }
      connected := false;
      client := None;
      Reschedule();
    }

    method Return(c: ClientId)
      modifies this
      ensures Now() == Resolve(old(Now()), c)
    {
      if initial == Some(c) {
        initial := None;
      } else {
        chain, settling := chain - {c}, settling + 1;
      }
    }

    method Start()
      requires Enabled(Now(), Event.Start)
      modifies this
      ensures Now() == Apply(old(Now()), Event.Start)
    {
      stopping := false;
      Begin(true);
    }

    method OnConnectOk(c: ClientId)
      requires Enabled(Now(), ConnectOk(c))
      modifies this
      ensures Now() == Apply(old(Now()), ConnectOk(c))
    {
      connected := true;
      Return(c);
    }

    method OnConnectRejected(c: ClientId)
      requires Enabled(Now(), ConnectRejected(c))
      modifies this
      ensures Now() == Apply(old(Now()), ConnectRejected(c))
    {
      ended := ended + {c};
      Catch(c);
    }

    method OnListenRejected(c: ClientId)
      requires Enabled(Now(), ListenRejected(c))
      modifies this
      ensures Now() == Apply(old(Now()), ListenRejected(c))
    {
      Catch(c);
    }

    method Catch(c: ClientId)
      modifies this
      ensures Now() == CatchBlock(old(Now()), c)
    {
      connected := false;
      Reschedule();
      Return(c);
    }

    method OnTimer()
      requires Enabled(Now(), TimerFired)
      modifies this
      ensures Now() == Apply(old(Now()), TimerFired)
    {
      timers := timers - 1;
      if stopping {
        reconnecting := false;
        return;
      }
      reconnectCount := reconnectCount + 1;
      Begin(false);
    }

    method OnSettled(calls: bool, throws: bool)
      requires Enabled(Now(), Settled(calls, throws))
      modifies this
      ensures Now() == Apply(old(Now()), Settled(calls, throws))
    {
      settling := settling - 1;
      reconnecting := false;
      if !stopping && connected && calls {
        if throws {
          reconnecting := false;
          Reschedule();
        }
      } else if !stopping && !connected {
        Reschedule();
      }
    }

    method OnError(c: ClientId)
      requires Enabled(Now(), ClientError(c))
      modifies this
      ensures Now() == Apply(old(Now()), ClientError(c))
    {
      ended := ended + {c};
      Disconnected();
    }

    method OnEnd(c: ClientId)
      requires Enabled(Now(), ClientEnd(c))
      modifies this
      ensures Now() == Apply(old(Now()), ClientEnd(c))
    {
      ended := ended + {c};
      if !stopping { Disconnected(); }
    }

    method DebouncedNotify(note: Note)
      requires Enabled(Now(), Notification(note))
      modifies this
      ensures Now() == Apply(old(Now()), Notification(note))
    {
      received := received + [note];
      pendingNotifications := pendingNotifications + [note];
      debounceTimer := true;
    }

    method OnDebounce(bad: Option<nat>)
      requires Enabled(Now(), DebounceFired(bad))
      modifies this
      ensures Now() == Apply(old(Now()), DebounceFired(bad))
    {
      debounceTimer := false;
      var batch := pendingNotifications;
      pendingNotifications := [];
      CallBack(batch, bad);
    }

    /** Calls onNotification on each of the batch, up to the one that throws. */
    method CallBack(batch: seq<Note>, bad: Option<nat>)
      modifies this`delivered, this`lost
      ensures
        var n := if bad.Some? && bad.value < |batch| then bad.value else |batch|;
        delivered == old(delivered) + batch[..n] && lost == old(lost) + batch[n..]
    {
      for i := 0 to |batch|
        invariant delivered == old(delivered) + batch[..i] && lost == old(lost)
        invariant bad.Some? ==> bad.value >= i
      {
        if bad == Some(i) {
          lost := lost + batch[i..];
          return;
        }
        delivered := delivered + [batch[i]];
        assert batch[..i] + [batch[i]] == batch[..i + 1];
      }
      assert lost + batch[|batch|..] == lost;
    }

    method Stop()
      requires Enabled(Now(), Event.Stop)
      modifies this
      ensures Now() == Apply(old(Now()), Event.Stop)
    {
      stopping := true;
      reconnecting := false;
      debounceTimer := false;
      if client.Some? { EndClient(); }
    }

    method EndClient()
      requires client.Some?
      modifies this`client, this`connected, this`ended
      ensures client == None && !connected && ended == old(ended) + {old(client).value}
    {
      ended := ended + {client.value};
      client := None;
      connected := false;
    }
  }
}
