/** handleAttachSession (src/tmux-worker/terminal-io.ts): messages that arrive while the transport (local
    PTY or SSH channel) is being set up are queued and replayed; cleanup runs once. Every await of the
    set-up is a point where other callbacks run. */
module AttachSession {
  import opened Wrappers

  datatype Size = Size(cols: int, rows: int)
  datatype Msg = Msg(session: bool, data: string, resize: Option<Size>)

  const MAX_PENDING := 100
  const MAX_COLS := 1000
  const MAX_ROWS := 500
  const DEFAULT_SIZE := Size(120, 40)

  /** Where the set-up is: before the first message; at one of its awaits; or over. */
  datatype Phase = Idle | Resolving | ReadingSize | ReadingConnection | Connecting | Opening | Attached | Failed

  datatype State = State(
    phase: Phase, ended: bool, pending: seq<Msg>, transport: Option<Size>, size: Size,
    handled: seq<Msg>,      // messages the transport has been given, in order
    opens: nat, closes: nat)

  datatype Event =
    | Input(m: Msg)
    | Resolved(ok: bool)                                 // the session row
    | SizeRead(stored: Option<Size>, nameOk: bool)       // its dimensions, and whether its name is valid
    | ConnectionRead(ok: bool, local: bool)
    | Connected(ok: bool)                                // SSH only
    | Opened(ok: bool)                                   // PTY spawned or channel open
    | Hangup                                             // end, error or cancellation of the call
    | Exit                                               // the transport exits or closes

  const START: State := State(Idle, false, [], None, DEFAULT_SIZE, [], 0, 0)

  predicate ValidResize(m: Msg) {
    m.resize.Some? && 0 < m.resize.value.cols <= MAX_COLS && 0 < m.resize.value.rows <= MAX_ROWS
  }

  function Resized(size: Size, m: Msg): Size {
    if ValidResize(m) then m.resize.value else size
  }

  /** The size after a sequence of messages. */
  function ResizedBy(size: Size, msgs: seq<Msg>): Size {
    if msgs == [] then size else Resized(ResizedBy(size, msgs[..|msgs| - 1]), msgs[|msgs| - 1])
  }

  /** The stored dimensions, each if positive. */
  function InitialSize(stored: Option<Size>): Size {
    if stored.None? then DEFAULT_SIZE
    else Size(if stored.value.cols > 0 then stored.value.cols else DEFAULT_SIZE.cols,
              if stored.value.rows > 0 then stored.value.rows else DEFAULT_SIZE.rows)
  }

  function Cleanup(s: State): State {
    if s.ended then s
    else s.(ended := true, transport := None, closes := s.closes + if s.transport.Some? then 1 else 0)
  }

  /** Emitting an error on the call runs cleanup. */
  function Fail(s: State): State {
    Cleanup(s.(phase := Failed))
  }

  function HandleInput(s: State, m: Msg): State {
    if s.ended || s.transport.None? then s
    else s.(handled := s.handled + [m], transport := Some(Resized(s.transport.value, m)))
  }

  function Replay(s: State, msgs: seq<Msg>): State {
    if msgs == [] then s else HandleInput(Replay(s, msgs[..|msgs| - 1]), msgs[|msgs| - 1])
  }

  function OnData(s: State, m: Msg): State {
    if s.ended then s
    else if s.phase.Attached? then HandleInput(s, m)
    else if !s.phase.Idle? then (if |s.pending| < MAX_PENDING then s.(pending := s.pending + [m]) else s)
    else if !m.session then Cleanup(s)
    else s.(phase := Resolving)
  }

  function Apply(s: State, e: Event): State {
    match e
    case Input(m) => OnData(s, m)
    case Hangup => Cleanup(s)
    case Exit => if s.transport.Some? then Cleanup(s) else s
    case Resolved(ok) =>
      if !s.phase.Resolving? then s
      else if !ok || s.ended then Fail(s)
      else s.(phase := ReadingSize)
    case SizeRead(stored, nameOk) =>
      if !s.phase.ReadingSize? then s
      else if s.ended || !nameOk then Fail(s)
      else s.(phase := ReadingConnection, size := ResizedBy(InitialSize(stored), s.pending))
    case ConnectionRead(ok, local) =>
      if !s.phase.ReadingConnection? then s
      else if !ok then Fail(s)
      else s.(phase := if local then Opening else Connecting)
    case Connected(ok) =>
      if !s.phase.Connecting? then s
      else if !ok then Fail(s)
      else s.(phase := Opening)
    case Opened(ok) =>
      if !s.phase.Opening? then s
      else if !ok then Fail(s)
      else Replay(s.(phase := Attached, transport := Some(s.size), opens := s.opens + 1), s.pending).(pending := [])
  }

  function Exec(events: seq<Event>): State {
    if events == [] then START else Apply(Exec(events[..|events| - 1]), events[|events| - 1])
  }

  // ---------------------------------------------------------------- replay

  lemma {:induction false} ReplayHandlesAll(s: State, msgs: seq<Msg>)
    requires !s.ended && s.transport.Some?
    ensures Replay(s, msgs) == s.(handled := s.handled + msgs, transport := Some(ResizedBy(s.transport.value, msgs)))
  {
    if msgs == [] {
      assert s.handled + msgs == s.handled;
    } else {
      ReplayHandlesAll(s, msgs[..|msgs| - 1]);
      assert s.handled + msgs[..|msgs| - 1] + [msgs[|msgs| - 1]] == s.handled + msgs;
    }
  }

  lemma {:induction false} ReplayAfterEnd(s: State, msgs: seq<Msg>)
    requires s.ended
    ensures Replay(s, msgs) == s
  {
    if msgs != [] { ReplayAfterEnd(s, msgs[..|msgs| - 1]); }
  }

  // ---------------------------------------------------------------- what the client sent

  /** Messages since the set-up began, up to the end of the call: those that came while it was under way,
      and those that came after. */
  function Early(events: seq<Event>): seq<Msg> {
    if events == [] then []
    else
      var front, e, s := Early(events[..|events| - 1]), events[|events| - 1], Exec(events[..|events| - 1]);
      if e.Input? && !s.ended && !s.phase.Idle? && !s.phase.Attached? then front + [e.m] else front
  }

  function Direct(events: seq<Event>): seq<Msg> {
    if events == [] then []
    else
      var front, e, s := Direct(events[..|events| - 1]), events[|events| - 1], Exec(events[..|events| - 1]);
      if e.Input? && !s.ended && s.phase.Attached? then front + [e.m] else front
  }

  function FirstMax(msgs: seq<Msg>): seq<Msg> {
    if |msgs| <= MAX_PENDING then msgs else msgs[..MAX_PENDING]
  }

  ghost predicate Inv(events: seq<Event>) {
    InvOf(Exec(events), Early(events), Direct(events))
  }

  ghost predicate InvOf(s: State, early: seq<Msg>, direct: seq<Msg>) {
    && s.closes <= s.opens <= 1
    && (s.opens == 1 <==> s.phase.Attached?)
    && (s.transport.Some? ==> s.phase.Attached?)
    && (!s.ended ==>
          && !s.phase.Failed?
          && (s.transport.Some? <==> s.phase.Attached?)
          && s.closes == 0
          && (s.phase.Attached? ==> s.pending == [] && s.handled == FirstMax(early) + direct)
          && (!s.phase.Attached? ==> s.pending == FirstMax(early) && s.handled == [] && direct == []))
  }

  lemma InputKeeps(s: State, early: seq<Msg>, direct: seq<Msg>, m: Msg)
    requires InvOf(s, early, direct)
    ensures InvOf(OnData(s, m),
                  if !s.ended && !s.phase.Idle? && !s.phase.Attached? then early + [m] else early,
                  if !s.ended && s.phase.Attached? then direct + [m] else direct)
  {
    if !s.ended && s.phase.Attached? {
      assert s.handled + [m] == FirstMax(early) + (direct + [m]);
    } else if !s.ended && !s.phase.Idle? {
      assert |early| < MAX_PENDING ==> FirstMax(early + [m]) == FirstMax(early) + [m];
      assert |early| >= MAX_PENDING ==> FirstMax(early + [m]) == FirstMax(early);
    }
  }

  lemma OthersKeep(s: State, early: seq<Msg>, direct: seq<Msg>, e: Event)
    requires InvOf(s, early, direct) && !e.Input?
    ensures InvOf(Apply(s, e), early, direct)
  {
    if e.Opened? && s.phase.Opening? && e.ok {
      var s1 := s.(phase := Attached, transport := Some(s.size), opens := s.opens + 1);
      if s.ended {
        ReplayAfterEnd(s1, s.pending);
      } else {
        ReplayHandlesAll(s1, s.pending);
        assert [] + s.pending == FirstMax(early) + [];
      }
    }
  }

  /** Until the call ends, the transport has been given exactly the first hundred messages that came during
      the set-up and then all later ones, in the order of arrival; and at most one transport is opened. */
  lemma {:induction false} InputsInOrder(events: seq<Event>)
    ensures Inv(events)
  {
    if events != [] {
      var front, e := events[..|events| - 1], events[|events| - 1];
      InputsInOrder(front);
      if e.Input? {
        InputKeeps(Exec(front), Early(front), Direct(front), e.m);
      } else {
        OthersKeep(Exec(front), Early(front), Direct(front), e);
      }
    }
  }

  /** Once attached, the terminal has the size of the last valid resize the client sent and that was not
      dropped from the queue, or its stored size if there was none. */
  lemma {:induction false} LastResizeWins(events: seq<Event>, stored: Size)
    requires forall e :: e in events && e.SizeRead? ==> InitialSize(e.stored) == stored
    ensures
      var s := Exec(events);
      && (s.transport.Some? && !s.ended ==> s.transport == Some(ResizedBy(stored, s.handled)))
      && (!s.ended && (s.phase.ReadingConnection? || s.phase.Connecting? || s.phase.Opening?) ==>
            ResizedBy(s.size, s.pending) == ResizedBy(stored, s.pending))
  {
    if events != [] {
      var front, e := events[..|events| - 1], events[|events| - 1];
      assert forall x :: x in front ==> x in events;
      assert e in events;
      LastResizeWins(front, stored);
      InputsInOrder(front);
      InputsInOrder(events);
      SizeStep(Exec(front), Early(front), Direct(front), e, stored);
    }
  }

  /** That is: the size is the one of the last message with a resize of at most 1000 by 500 in both directions
      positive, and the size before where no message has one. */
  lemma {:induction false} ResizedByMeans(size: Size, msgs: seq<Msg>)
    ensures
      || (exists i :: 0 <= i < |msgs| && Fits(msgs[i]) && ResizedBy(size, msgs) == msgs[i].resize.value
                      && forall j :: i < j < |msgs| ==> !Fits(msgs[j]))
      || (ResizedBy(size, msgs) == size && forall j :: 0 <= j < |msgs| ==> !Fits(msgs[j]))
  {
    if msgs != [] {
      var front := msgs[..|msgs| - 1];
      ResizedByMeans(size, front);
      if !Fits(msgs[|msgs| - 1]) {
        assert forall j :: 0 <= j < |front| ==> front[j] == msgs[j];
      }
    }
  }

  predicate Fits(m: Msg) {
    m.resize.Some? && 1 <= m.resize.value.cols < 1001 && 1 <= m.resize.value.rows < 501
  }

  /** Each stored dimension counts if it is positive; the default is 120 by 40. */
  lemma InitialSizeMeans(stored: Option<Size>)
    ensures stored.None? ==> InitialSize(stored) == Size(120, 40)
    ensures stored.Some? ==>
      && (stored.value.cols >= 1 ==> InitialSize(stored).cols == stored.value.cols)
      && (stored.value.cols < 1 ==> InitialSize(stored).cols == 120)
      && (stored.value.rows >= 1 ==> InitialSize(stored).rows == stored.value.rows)
      && (stored.value.rows < 1 ==> InitialSize(stored).rows == 40)
  {
  }

  lemma SizeStep(s: State, early: seq<Msg>, direct: seq<Msg>, e: Event, stored: Size)
    requires InvOf(s, early, direct) && (e.SizeRead? ==> InitialSize(e.stored) == stored)
    requires s.transport.Some? && !s.ended ==> s.transport == Some(ResizedBy(stored, s.handled))
    requires !s.ended && (s.phase.ReadingConnection? || s.phase.Connecting? || s.phase.Opening?) ==>
      ResizedBy(s.size, s.pending) == ResizedBy(stored, s.pending)
    ensures
      var s1 := Apply(s, e);
      && (s1.transport.Some? && !s1.ended ==> s1.transport == Some(ResizedBy(stored, s1.handled)))
      && (!s1.ended && (s1.phase.ReadingConnection? || s1.phase.Connecting? || s1.phase.Opening?) ==>
            ResizedBy(s1.size, s1.pending) == ResizedBy(stored, s1.pending))
  {
    if s.ended {
      EndedStays(s, e);
    } else if e.Input? {
      InputSizes(s, e.m, stored);
    } else if e.SizeRead? {
      ResizeTwice(stored, s.pending);
    } else if e.Opened? && s.phase.Opening? && e.ok {
      OpenedSize(s, stored, e);
    } else {
      OthersSize(s, e);
    }
  }

  lemma OpenedSize(s: State, stored: Size, e: Event)
    requires e.Opened? && s.phase.Opening? && e.ok && !s.ended && s.handled == []
    requires ResizedBy(s.size, s.pending) == ResizedBy(stored, s.pending)
    ensures Apply(s, e).phase.Attached?
    ensures !Apply(s, e).ended ==> Apply(s, e).transport == Some(ResizedBy(stored, Apply(s, e).handled))
  {
    ReplayHandlesAll(s.(phase := Attached, transport := Some(s.size), opens := s.opens + 1), s.pending);
    assert [] + s.pending == s.pending;
  }

  /** The other events leave the sizes alone, or end the call. */
  lemma OthersSize(s: State, e: Event)
    requires !s.ended && !e.Input? && !e.SizeRead? && !(e.Opened? && s.phase.Opening? && e.ok)
    ensures
      var s1 := Apply(s, e);
      || s1.ended
      || (s1.transport == s.transport && s1.handled == s.handled && s1.size == s.size && s1.pending == s.pending
          && ((s1.phase.ReadingConnection? || s1.phase.Connecting? || s1.phase.Opening?) ==>
                s.phase.ReadingConnection? || s.phase.Connecting? || s.phase.Opening?))
  {
  }

  lemma EndedStays(s: State, e: Event)
    requires s.ended
    ensures Apply(s, e).ended
  {
    if e.Opened? { ReplayAfterEnd(s.(phase := Attached, transport := Some(s.size), opens := s.opens + 1), s.pending); }
  }

  lemma InputSizes(s: State, m: Msg, stored: Size)
    requires s.phase.Attached? <==> s.transport.Some?
    requires s.transport.Some? ==> s.transport == Some(ResizedBy(stored, s.handled))
    requires ResizedBy(s.size, s.pending) == ResizedBy(stored, s.pending)
          || !(s.phase.ReadingConnection? || s.phase.Connecting? || s.phase.Opening?)
    ensures
      var s1 := OnData(s, m);
      && (s1.transport.Some? && !s1.ended ==> s1.transport == Some(ResizedBy(stored, s1.handled)))
      && (!s1.ended && (s1.phase.ReadingConnection? || s1.phase.Connecting? || s1.phase.Opening?) ==>
            ResizedBy(s1.size, s1.pending) == ResizedBy(stored, s1.pending))
  {
    assert (s.pending + [m])[..|s.pending|] == s.pending;
    assert (s.handled + [m])[..|s.handled|] == s.handled;
  }

  lemma {:induction false} ResizeTwice(size: Size, msgs: seq<Msg>)
    ensures ResizedBy(ResizedBy(size, msgs), msgs) == ResizedBy(size, msgs)
  {
    LastValid(size, ResizedBy(size, msgs), msgs);
  }

  /** Either a valid resize decides, whatever the size before, or none changes it. */
  lemma {:induction false} LastValid(a: Size, b: Size, msgs: seq<Msg>)
    ensures ResizedBy(a, msgs) == ResizedBy(b, msgs) || (ResizedBy(a, msgs) == a && ResizedBy(b, msgs) == b)
  {
    if msgs != [] { LastValid(a, b, msgs[..|msgs| - 1]); }
  }

  // ---------------------------------------------------------------- the transport is closed, or leaked

  /** An open transport that nobody will close: the handler has ended. */
  predicate Leaked(s: State) {
    s.ended && s.opens > s.closes
  }

  /** The call ended during one of the awaits between the last check for it and the opening. */
  predicate EndedTooLate(events: seq<Event>) {
    events != [] &&
    var before := Exec(events[..|events| - 1]);
    || EndedTooLate(events[..|events| - 1])
    || (before.phase.Opening? && before.ended && events[|events| - 1] == Opened(true))
  }

  /** A transport is leaked if and only if it was opened after the end of the call; otherwise it is closed
      exactly once. And what is leaked stays leaked. */
  lemma {:induction false} LeakedIff(events: seq<Event>)
    ensures Leaked(Exec(events)) <==> EndedTooLate(events)
    ensures Exec(events).ended && !EndedTooLate(events) ==> Exec(events).closes == Exec(events).opens
  {
    if events != [] {
      var front, e := events[..|events| - 1], events[|events| - 1];
      LeakedIff(front);
      InputsInOrder(front);
      var s := Exec(front);
      if e.Opened? && s.phase.Opening? && e.ok {
        var s1 := s.(phase := Attached, transport := Some(s.size), opens := s.opens + 1);
        if s.ended { ReplayAfterEnd(s1, s.pending); } else { ReplayHandlesAll(s1, s.pending); }
      }
    }
  }

  /** It can always happen: a hang-up while the PTY module loads or the channel opens leaks the transport. */
  lemma HangupWhileOpening(events: seq<Event>)
    requires Exec(events).phase.Opening?
    ensures Leaked(Exec(events + [Hangup] + [Opened(true)]))
  {
    One(events, Hangup);
    One(events + [Hangup], Opened(true));
    InputsInOrder(events);
    LeakedIff(events + [Hangup] + [Opened(true)]);
  }

  lemma One(events: seq<Event>, e: Event)
    ensures Exec(events + [e]) == Apply(Exec(events), e)
    ensures (events + [e])[..|events|] == events
  {
    assert (events + [e])[..|events|] == events;
  }

  // ---------------------------------------------------------------- the handler

  /** The variables that the callbacks of one call share. */
  class AttachHandler {
    var initialized: bool
    var initializing: bool
    var ended: bool
    var pendingMessages: seq<Msg>
    var transport: Option<Size>     // ptyProcess or sshChannel, with its present size
    var size: Size
    var awaiting: Phase             // the await the set-up is at
    var handled: seq<Msg>
    var opens: nat
    var closes: nat

    ghost function Now(): State
      reads this
    {
      State(awaiting, ended, pendingMessages, transport, size, handled, opens, closes)
    }

    /** The two flags say where the set-up is. */
    ghost predicate Valid()
      reads this
    {
      (initialized <==> awaiting.Attached?) && (initializing <==> !awaiting.Idle?)
    }

    constructor ()
      ensures Now() == START && Valid()
    {
      initialized, initializing, ended, pendingMessages, transport := false, false, false, [], None;
      size, awaiting, handled, opens, closes := DEFAULT_SIZE, Idle, [], 0, 0;
    }

    method CleanUp()
      requires Valid()
      modifies this
      ensures Valid() && Now() == Cleanup(old(Now()))
    {
      if ended { return; }
      ended := true;
      if transport.Some? {
        closes := closes + 1;
        transport := None;
      }
    }

    method EmitError()
      requires Valid() && !awaiting.Idle? && !awaiting.Attached?
      modifies this
      ensures Valid() && Now() == Fail(old(Now()))
    {
      awaiting := Failed;
      CleanUp();
    }

    method HandleMessage(m: Msg)
      requires Valid()
      modifies this
      ensures Valid() && Now() == HandleInput(old(Now()), m)
    {
      if ended || transport.None? { return; }
      handled := handled + [m];
      if m.resize.Some? {
        var r := m.resize.value;
        if r.cols > 0 && r.rows > 0 && r.cols <= MAX_COLS && r.rows <= MAX_ROWS { transport := Some(r); }
      }
    }

    method Data(m: Msg)
      requires Valid()
      modifies this
      ensures Valid() && Now() == OnData(old(Now()), m)
    {
      if ended { return; }
      if !initialized {
        if initializing {
          if |pendingMessages| < MAX_PENDING { pendingMessages := pendingMessages + [m]; }
          return;
        }
        if !m.session {
          CleanUp();
          return;
        }
        initializing := true;
        awaiting := Resolving;
        return;
      }
      HandleMessage(m);
    }

    method AfterResolve(ok: bool)
      requires Valid() && awaiting.Resolving?
      modifies this
      ensures Valid() && Now() == Apply(old(Now()), Resolved(ok))
    {
      if !ok {
        EmitError();
        return;
      }
      if ended {
        awaiting := Failed;
        return;
      }
      awaiting := ReadingSize;
    }

    method AfterSizeRead(stored: Option<Size>, nameOk: bool)
      requires Valid() && awaiting.ReadingSize?
      modifies this
      ensures Valid() && Now() == Apply(old(Now()), SizeRead(stored, nameOk))
    {
      var chosen := InitialSize(stored);
      for i := 0 to |pendingMessages|
        invariant chosen == ResizedBy(InitialSize(stored), pendingMessages[..i])
      {
        assert pendingMessages[..i + 1][..i] == pendingMessages[..i];
        chosen := Resized(chosen, pendingMessages[i]);
      }
      assert pendingMessages[..|pendingMessages|] == pendingMessages;
      if ended {
        awaiting := Failed;
        return;
      }
      if !nameOk {
        EmitError();
        return;
      }
      size := chosen;
      awaiting := ReadingConnection;
    }

    method AfterConnectionRead(ok: bool, local: bool)
      requires Valid() && awaiting.ReadingConnection?
      modifies this
      ensures Valid() && Now() == Apply(old(Now()), ConnectionRead(ok, local))
    {
      if !ok {
        EmitError();
        return;
      }
      awaiting := if local then Opening else Connecting;
    }

    method AfterConnect(ok: bool)
      requires Valid() && awaiting.Connecting?
      modifies this
      ensures Valid() && Now() == Apply(old(Now()), Connected(ok))
    {
      if !ok {
        EmitError();
        return;
      }
      awaiting := Opening;
    }

    /** The transport is there: attach it and replay the queue, in one go. */
    method AfterOpen(ok: bool)
      requires Valid() && awaiting.Opening?
      modifies this
      ensures Valid() && Now() == Apply(old(Now()), Opened(ok))
    {
      if !ok {
        EmitError();
        return;
      }
      transport := Some(size);
      opens := opens + 1;
      initialized := true;
      awaiting := Attached;
      ghost var attached := Now();
      for i := 0 to |pendingMessages|
        invariant Valid() && pendingMessages == old(pendingMessages)
        invariant Now() == Replay(attached, pendingMessages[..i])
      {
        assert pendingMessages[..i + 1][..i] == pendingMessages[..i];
        HandleMessage(pendingMessages[i]);
      }
      assert pendingMessages[..|pendingMessages|] == pendingMessages;
      pendingMessages := [];
    }

    method TransportExit()
      requires Valid()
      modifies this
      ensures Valid() && Now() == Apply(old(Now()), Exit)
    {
      if ended || transport.None? { return; }
      CleanUp();
    }
  }
}
