/** EntryRecorder (src/tmux-worker/entry-recorder.ts): batched inserts of session entries, and the throttle
    window per session. Times, row ids and the outcome of each INSERT are parameters. */
module EntryRecorder {
  import opened Wrappers

  datatype Kind = Command | Output | Scrollback | Annotation | Error
  datatype Entry = Entry(
    session: string, pane: Option<string>, ns: string, kind: Kind, content: string, metadata: Option<string>)

  // ---------------------------------------------------------------- the batch INSERT

  datatype Value = Id(id: nat) | Text(text: string) | KindValue(kind: Kind) | Null

  /** One statement: the parameter numbers of each row, and the parameters. */
  datatype Statement = Statement(placeholders: seq<seq<nat>>, values: seq<Value>)

  function Nullable(s: Option<string>): Value {
    if s.Some? then Text(s.value) else Null
  }

  /** The seven columns of a row. */
  function Columns(id: nat, e: Entry): seq<Value> {
    [Id(id), Text(e.session), Nullable(e.pane), Text(e.ns), KindValue(e.kind), Text(e.content), Nullable(e.metadata)]
  }

  /** What row k of a statement inserts: each of its placeholders `$n` stands for the n-th parameter. */
  function Bound(st: Statement, k: nat): seq<Value>
    requires k < |st.placeholders|
    requires forall i :: 0 <= i < |st.placeholders[k]| ==> 1 <= st.placeholders[k][i] <= |st.values|
  {
    seq(|st.placeholders[k]|, i requires 0 <= i < |st.placeholders[k]| => st.values[st.placeholders[k][i] - 1])
  }

  ghost predicate Aligned(st: Statement, entries: seq<Entry>, firstId: nat) {
    && |st.placeholders| == |entries| && |st.values| == 7 * |entries|
    && (forall k :: 0 <= k < |entries| ==> RowAligned(st, entries, firstId, k))
  }

  ghost predicate RowAligned(st: Statement, entries: seq<Entry>, firstId: nat, k: nat)
    requires k < |entries| == |st.placeholders| && |st.values| == 7 * |entries|
  {
    && st.placeholders[k] == [7 * k + 1, 7 * k + 2, 7 * k + 3, 7 * k + 4, 7 * k + 5, 7 * k + 6, 7 * k + 7]
    && InsertsEntry(st.values[7 * k..7 * k + 7], firstId + k, entries[k])
  }

  /** Which field of the entry each of the seven values of a row is; absent ones are null. */
  predicate InsertsEntry(row: seq<Value>, id: nat, e: Entry) {
    && |row| == 7 && row[0] == Id(id) && row[1] == Text(e.session) && row[3] == Text(e.ns)
    && row[4] == KindValue(e.kind) && row[5] == Text(e.content)
    && (e.pane.None? ==> row[2] == Null) && (e.pane.Some? ==> row[2] == Text(e.pane.value))
    && (e.metadata.None? ==> row[6] == Null) && (e.metadata.Some? ==> row[6] == Text(e.metadata.value))
  }

  /** An aligned statement inserts each entry under its own id. */
  lemma AlignedInserts(st: Statement, entries: seq<Entry>, firstId: nat, k: nat)
    requires Aligned(st, entries, firstId) && k < |entries|
    ensures forall i :: 0 <= i < |st.placeholders[k]| ==> 1 <= st.placeholders[k][i] <= |st.values|
    ensures InsertsEntry(Bound(st, k), firstId + k, entries[k])
  {
    assert RowAligned(st, entries, firstId, k);
    var row := st.values[7 * k..7 * k + 7];
    assert forall i :: 0 <= i < 7 ==> row[i] == st.values[7 * k + i];
  }

  /** Every parameter belongs to exactly one placeholder of one row. */
  lemma NoParameterShared(st: Statement, entries: seq<Entry>, firstId: nat, n: nat)
    requires Aligned(st, entries, firstId) && 1 <= n <= |st.values|
    ensures n in st.placeholders[(n - 1) / 7]
    ensures forall k :: 0 <= k < |entries| && n in st.placeholders[k] ==> k == (n - 1) / 7
  {
    assert RowAligned(st, entries, firstId, (n - 1) / 7);
    forall k | 0 <= k < |entries| && n in st.placeholders[k] ensures k == (n - 1) / 7 {
      assert RowAligned(st, entries, firstId, k);
    }
  }

  method BuildInsert(entries: seq<Entry>, firstId: nat) returns (st: Statement)
    ensures Aligned(st, entries, firstId)
  {
    var values: seq<Value> := [];
    var placeholders: seq<seq<nat>> := [];
    var idx := 1;
    for k := 0 to |entries|
      invariant idx == 7 * k + 1 && |placeholders| == k && |values| == 7 * k
      invariant Aligned(Statement(placeholders, values), entries[..k], firstId)
    {
      ghost var before := Statement(placeholders, values);
      placeholders := placeholders + [[idx, idx + 1, idx + 2, idx + 3, idx + 4, idx + 5, idx + 6]];
      values := values + Columns(firstId + k, entries[k]);
      idx := idx + 7;
      OneRowMore(before, Statement(placeholders, values), entries, firstId, k);
    }
    assert entries[..|entries|] == entries;
    st := Statement(placeholders, values);
  }

  lemma OneRowMore(before: Statement, st: Statement, entries: seq<Entry>, firstId: nat, k: nat)
    requires k < |entries| && Aligned(before, entries[..k], firstId)
    requires st.placeholders == before.placeholders
             + [[7 * k + 1, 7 * k + 2, 7 * k + 3, 7 * k + 4, 7 * k + 5, 7 * k + 6, 7 * k + 7]]
    requires st.values == before.values + Columns(firstId + k, entries[k])
    ensures Aligned(st, entries[..k + 1], firstId)
  {
    var upTo := entries[..k + 1];
    forall j | 0 <= j < |upTo| ensures RowAligned(st, upTo, firstId, j) {
      if j < k {
        assert RowAligned(before, entries[..k], firstId, j);
        assert st.values[7 * j..7 * j + 7] == before.values[7 * j..7 * j + 7];
      } else {
        assert st.values[7 * k..7 * k + 7] == Columns(firstId + k, entries[k]);
      }
    }
  }

  // ---------------------------------------------------------------- runs of the recorder

  /** The buffer and the batches sent so far. A batch whose INSERT fails is lost: the buffer is emptied
      before the query, and nobody puts a failed batch back. */
  datatype State = State(buffer: seq<Entry>, batches: seq<Batch>)
  datatype Batch = Batch(entries: seq<Entry>, ok: bool)

  datatype Event =
    | Record(e: Entry, ok: bool)  // ok: the outcome of the INSERT, if there is one
    | Summary(e: Entry)
    | Flush(ok: bool)

  function FlushNow(s: State, ok: bool): State {
    if s.buffer == [] then s else State([], s.batches + [Batch(s.buffer, ok)])
  }

  function Apply(s: State, e: Event, maxBuffer: nat): State {
    match e
    case Record(entry, ok) =>
      var s1 := s.(buffer := s.buffer + [entry]);
      if |s1.buffer| >= maxBuffer then FlushNow(s1, ok) else s1
    case Summary(entry) => s.(buffer := s.buffer + [entry])
    case Flush(ok) => FlushNow(s, ok)
  }

  function Exec(events: seq<Event>, maxBuffer: nat): State {
    if events == [] then State([], []) else Apply(Exec(events[..|events| - 1], maxBuffer), events[|events| - 1], maxBuffer)
  }

  function Recorded(events: seq<Event>): seq<Entry> {
    if events == [] then [] else Recorded(events[..|events| - 1]) + Entries(events[|events| - 1])
  }

  function Entries(e: Event): seq<Entry> {
    if e.Flush? then [] else [e.e]
  }

  /** The entries of all batches, in order. */
  function Sent(batches: seq<Batch>): seq<Entry> {
    if batches == [] then [] else Sent(batches[..|batches| - 1]) + batches[|batches| - 1].entries
  }

  predicate OutcomeOk(e: Event) {
    e.Summary? || e.ok
  }

  /** Every entry goes into exactly one INSERT, in recording order, or is still in the buffer; batches are
      never empty; without failing INSERTs none is lost. */
  lemma {:induction false} EveryEntryOnce(events: seq<Event>, maxBuffer: nat)
    ensures
      var s := Exec(events, maxBuffer);
      && Sent(s.batches) + s.buffer == Recorded(events)
      && (forall b :: b in s.batches ==> b.entries != [])
      && ((forall e :: e in events ==> OutcomeOk(e)) ==> forall b :: b in s.batches ==> b.ok)
  {
    if events != [] {
      var front, e := events[..|events| - 1], events[|events| - 1];
      EveryEntryOnce(front, maxBuffer);
      assert e in events && forall x :: x in front ==> x in events;
      StepSends(Exec(front, maxBuffer), e, maxBuffer, Recorded(front));
    }
  }

  lemma StepSends(s: State, e: Event, maxBuffer: nat, recorded: seq<Entry>)
    requires Sent(s.batches) + s.buffer == recorded
    ensures
      var s1 := Apply(s, e, maxBuffer);
      && Sent(s1.batches) + s1.buffer == recorded + Entries(e)
      && (forall b :: b in s1.batches && b !in s.batches ==> b.entries != [] && (OutcomeOk(e) ==> b.ok))
  {
    var more := Entries(e);
    var all := s.buffer + more;
    assert Sent(s.batches) + all == recorded + more;
    var s1 := Apply(s, e, maxBuffer);
    if s1.batches != s.batches {
      assert s1.batches[..|s.batches|] == s.batches;
      assert s1.batches[|s.batches|].entries == all;
    } else {
      assert s1.buffer == all;
    }
  }

  /** After each `record` the buffer is below its limit (empty if the limit is zero); a throttle summary is
      the only way past it, and then by exactly one. */
  lemma RecordLeavesRoom(s: State, e: Event, maxBuffer: nat)
    ensures e.Record? ==> |Apply(s, e, maxBuffer).buffer| < (if maxBuffer > 0 then maxBuffer else 1)
    ensures e.Flush? ==> Apply(s, e, maxBuffer).buffer == []
    ensures e.Summary? ==> |Apply(s, e, maxBuffer).buffer| == |s.buffer| + 1
  {
  }

  // ---------------------------------------------------------------- the throttle window

  datatype Throttle = Throttle(windowBytes: nat, windowStart: int, throttled: bool, total: nat)
  datatype Limits = Limits(bytesPerSec: nat, sustainedMs: nat)

  /** windowBytes > bytesPerSec * (sustainedMs / 1000), without the division. */
  predicate Exceeds(l: Limits, bytes: nat) {
    bytes * 1000 > l.bytesPerSec * l.sustainedMs
  }

  function Track(l: Limits, t: Option<Throttle>, bytes: nat, now: int): Throttle {
    var t0 := if t.Some? then t.value else Throttle(0, now, false, 0);
    var t1 := if now - t0.windowStart > l.sustainedMs then Throttle(0, now, false, t0.total) else t0;
    var t2 := t1.(windowBytes := t1.windowBytes + bytes);
    if Exceeds(l, t2.windowBytes) then t2.(throttled := true, total := t2.total + bytes) else t2
  }

  datatype Chunk = Chunk(bytes: nat, at: int)

  function Tracked(l: Limits, chunks: seq<Chunk>): Option<Throttle> {
    if chunks == [] then None
    else
      var last := chunks[|chunks| - 1];
      Some(Track(l, Tracked(l, chunks[..|chunks| - 1]), last.bytes, last.at))
  }

  /** The bytes of the chunks at which the session was throttled. */
  function ThrottledBytes(l: Limits, chunks: seq<Chunk>): nat {
    if chunks == [] then 0
    else
      ThrottledBytes(l, chunks[..|chunks| - 1])
      + if Exceeds(l, WindowBytes(l, chunks)) then chunks[|chunks| - 1].bytes else 0
  }

  /** That is the total a throttle summary gives. */
  lemma {:induction false} TotalIsThrottled(l: Limits, chunks: seq<Chunk>)
    requires chunks != []
    ensures Tracked(l, chunks).value.total == ThrottledBytes(l, chunks)
  {
    var front := chunks[..|chunks| - 1];
    StateIsWindow(l, chunks);
    if front != [] {
      TotalIsThrottled(l, front);
      StateIsWindow(l, front);
      More(l, WindowBytes(l, front), chunks[|chunks| - 1].bytes);
    }
  }

  function Sum(chunks: seq<Chunk>): nat {
    if chunks == [] then 0 else Sum(chunks[..|chunks| - 1]) + chunks[|chunks| - 1].bytes
  }

  predicate InOrder(chunks: seq<Chunk>) {
    forall i, j :: 0 <= i < j < |chunks| ==> chunks[i].at <= chunks[j].at
  }

  /** Where the present window begins: at the first chunk that came too late for the window before. */
  function WindowStart(l: Limits, chunks: seq<Chunk>): (i: nat)
    requires chunks != []
    ensures i < |chunks|
  {
    var n := |chunks| - 1;
    if n == 0 then 0
    else
      var i := WindowStart(l, chunks[..n]);
      if chunks[n].at - chunks[i].at > l.sustainedMs then n else i
  }

  /** What the session has sent in the present window. */
  function WindowBytes(l: Limits, chunks: seq<Chunk>): nat
    requires chunks != []
  {
    Sum(chunks[WindowStart(l, chunks)..])
  }

  /** The state kept for a session is that of its window; it is throttled exactly if the window exceeds the
      allowance. */
  lemma {:induction false} StateIsWindow(l: Limits, chunks: seq<Chunk>)
    requires chunks != []
    ensures
      var t := Tracked(l, chunks).value;
      && t.windowStart == chunks[WindowStart(l, chunks)].at && t.windowBytes == WindowBytes(l, chunks)
      && (t.throttled <==> Exceeds(l, WindowBytes(l, chunks)))
  {
    var n := |chunks| - 1;
    SumTail(chunks, WindowStart(l, chunks));
    if n > 0 {
      StateIsWindow(l, chunks[..n]);
      More(l, WindowBytes(l, chunks[..n]), chunks[n].bytes);
    }
    assert chunks[..n][n..] == [];
  }

  /** The window is a run of the latest chunks, none more than the duration after its first. */
  lemma {:induction false} WindowIsRecent(l: Limits, chunks: seq<Chunk>, j: nat)
    requires chunks != [] && InOrder(chunks) && WindowStart(l, chunks) <= j < |chunks|
    ensures chunks[j].at - chunks[WindowStart(l, chunks)].at <= l.sustainedMs
  {
    var n := |chunks| - 1;
    if n > 0 && j < n { WindowIsRecent(l, chunks[..n], j); }
  }

  /** Only another chunk can free a throttled session: one that comes too late for the window and is itself
      within the allowance. */
  lemma FreedOnlyByChunk(l: Limits, chunks: seq<Chunk>, c: Chunk)
    requires chunks != [] && Tracked(l, chunks).value.throttled
    ensures Tracked(l, chunks + [c]).value.throttled <==>
      c.at - chunks[WindowStart(l, chunks)].at <= l.sustainedMs || Exceeds(l, c.bytes)
  {
    StateIsWindow(l, chunks);
    assert (chunks + [c])[..|chunks|] == chunks;
    More(l, WindowBytes(l, chunks), c.bytes);
  }

  lemma SumTail(chunks: seq<Chunk>, i: nat)
    requires i < |chunks|
    ensures Sum(chunks[i..]) == Sum(chunks[..|chunks| - 1][i..]) + chunks[|chunks| - 1].bytes
  {
    var tail := chunks[i..];
    assert tail[..|tail| - 1] == chunks[..|chunks| - 1][i..];
  }

  lemma More(l: Limits, a: nat, b: nat)
    ensures Exceeds(l, a) ==> Exceeds(l, a + b)
  {
  }

  /** A session that never sends more than the allowance within the duration is never throttled. */
  lemma SlowSessionsAreFree(l: Limits, chunks: seq<Chunk>)
    requires chunks != [] && InOrder(chunks)
    requires forall i :: 0 <= i < |chunks| && chunks[|chunks| - 1].at - chunks[i].at <= l.sustainedMs ==>
      !Exceeds(l, Sum(chunks[i..]))
    ensures !Tracked(l, chunks).value.throttled
  {
    WindowIsRecent(l, chunks, |chunks| - 1);
    StateIsWindow(l, chunks);
  }

  // ---------------------------------------------------------------- the class

  class EntryRecorder {
    const maxBufferSize: nat
    const limits: Limits
    var buffer: seq<Entry>
    var throttleState: map<string, Throttle>
    // what reached the database, and the statement each batch was sent as
    var batches: seq<Batch>
    var statements: seq<Statement>
    var nextId: nat
    ghost var chunks: map<string, seq<Chunk>>  // what each session has sent since it was last reset

    /** The state kept for a session is a function of what it has sent, and of nothing else. */
    ghost predicate Valid()
      reads this`throttleState, this`chunks
    {
      forall session :: WindowOf(session) == Tracked(limits, ChunksOf(session))
    }

    ghost function ChunksOf(session: string): seq<Chunk>
      reads this`chunks
    {
      if session in chunks then chunks[session] else []
    }

    constructor (maxBufferSize: nat, limits: Limits)
      ensures this.maxBufferSize == maxBufferSize && this.limits == limits
      ensures Now() == State([], []) && statements == [] && throttleState == map[] && chunks == map[] && Valid()
    {
      this.maxBufferSize, this.limits := maxBufferSize, limits;
      buffer, throttleState, batches, statements, nextId, chunks := [], map[], [], [], 0, map[];
    }

    function Now(): State
      reads this
    {
      State(buffer, batches)
    }

    function WindowOf(session: string): Option<Throttle>
      reads this`throttleState
    {
      if session in throttleState then Some(throttleState[session]) else None
    }

    /** `ok` is the outcome of the INSERT; a failing one throws after the buffer has been emptied. */
    method Flush(ok: bool) returns (count: nat)
      modifies this`buffer, this`batches, this`statements, this`nextId
      ensures Now() == Apply(old(Now()), Event.Flush(ok), maxBufferSize)
      ensures count == |old(buffer)|
      ensures old(buffer) == [] ==> statements == old(statements)
      ensures old(buffer) != [] ==>
        |statements| == |old(statements)| + 1 && statements[..|old(statements)|] == old(statements)
        && Aligned(statements[|old(statements)|], old(buffer), old(nextId))
    {
      if |buffer| == 0 { return 0; }
      var entries := buffer;
      buffer := [];
      count := |entries|;
      var st := BuildInsert(entries, nextId);
      nextId := nextId + count;
      statements := statements + [st];
      batches := batches + [Batch(entries, ok)];
    }

    method Record(entry: Entry, now: int, ok: bool) returns (accepted: bool)
      requires Valid()
      modifies this
      ensures Valid() && accepted
      ensures Now() == Apply(old(Now()), Event.Record(entry, ok), maxBufferSize)
      ensures chunks == if entry.kind in {Output, Scrollback}
                        then old(chunks)[entry.session := old(ChunksOf(entry.session)) + [Chunk(|entry.content|, now)]]
                        else old(chunks)
    {
      if entry.kind == Output || entry.kind == Scrollback {
        UpdateThrottleState(entry.session, |entry.content|, now);
      }
      buffer := buffer + [entry];
      if |buffer| >= maxBufferSize {
        var _ := Flush(ok);
      }
      accepted := true;
    }

    method RecordThrottleSummary(session: string, ns: string, content: string, metadata: string)
      modifies this`buffer
      ensures Now() == Apply(old(Now()), Summary(Entry(session, None, ns, Scrollback, content, Some(metadata))), maxBufferSize)
    {
      buffer := buffer + [Entry(session, None, ns, Scrollback, content, Some(metadata))];
    }

    method UpdateThrottleState(session: string, bytes: nat, now: int)
      requires Valid()
      modifies this`throttleState, this`chunks
      ensures Valid()
      ensures chunks == old(chunks)[session := old(ChunksOf(session)) + [Chunk(bytes, now)]]
    {
      var t := Throttle(0, now, false, 0);
      if session in throttleState { t := throttleState[session]; }
      if now - t.windowStart > limits.sustainedMs {
        t := t.(windowBytes := 0, windowStart := now, throttled := false);
      }
      t := t.(windowBytes := t.windowBytes + bytes);
      if t.windowBytes * 1000 > limits.bytesPerSec * limits.sustainedMs {
        t := t.(throttled := true, total := t.total + bytes);
      }
      assert t == Track(limits, WindowOf(session), bytes, now);
      throttleState := throttleState[session := t];
      ghost var sent := ChunksOf(session);
      chunks := chunks[session := sent + [Chunk(bytes, now)]];
      assert (sent + [Chunk(bytes, now)])[..|sent|] == sent;
      assert forall other :: other != session ==> old(WindowOf(other)) == WindowOf(other) && old(ChunksOf(other)) == ChunksOf(other);
      assert forall other :: old(WindowOf(other)) == Tracked(limits, old(ChunksOf(other)));
    }

    /** resetThrottle. */
    method ResetThrottle(session: string)
      requires Valid()
      modifies this`throttleState, this`chunks
      ensures Valid() && chunks == old(chunks) - {session}
    {
      throttleState := throttleState - {session};
      chunks := chunks - {session};
      assert forall other :: other != session ==> old(WindowOf(other)) == WindowOf(other) && old(ChunksOf(other)) == ChunksOf(other);
      assert forall other :: old(WindowOf(other)) == Tracked(limits, old(ChunksOf(other)));
    }

    /** A session is throttled if and only if what it sent in its present window exceeds the allowance; the
        answer does not depend on the time of asking. */
    method IsSessionThrottled(session: string) returns (throttled: bool)
      requires Valid()
      ensures throttled <==> ChunksOf(session) != [] && Exceeds(limits, WindowBytes(limits, ChunksOf(session)))
    {
      throttled := session in throttleState && throttleState[session].throttled;
      assert WindowOf(session) == Tracked(limits, ChunksOf(session));
      if ChunksOf(session) != [] { StateIsWindow(limits, ChunksOf(session)); }
    }
  }
}
