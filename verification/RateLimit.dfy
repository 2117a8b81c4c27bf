/** GitHub rate limits (src/symphony-worker/rate-limit.ts): the polling interval, and reservations that
    check and decrement in separate statements. Times are parameters. */
module RateLimit {
  import opened Wrappers

  datatype Status = Status(remaining: int, limit: int, resetsAt: int, isLimited: bool)

  // ---------------------------------------------------------------- polling interval

  function Max(a: int, b: int): int {
    if a >= b then a else b
  }

  function Min(a: int, b: int): int {
    if a <= b then a else b
  }

  /** Milliseconds to the reset, at least one second. */
  function Window(s: Status, now: int): int {
    Max(s.resetsAt - now, 1000)
  }

  function Available(s: Status, reserve: int): int {
    Max(s.remaining - reserve, 0)
  }

  /** calculatePollingInterval. All numbers are whole and the divisor is positive, so `/` is Math.floor. */
  function PollingInterval(status: Option<Status>, reserve: int, minMs: int, maxMs: int, now: int): int {
    if status.None? then 30_000
    else
      var window, available := Window(status.value, now), Available(status.value, reserve);
      if available <= 0 then Min(window, maxMs) else Max(minMs, Min(window / available, maxMs))
  }

  /** With calls available the interval is within its bounds; without, it does not pass the reset. */
  lemma IntervalBounds(s: Status, reserve: int, minMs: int, maxMs: int, now: int)
    requires 0 < minMs <= maxMs
    ensures Available(s, reserve) > 0 ==> minMs <= PollingInterval(Some(s), reserve, minMs, maxMs, now) <= maxMs
    ensures Available(s, reserve) == 0 ==> 0 < PollingInterval(Some(s), reserve, minMs, maxMs, now) <= Window(s, now)
  {
  }

  /** What the interval is, from the row alone: half a minute without data; with nothing above the reserve the
      time to the reset, at least a second, or the upper bound, whichever is nearer; otherwise the calls
      above the reserve spread evenly over that time, within the bounds. */
  lemma IntervalMeans(s: Status, reserve: int, minMs: int, maxMs: int, now: int)
    requires 0 < minMs <= maxMs
    ensures PollingInterval(None, reserve, minMs, maxMs, now) == 30_000
    ensures
      var window := if s.resetsAt - now >= 1000 then s.resetsAt - now else 1000;
      var i := PollingInterval(Some(s), reserve, minMs, maxMs, now);
      && (s.remaining <= reserve ==> i == if window <= maxMs then window else maxMs)
      && (s.remaining > reserve ==>
            var calls := s.remaining - reserve;
            && minMs <= i <= maxMs
            && (i > minMs ==> i * calls <= window)
            && (i < maxMs ==> window < (i + 1) * calls))
  {
    if s.remaining > reserve { Spread(Window(s, now), s.remaining - reserve, minMs, maxMs); }
  }

  lemma Spread(w: int, a: int, minMs: int, maxMs: int)
    requires w > 0 && a > 0 && 0 < minMs <= maxMs
    ensures var i := Max(minMs, Min(w / a, maxMs));
      && minMs <= i <= maxMs && (i > minMs ==> i * a <= w) && (i < maxMs ==> w < (i + 1) * a)
  {
    var i, q := Max(minMs, Min(w / a, maxMs)), w / a;
    DivBounds(w, a);
    if i > minMs { MulMono(a, i, q); }
    if i < maxMs { MulMono(a, q + 1, i + 1); }
  }

  /** Polls at each multiple of the interval up to the reset. */
  function Polls(window: int, interval: int): int
    requires interval > 0
  {
    window / interval
  }

  /** When polling stays within the available calls: the lower bound took over; or neither bound did and
      what the division drops is less than one interval; or the upper bound did and the window is short
      of one interval more than there are calls. */
  predicate StaysWithin(window: int, available: int, minMs: int, maxMs: int)
    requires available > 0
  {
    var q := window / available;
    if q < minMs then true
    else if q <= maxMs then window % available < q
    else window < maxMs * (available + 1)
  }

  lemma PollsFit(s: Status, reserve: int, minMs: int, maxMs: int, now: int)
    requires 0 < minMs <= maxMs && Available(s, reserve) > 0
    ensures
      var interval := PollingInterval(Some(s), reserve, minMs, maxMs, now);
      Polls(Window(s, now), interval) <= Available(s, reserve)
      <==> StaysWithin(Window(s, now), Available(s, reserve), minMs, maxMs)
  {
    var w, a := Window(s, now), Available(s, reserve);
    var q := w / a;
    DivBounds(w, a);
    if q < minMs {
      MulMono(a, q + 1, minMs);
      QuotientAtMost(w, minMs, a);
    } else if q <= maxMs {
      QuotientAtMost(w, q, a);
      assert q * (a + 1) == a * q + q;
    } else {
      QuotientAtMost(w, maxMs, a);
    }
  }

  /** A window of at most minMs squared is safe unless the upper bound takes over. */
  lemma SquareRule(s: Status, reserve: int, minMs: int, maxMs: int, now: int)
    requires 0 < minMs <= maxMs && Available(s, reserve) > 0
    requires Window(s, now) <= minMs * minMs && Window(s, now) / Available(s, reserve) <= maxMs
    ensures Polls(Window(s, now), PollingInterval(Some(s), reserve, minMs, maxMs, now)) <= Available(s, reserve)
  {
    var w, a := Window(s, now), Available(s, reserve);
    var q := w / a;
    DivBounds(w, a);
    if q >= minMs {
      if a > minMs { MulMono(a, minMs, q); MulMono(minMs, minMs + 1, a); }
      assert w % a < a <= minMs <= q;
    }
    PollsFit(s, reserve, minMs, maxMs, now);
  }

  /** With the default bounds and a window of at most an hour, polling overspends exactly when the upper
      bound of five minutes fits into the window more often than calls are available. */
  lemma DefaultsOverspendWhen(s: Status, reserve: int, now: int)
    requires Available(s, reserve) > 0 && Window(s, now) <= 3_600_000
    ensures
      Polls(Window(s, now), PollingInterval(Some(s), reserve, 5_000, 300_000, now)) > Available(s, reserve)
      <==> Window(s, now) >= 300_000 * (Available(s, reserve) + 1)
  {
    var w, a := Window(s, now), Available(s, reserve);
    DivBounds(w, a);
    PollsFit(s, reserve, 5_000, 300_000, now);
    if w / a <= 300_000 {
      SquareRule(s, reserve, 5_000, 300_000, now);
      if w >= 300_000 * (a + 1) { MulMono(a, w / a, 300_000); }
    }
  }

  lemma DivBounds(w: int, a: int)
    requires w >= 0 && a > 0
    ensures w == a * (w / a) + w % a && 0 <= w % a < a && w / a >= 0
    ensures w < a * (w / a + 1)
  {
  }

  lemma MulMono(a: int, x: int, y: int)
    requires a >= 0 && x <= y
    ensures a * x <= a * y
  {
  }

  lemma QuotientAtMost(w: int, d: int, n: int)
    requires w >= 0 && d > 0 && n >= 0
    ensures w / d <= n <==> w < d * (n + 1)
  {
    DivBounds(w, d);
    if w / d <= n { MulMono(d, w / d + 1, n + 1); } else { MulMono(d, n + 1, w / d); }
  }

  // ---------------------------------------------------------------- reservations

  datatype Row = Row(remaining: nat, limit: nat, resetsAt: int)

  /** A caller between the SELECT and the guarded UPDATE, or done. */
  datatype Caller = Checked(count: nat, reserve: nat) | Done(granted: bool)

  /** The row, the callers, and for the record: what was last recorded, what was reserved since by
      decrementing, and how many reservations were granted without. */
  datatype System = System(row: Option<Row>, callers: map<nat, Caller>, recorded: nat, reserved: nat, uncounted: nat)

  datatype Step =
    | Check(id: nat, count: nat, reserve: nat, now: int)
    | Decrement(id: nat)
    | Record(row: Row)

  const EMPTY: System := System(None, map[], 0, 0, 0)

  function CheckRateLimit(row: Option<Row>, reserve: int, now: int): Option<Status> {
    match row
    case None => None
    case Some(r) =>
      if r.resetsAt <= now then Some(Status(r.limit, r.limit, r.resetsAt, false))
      else Some(Status(r.remaining, r.limit, r.resetsAt, r.remaining <= reserve))
  }

  /** What reserveBudget concludes from the check: an answer, or go on to the UPDATE. */
  datatype Verdict = Allow | Deny | GoOn

  function Decide(row: Option<Row>, count: nat, reserve: nat, now: int): Verdict {
    match CheckRateLimit(row, reserve, now)
    case None => Allow
    case Some(st) => if st.resetsAt <= now then Allow else if st.remaining - count < reserve then Deny else GoOn
  }

  function Finish(s: System, id: nat, granted: bool): System {
    s.(callers := s.callers[id := Done(granted)])
  }

  function Apply(s: System, step: Step): System {
    match step
    case Check(id, count, reserve, now) =>
      if id in s.callers then s
      else (
        match Decide(s.row, count, reserve, now)
        case Allow => Finish(s, id, true).(uncounted := s.uncounted + 1)
        case Deny => Finish(s, id, false)
        case GoOn => s.(callers := s.callers[id := Checked(count, reserve)]))
    case Decrement(id) =>
      if id !in s.callers || s.callers[id].Done? then s
      else
        var c := s.callers[id];
        if s.row.Some? && s.row.value.remaining >= c.count + c.reserve then
          Finish(s, id, true).(row := Some(s.row.value.(remaining := s.row.value.remaining - c.count)),
                               reserved := s.reserved + c.count)
        else Finish(s, id, false)
    case Record(row) => s.(row := Some(row), recorded := row.remaining, reserved := 0)
  }

  function Exec(steps: seq<Step>): System {
    if steps == [] then EMPTY else Apply(Exec(steps[..|steps| - 1]), steps[|steps| - 1])
  }

  /** Nobody keeps less than `reserve` back. */
  predicate AllKeep(steps: seq<Step>, reserve: nat) {
    forall s :: s in steps && s.Check? ==> s.reserve >= reserve
  }

  ghost predicate Budget(s: System, reserve: nat) {
    && (s.row.None? ==> s.reserved == 0)
    && (s.row.Some? ==> s.row.value.remaining + s.reserved == s.recorded)
    && (s.row.Some? ==> s.row.value.remaining >= Min(s.recorded, reserve))
    && (forall id :: id in s.callers && s.callers[id].Checked? ==> s.callers[id].reserve >= reserve && s.row.Some?)
  }

  lemma StepKeepsBudget(s: System, step: Step, reserve: nat)
    requires Budget(s, reserve) && (step.Check? ==> step.reserve >= reserve)
    ensures Budget(Apply(s, step), reserve)
  {
  }

  /** However callers and responses interleave, and however stale the checks: what has been reserved since
      the last response is exactly what is missing from it, and it never eats into the common reserve. */
  lemma {:induction false} ReservationsFit(steps: seq<Step>, reserve: nat)
    requires AllKeep(steps, reserve)
    ensures Budget(Exec(steps), reserve)
    ensures Exec(steps).reserved <= Max(Exec(steps).recorded - reserve, 0)
  {
    if steps != [] {
      assert steps[|steps| - 1] in steps;
      ReservationsFit(steps[..|steps| - 1], reserve);
      StepKeepsBudget(Exec(steps[..|steps| - 1]), steps[|steps| - 1], reserve);
    }
  }

  /** After the reset time, and before there is any row, everything is granted and nothing is counted. */
  lemma {:induction false} NothingCountedAfterReset(s: System, ids: seq<nat>, count: nat, reserve: nat, now: int)
    requires s.row.Some? ==> s.row.value.resetsAt <= now
    requires forall i :: 0 <= i < |ids| ==> ids[i] !in s.callers
    requires forall i, j :: 0 <= i < j < |ids| ==> ids[i] != ids[j]
    ensures
      var end := CheckAll(s, ids, count, reserve, now);
      && end.uncounted == s.uncounted + |ids| && end.row == s.row && end.reserved == s.reserved
      && (forall i :: 0 <= i < |ids| ==> ids[i] in end.callers && end.callers[ids[i]] == Done(true))
      && (forall id :: id in end.callers <==> id in s.callers || id in ids)
  {
    if ids != [] {
      NothingCountedAfterReset(s, ids[..|ids| - 1], count, reserve, now);
      assert ids == ids[..|ids| - 1] + [ids[|ids| - 1]];
    }
  }

  function CheckAll(s: System, ids: seq<nat>, count: nat, reserve: nat, now: int): System {
    if ids == [] then s
    else Apply(CheckAll(s, ids[..|ids| - 1], count, reserve, now), Check(ids[|ids| - 1], count, reserve, now))
  }

  /** A caller with nothing in between is granted exactly if there is no current row or it holds the calls and
      the reserve; only then does the row lose the calls. */
  lemma AloneIsGranted(s: System, id: nat, count: nat, reserve: nat, now: int)
    requires id !in s.callers
    ensures
      var s' := Apply(Apply(s, Check(id, count, reserve, now)), Decrement(id));
      var current := s.row.Some? && s.row.value.resetsAt > now;
      && id in s'.callers && s'.callers[id] == Done(!current || s.row.value.remaining >= count + reserve)
      && s'.row == if current && s.row.value.remaining >= count + reserve
                   then Some(s.row.value.(remaining := s.row.value.remaining - count)) else s.row
  {
  }

  // ---------------------------------------------------------------- the table

  class RateLimitTable {
    var rows: map<(string, string), Row>

    constructor ()
      ensures rows == map[]
    {
      rows := map[];
    }

    function RowOf(ns: string, resource: string): Option<Row>
      reads this
    {
      if (ns, resource) in rows then Some(rows[(ns, resource)]) else None
    }

    /** reserveBudget with nothing in between: granted if and only if there is no current row or it holds
        the calls and the reserve; counted in the second case only. */
    method ReserveBudget(ns: string, resource: string, count: nat, reserve: nat, now: int) returns (granted: bool)
      modifies this
      ensures granted <==>
        || old(RowOf(ns, resource)).None? || old(RowOf(ns, resource)).value.resetsAt <= now
        || old(RowOf(ns, resource)).value.remaining >= count + reserve
      ensures
        var r := old(RowOf(ns, resource));
        rows == if granted && r.Some? && r.value.resetsAt > now
                then old(rows)[(ns, resource) := r.value.(remaining := r.value.remaining - count)] else old(rows)
    {
      var status := CheckRateLimit(RowOf(ns, resource), reserve, now);
      if status.None? { return true; }
      if status.value.resetsAt <= now { return true; }
      if status.value.remaining - count < reserve { return false; }
      granted := DecrementRow(ns, resource, count, reserve);
    }

    /** The guarded UPDATE. */
    method DecrementRow(ns: string, resource: string, count: nat, reserve: nat) returns (hit: bool)
      modifies this
      ensures hit <==> old(RowOf(ns, resource)).Some? && old(RowOf(ns, resource)).value.remaining >= count + reserve
      ensures rows ==
        if hit then old(rows)[(ns, resource) := old(rows)[(ns, resource)].(remaining := old(rows)[(ns, resource)].remaining - count)]
        else old(rows)
    {
      var key := (ns, resource);
      hit := key in rows && rows[key].remaining >= count + reserve;
      if hit { rows := rows[key := rows[key].(remaining := rows[key].remaining - count)]; }
    }

    /** recordApiCall: INSERT … ON CONFLICT DO UPDATE. */
    method RecordApiCall(ns: string, resource: string, remaining: nat, limit: nat, resetEpoch: int)
      modifies this
      ensures rows == old(rows)[(ns, resource) := Row(remaining, limit, resetEpoch * 1000)]
    {
      rows := rows[(ns, resource) := Row(remaining, limit, resetEpoch * 1000)];
    }
  }
}
