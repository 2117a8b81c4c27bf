/** ProviderLifecycleManager (src/ha-connector/lifecycle.ts): a controller whose own status writes feed
    back into the fingerprint it compares. The provider table is part of the state; status writes succeed
    and passes do not overlap. */
module Lifecycle {
  import opened Wrappers

  type Id = nat
  type Conn = nat
  datatype Status = Active | Inactive | Error | Connecting

  /** A geo_provider row; `config` is its JSON text, `title` stands for the columns not fingerprinted. */
  datatype Provider = Provider(title: string, config: string, credentials: Option<string>, status: Status, deleted: bool)

  /** What providerFingerprint hashes; the hash is taken to be injective. */
  datatype Fingerprint = Fingerprint(config: string, credentials: string, status: Status)

  datatype Managed = Managed(row: Provider, connection: Option<Conn>, failed: bool, fingerprint: Fingerprint)

  /** How adding a provider goes: connected, connected but notifyConnect threw, or not connected. */
  datatype Outcome = Connected | NotifyFailed | ConnectFailed

  function FingerprintOf(p: Provider): Fingerprint {
    Fingerprint(p.config, if p.credentials.Some? then p.credentials.value else "", p.status)
  }

  /** Credentials that are absent are taken as empty. */
  function Credentials(p: Provider): string {
    match p.credentials
    case None => ""
    case Some(text) => text
  }

  /** Two versions of a row with the same configuration, credentials and status; the title may differ. */
  predicate SameSettings(p: Provider, q: Provider) {
    p.config == q.config && Credentials(p) == Credentials(q) && p.status == q.status
  }

  /** The fingerprint tells exactly those versions apart. */
  lemma FingerprintTells(p: Provider, q: Provider)
    ensures FingerprintOf(p) == FingerprintOf(q) <==> SameSettings(p, q)
  {
  }

  /** ACTIVE_PROVIDERS_SQL. */
  predicate Fetched(p: Provider) {
    !p.deleted && p.status != Error
  }

  // ---------------------------------------------------------------- one provider

  /** One provider's row, and what the manager holds for it: the row it was added with, and whether it is
      connected; if so, with the settings of that row. */
  datatype Entry = Entry(from: Provider, connected: bool)
  datatype Cell = Cell(row: Option<Provider>, entry: Option<Entry>)

  function Added(p: Provider, out: Outcome): Cell {
    Cell(Some(p.(status := if out.Connected? then Active else Error)),
         Some(Entry(p, !out.ConnectFailed?)))
  }

  predicate InDatabase(c: Cell) {
    c.row.Some? && Fetched(c.row.value)
  }

  /** The manager holds the provider with the settings of its row. */
  predicate Matches(c: Cell) {
    InDatabase(c) && c.entry.Some? && SameSettings(c.entry.value.from, c.row.value)
  }

  /** What one pass does to one provider. */
  function Next(c: Cell, out: Outcome): Cell {
    if !InDatabase(c) then c.(entry := None)
    else if Matches(c) then c
    else Added(c.row.value, out)
  }

  /** How many passes can still change the provider. */
  function Rank(c: Cell): nat {
    if !InDatabase(c) then (if c.entry.Some? then 1 else 0)
    else if Matches(c) then 0
    else if c.row.value.status == Active then 2 else 3
  }

  lemma NextLowersRank(c: Cell, out: Outcome)
    ensures Rank(c) > 0 ==> Rank(Next(c, out)) < Rank(c) && Next(c, out) != c
    ensures Rank(c) == 0 ==> Next(c, out) == c
  {
  }

  /** A provider held exactly as it is has an open connection and is active. */
  predicate Sound(c: Cell) {
    Matches(c) ==> c.entry.value.connected && c.row.value.status == Active
  }

  lemma NextKeepsSound(c: Cell, out: Outcome)
    requires Sound(c)
    ensures Sound(Next(c, out))
  {
  }

  // ---------------------------------------------------------------- whole passes

  type Cells = map<Id, Cell>
  type Outcomes = Id -> Outcome

  function Pass(cells: Cells, outs: Outcomes): Cells {
    map id | id in cells :: Next(cells[id], outs(id))
  }

  function Passes(cells: Cells, runs: seq<Outcomes>): Cells {
    if runs == [] then cells else Pass(Passes(cells, runs[..|runs| - 1]), runs[|runs| - 1])
  }

  /** Passes that changed something. */
  function Effective(cells: Cells, runs: seq<Outcomes>): nat {
    if runs == [] then 0
    else
      var before := Passes(cells, runs[..|runs| - 1]);
      Effective(cells, runs[..|runs| - 1]) + if Pass(before, runs[|runs| - 1]) != before then 1 else 0
  }

  predicate Below(cells: Cells, n: int) {
    forall id :: id in cells ==> Rank(cells[id]) <= n
  }

  /** No pass changes anything any more, however connecting would go. */
  ghost predicate Fixed(cells: Cells) {
    forall outs: Outcomes :: Pass(cells, outs) == cells
  }

  lemma PassLowers(cells: Cells, outs: Outcomes, n: nat)
    requires Below(cells, n)
    ensures Below(Pass(cells, outs), if n > 0 then n - 1 else 0)
    ensures n == 0 ==> Pass(cells, outs) == cells
  {
    forall id | id in cells
      ensures Rank(Next(cells[id], outs(id))) <= (if n > 0 then n - 1 else 0)
      ensures n == 0 ==> Next(cells[id], outs(id)) == cells[id]
    {
      NextLowersRank(cells[id], outs(id));
    }
  }

  lemma {:induction false} Lowered(cells: Cells, runs: seq<Outcomes>, n: nat)
    requires Below(cells, n)
    ensures Below(Passes(cells, runs), if |runs| < n then n - |runs| else 0)
    ensures Effective(cells, runs) <= n && Effective(cells, runs) <= |runs|
    ensures |runs| >= n ==> Fixed(Passes(cells, runs))
  {
    if runs != [] {
      var front := runs[..|runs| - 1];
      Lowered(cells, front, n);
      PassLowers(Passes(cells, front), runs[|runs| - 1], if |front| < n then n - |front| else 0);
    }
    if |runs| >= n {
      forall outs: Outcomes ensures Pass(Passes(cells, runs), outs) == Passes(cells, runs) {
        PassLowers(Passes(cells, runs), outs, 0);
      }
    }
  }

  /** From any state at all, at most three passes change anything, and after three passes none does. */
  lemma {:induction false} Converges(cells: Cells, runs: seq<Outcomes>)
    ensures Effective(cells, runs) <= 3
    ensures |runs| >= 3 ==> Fixed(Passes(cells, runs))
  {
    Lowered(cells, runs, 3);
  }

  /** Three are needed when an inactive provider connects and then fails to reconnect. */
  lemma ThreePassesNeeded(p: Provider) returns (runs: seq<Outcomes>)
    requires p.status == Inactive && !p.deleted
    ensures Effective(map[0 := Cell(Some(p), None)], runs) == 3
  {
    var up: Outcomes, down: Outcomes := _ => Connected, _ => ConnectFailed;
    var c0 := Cell(Some(p), None);
    var c1, c2 := Next(c0, Connected), Next(Next(c0, Connected), ConnectFailed);
    runs := [] + [up] + [down] + [up];
    EffectiveOne(map[0 := c0], [], up);
    PassOne(c0, up);
    EffectiveOne(map[0 := c0], [] + [up], down);
    PassOne(c1, down);
    EffectiveOne(map[0 := c0], [] + [up] + [down], up);
    PassOne(c2, up);
    NextLowersRank(c0, Connected);
    NextLowersRank(c1, ConnectFailed);
    NextLowersRank(c2, Connected);
  }

  lemma PassOne(c: Cell, outs: Outcomes)
    ensures Pass(map[0 := c], outs) == map[0 := Next(c, outs(0))]
    ensures Next(c, outs(0)) != c ==> Pass(map[0 := c], outs) != map[0 := c]
  {
    assert map[0 := c][0] == c && map[0 := Next(c, outs(0))][0] == Next(c, outs(0));
  }

  lemma EffectiveOne(cells: Cells, runs: seq<Outcomes>, outs: Outcomes)
    ensures Passes(cells, runs + [outs]) == Pass(Passes(cells, runs), outs)
    ensures Effective(cells, runs + [outs])
         == Effective(cells, runs) + if Pass(Passes(cells, runs), outs) != Passes(cells, runs) then 1 else 0
  {
    assert (runs + [outs])[..|runs|] == runs;
  }

  lemma {:induction false} PassesKeepSound(cells: Cells, runs: seq<Outcomes>)
    requires forall id :: id in cells ==> Sound(cells[id])
    ensures Passes(cells, runs).Keys == cells.Keys
    ensures forall id :: id in cells ==> Sound(Passes(cells, runs)[id])
  {
    if runs != [] {
      PassesKeepSound(cells, runs[..|runs| - 1]);
      var before := Passes(cells, runs[..|runs| - 1]);
      forall id | id in cells ensures Sound(Passes(cells, runs)[id]) { NextKeepsSound(before[id], runs[|runs| - 1](id)); }
    }
  }

  /** From an empty manager, a fixed point is what the service promises: the manager holds exactly the
      active providers, each connected with its present configuration and credentials, and every other
      provider is in error or deleted. */
  lemma FixedPointIsRight(cells: Cells, runs: seq<Outcomes>)
    requires forall id :: id in cells ==> cells[id].entry.None?
    requires Fixed(Passes(cells, runs))
    ensures Passes(cells, runs).Keys == cells.Keys
    ensures forall id :: id in cells ==> Right(Passes(cells, runs)[id])
  {
    PassesKeepSound(cells, runs);
    forall id | id in cells ensures Right(Passes(cells, runs)[id]) { FixedCellIsRight(Passes(cells, runs), id); }
  }

  predicate Right(c: Cell) {
    && (c.entry.Some? <==> c.row.Some? && c.row.value.status == Active && !c.row.value.deleted)
    && (c.entry.Some? ==>
          && c.entry.value.connected && c.entry.value.from.config == c.row.value.config
          && Credentials(c.entry.value.from) == Credentials(c.row.value))
    && (c.row.Some? && !c.row.value.deleted ==> c.row.value.status in {Active, Error})
  }

  /** Someone else writes the row between two passes. */
  function Edited(c: Cell, row: Option<Provider>): Cell {
    c.(row := row)
  }

  /** After any edit three passes put the provider right, unless and only unless the edit gives it
      exactly the settings the manager holds while it is not connected or that status is not active. */
  lemma EditsAreNoticed(c: Cell, row: Option<Provider>, runs: seq<Outcomes>)
    requires |runs| >= 3
    ensures
      var e := Edited(c, row);
      0 in Passes(map[0 := e], runs)
      && (Right(Passes(map[0 := e], runs)[0]) <==> !(Matches(e) && (!c.entry.value.connected || row.value.status != Active)))
  {
    var e := Edited(c, row);
    var cells := map[0 := e];
    if Matches(e) {
      Stays(cells, runs);
    } else {
      PassesKeepSound(cells, runs);
      Converges(cells, runs);
      FixedCellIsRight(Passes(cells, runs), 0);
    }
  }

  lemma FixedCellIsRight(cells: Cells, id: Id)
    requires Fixed(cells) && id in cells && Sound(cells[id])
    ensures Right(cells[id])
  {
    var outs: Outcomes := _ => Connected;
    assert Pass(cells, outs) == cells;
    assert Next(cells[id], outs(id)) == cells[id];
    NextLowersRank(cells[id], outs(id));
  }

  /** Setting a failed provider back to active before the next pass leaves it unconnected for good. */
  lemma {:induction false} ResetGoesUnnoticed(p: Provider, runs: seq<Outcomes>)
    requires p.status == Active && !p.deleted
    ensures
      var failed := Next(Cell(Some(p), None), ConnectFailed);
      var reset := Edited(failed, Some(p));
      failed.row.value.status == Error && !reset.entry.value.connected
      && Passes(map[0 := reset], runs) == map[0 := reset]
  {
    var reset := Edited(Next(Cell(Some(p), None), ConnectFailed), Some(p));
    assert Rank(reset) == 0;
    Stays(map[0 := reset], runs);
  }

  lemma {:induction false} Stays(cells: Cells, runs: seq<Outcomes>)
    requires Below(cells, 0)
    ensures Passes(cells, runs) == cells
  {
    if runs != [] {
      Stays(cells, runs[..|runs| - 1]);
      PassLowers(cells, runs[|runs| - 1], 0);
    }
  }

  // ---------------------------------------------------------------- the manager

  /** How the outside world behaves during one pass. */
  datatype Plan = Plan(connect: Outcomes, disconnectThrows: Id -> bool)

  class ProviderLifecycleManager {
    var table: map<Id, Provider>
    var managed: map<Id, Managed>
    var running: bool
    var nextConn: Conn
    var open: set<Conn>            // connections that are open
    ghost var leaked: set<Conn>      // of these, the ones whose disconnect threw

    constructor (table: map<Id, Provider>)
      ensures this.table == table && managed == map[] && open == {} && leaked == {} && !running && Valid()
    {
      this.table, managed, running, nextConn, open, leaked := table, map[], false, 0, {}, {};
    }

    ghost predicate Valid()
      reads this
    {
      Consistent(managed, open, leaked, nextConn)
      && forall id :: id in managed ==> managed[id].fingerprint == FingerprintOf(managed[id].row)
    }

    ghost function CellAt(id: Id): Cell
      reads this
    {
      CellOf(table, managed, id)
    }

    method UpdateStatus(id: Id, status: Status)
      modifies this`table
      ensures table == if id in old(table) then old(table)[id := old(table)[id].(status := status)] else old(table)
    {
      if id in table { table := table[id := table[id].(status := status)]; }
    }

    /** addProvider. An entry already there must have been removed first, or its connection is lost. */
    method AddProvider(id: Id, row: Provider, out: Outcome)
      requires Valid() && id !in managed && id in table && table[id] == row
      modifies this`table, this`managed, this`nextConn, this`open
      ensures Valid() && nextConn >= old(nextConn)
      ensures CellAt(id) == Added(row, out)
      ensures forall j :: j != id ==> CellOf(table, managed, j) == CellOf(old(table), old(managed), j)
      ensures managed == old(managed)[id := managed[id]]
      ensures managed.Keys == old(managed.Keys) + {id} && managed[id].row == row
      ensures managed[id].failed <==> !out.Connected?
      ensures managed[id].connection.Some? ==> managed[id].connection.value >= old(nextConn)
      ensures table.Keys == old(table.Keys)
    {
      AddKeeps(managed, open, leaked, nextConn, id, Managed(row, None, true, FingerprintOf(row)), false);
      AddKeeps(managed, open, leaked, nextConn, id, Managed(row, Some(nextConn), !out.Connected?, FingerprintOf(row)), true);
      managed := managed[id := Managed(row, None, false, FingerprintOf(row))];
      if out.ConnectFailed? {
        managed := managed[id := managed[id].(failed := true)];
        UpdateStatus(id, Error);
        assert managed == old(managed)[id := Managed(row, None, true, FingerprintOf(row))];
      } else {
        Attach(id, out.NotifyFailed?);
        assert managed == old(managed)[id := Managed(row, Some(old(nextConn)), !out.Connected?, FingerprintOf(row))];
      }
    }

    /** The rest of addProvider once the connection is there. */
    method Attach(id: Id, notifyFails: bool)
      requires id in managed && id in table
      modifies this`table, this`managed, this`nextConn, this`open
      ensures open == old(open) + {old(nextConn)} && nextConn == old(nextConn) + 1
      ensures managed == old(managed)[id := old(managed)[id].(connection := Some(old(nextConn)), failed := notifyFails)]
      ensures table == old(table)[id := old(table)[id].(status := if notifyFails then Error else Active)]
    {
      open := open + {nextConn};
      managed := managed[id := managed[id].(connection := Some(nextConn), failed := false)];
      nextConn := nextConn + 1;
      UpdateStatus(id, Active);
      if notifyFails {
        managed := managed[id := managed[id].(failed := true)];
        UpdateStatus(id, Error);
      }
    }

    /** removeProvider. */
    method RemoveProvider(id: Id, disconnectThrows: bool)
      requires Valid()
      modifies this`managed, this`open, this`leaked
      ensures Valid()
      ensures managed == old(managed) - {id}
      ensures leaked == old(leaked) + Lost(old(managed), id, disconnectThrows)
    {
      if id in managed {
        RemoveKeeps(managed, open, leaked, nextConn, id);
        var c := managed[id].connection;
        if c.Some? {
          if disconnectThrows { leaked := leaked + {c.value}; } else { open := open - {c.value}; }
        }
        managed := managed - {id};
      }
    }

    ghost predicate Progress(table0: map<Id, Provider>, managed0: map<Id, Managed>, leaked0: set<Conn>, next0: Conn,
                             plan: Plan, done: set<Id>)
      reads this
    {
      && InProgress(table, managed, leaked, table0, managed0, leaked0, plan, done) && next0 <= nextConn
      && forall id :: id in done ==> KeptOrNew(table0, managed0, managed, id, next0)
    }

    /** One provider of a pass: leave it, add it, remove it, or reconnect it. */
    method ReconcileOne(id: Id, fetched: Option<Provider>, plan: Plan)
      requires Valid()
      requires fetched == if id in table && Fetched(table[id]) then Some(table[id]) else None
      modifies this
      ensures Valid() && running == old(running)
      ensures CellAt(id) == Next(old(CellAt(id)), plan.connect(id))
      ensures forall j :: j != id ==> CellOf(table, managed, j) == CellOf(old(table), old(managed), j)
      ensures SameExcept(old(managed), managed, id)
      ensures leaked == old(leaked) +
        if Matches(old(CellAt(id))) then {} else Lost(old(managed), id, plan.disconnectThrows(id))
      ensures nextConn >= old(nextConn) && KeptOrNew(old(table), old(managed), managed, id, old(nextConn))
    {
      if fetched.Some? && id in managed { FingerprintTells(managed[id].row, fetched.value); }
      if fetched.None? {
        RemoveProvider(id, plan.disconnectThrows(id));
      } else if id !in managed {
        AddProvider(id, fetched.value, plan.connect(id));
      } else if managed[id].fingerprint != FingerprintOf(fetched.value) {
        RemoveProvider(id, plan.disconnectThrows(id));
        AddProvider(id, fetched.value, plan.connect(id));
      }
    }

    method StepOne(id: Id, fetched: Option<Provider>, plan: Plan, ghost table0: map<Id, Provider>,
                   ghost managed0: map<Id, Managed>, ghost leaked0: set<Conn>, ghost next0: Conn, ghost done: set<Id>)
      requires Valid() && id !in done && Progress(table0, managed0, leaked0, next0, plan, done)
      requires fetched == if id in table0 && Fetched(table0[id]) then Some(table0[id]) else None
      modifies this
      ensures Valid() && Progress(table0, managed0, leaked0, next0, plan, done + {id}) && running == old(running)
    {
      ghost var table1, managed1, leaked1 := table, managed, leaked;
      assert CellAt(id) == CellOf(table0, managed0, id);
      ReconcileOne(id, fetched, plan);
      ProgressStep(table0, managed0, leaked0, table1, managed1, leaked1, table, managed, leaked, plan, done, id);
    }

    /** start, on a manager that holds nothing. */
    method Start(plan: Plan)
      requires Valid() && managed == map[]
      modifies this
      ensures Valid() && running && leaked == old(leaked)
      ensures forall id :: CellAt(id) == Next(old(CellAt(id)), plan.connect(id))
    {
      running := true;
      var rows := map id | id in table && Fetched(table[id]) :: table[id];
      ghost var table0, managed0, leaked0, next0 := table, managed, leaked, nextConn;
      ghost var done := AddOrReconnect(rows, plan, table0, managed0, leaked0, next0, {});
    }

    /** reconcile. Every provider goes one step of `Next`; a held provider keeps its entry and connection if
        its configuration, credentials and status are those it was added with, whatever else has changed,
        and is otherwise given up or added anew; a connection is leaked exactly if it was given up and its
        disconnect threw. */
    method Reconcile(plan: Plan)
      requires Valid()
      modifies this
      ensures Valid() && running == old(running)
      ensures forall id :: CellAt(id) == Next(old(CellAt(id)), plan.connect(id))
      ensures forall id :: id in old(managed) && id in old(table) && Fetched(old(table)[id]) ==>
        && id in managed
        && (SameSettings(old(managed)[id].row, old(table)[id]) ==> managed[id] == old(managed)[id])
        && (!SameSettings(old(managed)[id].row, old(table)[id]) ==>
              && managed[id].row == old(table)[id]
              && (managed[id].connection.Some? ==> managed[id].connection.value >= old(nextConn)))
      ensures forall c :: c in leaked <==>
        c in old(leaked) || exists id :: Leaks(old(table), old(managed), plan, id, c)
    {
      var rows := map id | id in table && Fetched(table[id]) :: table[id];
      ghost var table0, managed0, leaked0, next0 := table, managed, leaked, nextConn;
      ghost var done := RemoveGone(rows, plan, table0, managed0, leaked0, next0);
      done := AddOrReconnect(rows, plan, table0, managed0, leaked0, next0, done);
    }

    /** First loop of reconcile: the managed providers that were not fetched. */
    method RemoveGone(rows: map<Id, Provider>, plan: Plan, ghost table0: map<Id, Provider>,
                      ghost managed0: map<Id, Managed>, ghost leaked0: set<Conn>, ghost next0: Conn)
      returns (ghost done: set<Id>)
      requires Valid() && table == table0 && managed == managed0 && leaked == leaked0 && nextConn == next0
      requires IsSnapshot(rows, table0)
      modifies this
      ensures Valid() && running == old(running)
      ensures done == managed0.Keys - rows.Keys && Progress(table0, managed0, leaked0, next0, plan, done)
    {
      var todo := managed.Keys - rows.Keys;
      done := {};
      while todo != {}
        invariant Valid() && running == old(running)
        invariant done + todo == managed0.Keys - rows.Keys && done !! todo
        invariant Progress(table0, managed0, leaked0, next0, plan, done)
      {
        var id :| id in todo;
        StepOne(id, None, plan, table0, managed0, leaked0, next0, done);
        todo, done := todo - {id}, done + {id};
      }
    }

    /** Second loop of reconcile: the fetched providers. */
    method AddOrReconnect(rows: map<Id, Provider>, plan: Plan, ghost table0: map<Id, Provider>,
                          ghost managed0: map<Id, Managed>, ghost leaked0: set<Conn>, ghost next0: Conn, ghost done0: set<Id>)
      returns (ghost done: set<Id>)
      requires Valid() && Progress(table0, managed0, leaked0, next0, plan, done0) && done0 !! rows.Keys
      requires IsSnapshot(rows, table0)
      modifies this
      ensures Valid() && running == old(running)
      ensures done == done0 + rows.Keys && Progress(table0, managed0, leaked0, next0, plan, done)
    {
      var todo := rows.Keys;
      done := done0;
      while todo != {}
        invariant Valid() && running == old(running)
        invariant todo <= rows.Keys && done + todo == done0 + rows.Keys && done !! todo
        invariant Progress(table0, managed0, leaked0, next0, plan, done)
      {
        var id :| id in todo;
        StepOne(id, Some(rows[id]), plan, table0, managed0, leaked0, next0, done);
        todo, done := todo - {id}, done + {id};
      }
    }

    /** shutdown. */
    method Shutdown(plan: Plan)
      requires Valid()
      modifies this
      ensures Valid() && !running && managed == map[] && table == old(table)
      ensures open == leaked
      ensures forall c :: c in leaked <==> c in old(leaked) || exists id :: Discarded(old(managed), plan, id, c)
    {
      running := false;
      var todo := managed.Keys;
      while todo != {}
        invariant Valid() && !running && table == old(table)
        invariant todo == managed.Keys && forall id :: id in managed ==> id in old(managed) && managed[id] == old(managed)[id]
        invariant forall c :: c in leaked <==>
          c in old(leaked) || exists id :: id !in todo && Discarded(old(managed), plan, id, c)
      {
        var id :| id in todo;
        RemoveProvider(id, plan.disconnectThrows(id));
        todo := todo - {id};
      }
    }
  }

  /** What a pass does to an entry: keeps it, connection and all, or gives it a connection made since `next`. */
  ghost predicate KeptOrNew(table0: map<Id, Provider>, managed0: map<Id, Managed>, managed: map<Id, Managed>, id: Id, next: Conn) {
    && (Matches(CellOf(table0, managed0, id)) ==> id in managed && managed[id] == managed0[id])
    && (!Matches(CellOf(table0, managed0, id)) && id in managed && managed[id].connection.Some? ==>
          managed[id].connection.value >= next)
  }

  /** The connection `c` is given up in a pass and its disconnect throws. */
  ghost predicate Leaks(table: map<Id, Provider>, managed: map<Id, Managed>, plan: Plan, id: Id, c: Conn) {
    Discarded(managed, plan, id, c) && !Matches(CellOf(table, managed, id))
  }

  ghost predicate Discarded(managed: map<Id, Managed>, plan: Plan, id: Id, c: Conn) {
    id in managed && managed[id].connection == Some(c) && plan.disconnectThrows(id)
  }

  ghost predicate LeakedIn(table: map<Id, Provider>, managed: map<Id, Managed>, plan: Plan, done: set<Id>, c: Conn) {
    exists id :: id in done && Leaks(table, managed, plan, id, c)
  }

  lemma LeakedNext(table: map<Id, Provider>, managed: map<Id, Managed>, plan: Plan, done: set<Id>, id: Id)
    ensures forall c :: LeakedIn(table, managed, plan, done + {id}, c) <==>
      LeakedIn(table, managed, plan, done, c) || Leaks(table, managed, plan, id, c)
  {
    forall c | Leaks(table, managed, plan, id, c) ensures LeakedIn(table, managed, plan, done + {id}, c) {
      assert id in done + {id};
    }
  }

  /** Every open connection belongs to exactly one managed entry, or its disconnect threw. */
  ghost predicate Consistent(managed: map<Id, Managed>, open: set<Conn>, leaked: set<Conn>, nextConn: Conn) {
    && leaked <= open
    && (forall c :: c in open ==> c < nextConn && (c in leaked || Held(managed, c)))
    && (forall id :: id in managed && managed[id].connection.Some? ==>
          managed[id].connection.value in open && managed[id].connection.value !in leaked)
    && (forall a, b :: a in managed && b in managed && managed[a].connection.Some? && a != b ==>
          managed[a].connection != managed[b].connection)
  }

  lemma AddKeeps(managed: map<Id, Managed>, open: set<Conn>, leaked: set<Conn>, next: Conn, id: Id, m: Managed, up: bool)
    requires Consistent(managed, open, leaked, next) && id !in managed
    requires m.connection == if up then Some(next) else None
    ensures up ==> Consistent(managed[id := m], open + {next}, leaked, next + 1)
    ensures !up ==> Consistent(managed[id := m], open, leaked, next)
  {
    HeldAfter(managed, managed[id := m], id);
    if up { assert managed[id := m][id].connection == Some(next); }
  }

  lemma RemoveKeeps(managed: map<Id, Managed>, open: set<Conn>, leaked: set<Conn>, next: Conn, id: Id)
    requires Consistent(managed, open, leaked, next) && id in managed
    ensures managed[id].connection.Some? ==>
      && Consistent(managed - {id}, open, leaked + {managed[id].connection.value}, next)
      && Consistent(managed - {id}, open - {managed[id].connection.value}, leaked, next)
    ensures managed[id].connection.None? ==> Consistent(managed - {id}, open, leaked, next)
  {
    HeldAfter(managed, managed - {id}, id);
  }

  lemma HeldAfter(before: map<Id, Managed>, after: map<Id, Managed>, id: Id)
    requires forall j :: j in before && j != id ==> j in after && after[j] == before[j]
    ensures forall c: Conn :: Held(before, c) && !(id in before && before[id].connection == Some(c)) ==> Held(after, c)
  {
    forall c: Conn | Held(before, c) && !(id in before && before[id].connection == Some(c)) ensures Held(after, c) {
      var j :| j in before && before[j].connection == Some(c);
      assert after[j].connection == Some(c);
    }
  }

  ghost predicate SameExcept(before: map<Id, Managed>, after: map<Id, Managed>, id: Id) {
    forall j :: j != id ==> (j in after <==> j in before) && (j in before ==> after[j] == before[j])
  }

  /** `done` are the providers the present pass is through with. */
  ghost predicate InProgress(table: map<Id, Provider>, managed: map<Id, Managed>, leaked: set<Conn>,
                             table0: map<Id, Provider>, managed0: map<Id, Managed>, leaked0: set<Conn>,
                             plan: Plan, done: set<Id>) {
    && (forall id :: id in done ==> CellOf(table, managed, id) == Next(CellOf(table0, managed0, id), plan.connect(id)))
    && (forall id :: id !in done ==> CellOf(table, managed, id) == CellOf(table0, managed0, id))
    && (forall id :: id !in done ==> (id in managed <==> id in managed0) && (id in managed ==> managed[id] == managed0[id]))
    && (forall c :: c in leaked <==> c in leaked0 || LeakedIn(table0, managed0, plan, done, c))
  }

  lemma ProgressStep(table0: map<Id, Provider>, managed0: map<Id, Managed>, leaked0: set<Conn>,
                     table1: map<Id, Provider>, managed1: map<Id, Managed>, leaked1: set<Conn>,
                     table: map<Id, Provider>, managed: map<Id, Managed>, leaked: set<Conn>,
                     plan: Plan, done: set<Id>, id: Id)
    requires id !in done && InProgress(table1, managed1, leaked1, table0, managed0, leaked0, plan, done)
    requires CellOf(table, managed, id) == Next(CellOf(table1, managed1, id), plan.connect(id))
    requires forall j :: j != id ==> CellOf(table, managed, j) == CellOf(table1, managed1, j)
    requires SameExcept(managed1, managed, id)
    requires leaked == leaked1 +
      if Matches(CellOf(table1, managed1, id)) then {} else Lost(managed1, id, plan.disconnectThrows(id))
    ensures InProgress(table, managed, leaked, table0, managed0, leaked0, plan, done + {id})
  {
    LeakedNext(table0, managed0, plan, done, id);
    assert CellOf(table1, managed1, id) == CellOf(table0, managed0, id);
    forall c ensures c in leaked <==> c in leaked0 || LeakedIn(table0, managed0, plan, done + {id}, c) {
      assert c in leaked <==> c in leaked1 || Leaks(table0, managed0, plan, id, c);
    }
  }

  ghost predicate IsSnapshot(rows: map<Id, Provider>, table: map<Id, Provider>) {
    && (forall id :: id in rows <==> id in table && Fetched(table[id]))
    && (forall id :: id in rows ==> rows[id] == table[id])
  }

  function CellOf(table: map<Id, Provider>, managed: map<Id, Managed>, id: Id): Cell {
    Cell(if id in table then Some(table[id]) else None,
         if id in managed then Some(Entry(managed[id].row, managed[id].connection.Some?)) else None)
  }

  ghost predicate Held(managed: map<Id, Managed>, c: Conn) {
    exists id :: id in managed && managed[id].connection == Some(c)
  }

  function Lost(managed: map<Id, Managed>, id: Id, throws: bool): set<Conn> {
    if id in managed && managed[id].connection.Some? && throws then {managed[id].connection.value} else {}
  }
}
