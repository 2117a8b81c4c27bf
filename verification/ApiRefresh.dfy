/** refreshApiSource (src/api/api-sources/refresh.ts), from a changed and parsed specification on. */
module ApiRefresh {
  import opened ApiMemory

  datatype Report = Report(created: nat, updated: nat, deleted: nat)

  function NewKeys(api: Api): set<string> {
    set op | op in api.ops :: op.key
  }

  predicate IsOperation(m: Memory, source: nat) {
    m.source == source && m.kind == OperationKind
  }

  /** When a refresh gets through the unique constraint. */
  predicate RefreshFits(rows: Rows, api: Api, source: nat, ns: string) {
    && UpsertFits(rows, NewKeys(api), source)
    && DistinctKeys(TagGroupMemories(api, source, ns))
    && (forall i :: 0 <= i < |api.tagGroups| ==> TagGroupKey(api.tagGroups[i].tag) !in NewKeys(api))
    && OVERVIEW_KEY !in NewKeys(api)
  }

  /** No new operation key is the key of a row the source has now that is not an operation. */
  predicate UpsertFits(rows: Rows, keys: set<string>, source: nat) {
    forall k :: k in keys ==> k in OperationKeys(rows, source) || !KeyTaken(rows, source, k)
  }

  // ---------------------------------------------------------------- the two maps

  /** existingOpMap: the row of each current operation. */
  ghost predicate IsExisting(rows: Rows, source: nat, existing: map<string, nat>) {
    && existing.Keys == OperationKeys(rows, source)
    && forall k :: k in existing ==> existing[k] in rows && IsOperation(rows[existing[k]], source) && rows[existing[k]].key == k
  }

  method ExistingOperations(rows: Rows, source: nat) returns (existing: map<string, nat>)
    ensures IsExisting(rows, source, existing)
  {
    existing := map[];
    var todo := set id | id in rows && IsOperation(rows[id], source);
    while todo != {}
      invariant todo <= rows.Keys
      invariant forall id :: id in rows && IsOperation(rows[id], source) ==> id in todo || rows[id].key in existing
      invariant forall k :: k in existing ==>
        existing[k] in rows && IsOperation(rows[existing[k]], source) && rows[existing[k]].key == k
    {
      var id :| id in todo;
      if IsOperation(rows[id], source) { existing := existing[rows[id].key := id]; }
      todo := todo - {id};
    }
  }

  /** newOpMap: for each key the memory of the last operation that has it; `order` is the order in
      which the map holds its keys. */
  ghost predicate IsNew(api: Api, source: nat, ns: string, n: nat, order: seq<string>, ops: map<string, Memory>)
    requires n <= |api.ops|
  {
    && Lists(order, ops.Keys)
    && (forall i :: 0 <= i < n ==> api.ops[i].key in ops)
    && (forall k :: k in ops ==> LastWins(api, source, ns, n, k, ops[k]))
  }

  ghost predicate LastWins(api: Api, source: nat, ns: string, n: nat, k: string, m: Memory)
    requires n <= |api.ops|
  {
    exists i :: 0 <= i < n && api.ops[i].key == k && m == OperationMemory(api, source, ns, api.ops[i])
      && forall j :: i < j < n ==> api.ops[j].key != k
  }

  method NewOperations(api: Api, source: nat, ns: string) returns (order: seq<string>, ops: map<string, Memory>)
    ensures IsNew(api, source, ns, |api.ops|, order, ops)
    ensures ops.Keys == NewKeys(api)
  {
    order, ops := [], map[];
    for n := 0 to |api.ops|
      invariant IsNew(api, source, ns, n, order, ops)
    {
      var op := api.ops[n];
      NewStep(api, source, ns, n, order, ops);
      if op.key !in ops { order := order + [op.key]; }
      ops := ops[op.key := OperationMemory(api, source, ns, op)];
    }
    forall k | k in ops ensures k in NewKeys(api) { assert LastWins(api, source, ns, |api.ops|, k, ops[k]); }
  }

  lemma NewStep(api: Api, source: nat, ns: string, n: nat, order: seq<string>, ops: map<string, Memory>)
    requires n < |api.ops| && IsNew(api, source, ns, n, order, ops)
    ensures
      var op := api.ops[n];
      IsNew(api, source, ns, n + 1, if op.key in ops then order else order + [op.key],
            ops[op.key := OperationMemory(api, source, ns, op)])
  {
    var op := api.ops[n];
    var ops1 := ops[op.key := OperationMemory(api, source, ns, op)];
    NewOrder(order, ops.Keys, op.key);
    assert ops1.Keys == ops.Keys + {op.key};
    LastSoFar(api, source, ns, n);
    forall k | k in ops1 ensures LastWins(api, source, ns, n + 1, k, ops1[k]) {
      if k != op.key { NotLast(api, source, ns, n, k, ops[k]); }
    }
    assert forall i :: 0 <= i < n + 1 ==> api.ops[i].key in ops1;
  }

  lemma LastSoFar(api: Api, source: nat, ns: string, n: nat)
    requires n < |api.ops|
    ensures LastWins(api, source, ns, n + 1, api.ops[n].key, OperationMemory(api, source, ns, api.ops[n]))
  {
  }

  lemma NotLast(api: Api, source: nat, ns: string, n: nat, k: string, m: Memory)
    requires n < |api.ops| && LastWins(api, source, ns, n, k, m) && api.ops[n].key != k
    ensures LastWins(api, source, ns, n + 1, k, m)
  {
  }

  lemma NewOrder(order: seq<string>, keys: set<string>, k: string)
    requires Lists(order, keys)
    ensures Lists(if k in keys then order else order + [k], keys + {k})
  {
  }

  // ---------------------------------------------------------------- update and insert

  /** Rows while the new operations are written, `done` being the keys written so far. */
  ghost predicate Upserted(before: Rows, rows: Rows, source: nat, ops: map<string, Memory>, done: set<string>) {
    && (forall id :: id in before ==> id in rows)
    && (forall id :: id in before && !(IsOperation(before[id], source) && before[id].key in done) ==> rows[id] == before[id])
    && (forall id :: id in before && IsOperation(before[id], source) && before[id].key in done ==>
          before[id].key in ops && rows[id] == ops[before[id].key])
    && (forall id :: id in rows && id !in before ==>
          rows[id].key in done && rows[id].key in ops && rows[id] == ops[rows[id].key]
          && rows[id].key !in OperationKeys(before, source))
    && (forall k :: k in done && k in ops && k !in OperationKeys(before, source) ==> Holds(rows, before, ops[k]))
  }

  ghost predicate OpsOk(ops: map<string, Memory>, source: nat, ns: string) {
    forall k :: k in ops ==> ops[k].key == k && IsOperation(ops[k], source) && ops[k].ns == ns && ops[k].pending
  }

  method Upsert(store: ApiMemoryStore, source: nat, ns: string, order: seq<string>, ops: map<string, Memory>,
                existing: map<string, nat>) returns (ok: bool, created: nat, updated: nat)
    requires store.Valid() && OpsOk(ops, source, ns) && IsExisting(store.rows, source, existing)
    requires forall id :: id in store.rows && store.rows[id].source == source ==> store.rows[id].ns == ns
    requires Lists(order, ops.Keys)
    modifies store
    ensures store.Valid() && store.nextId >= old(store.nextId)
    ensures ok <==> UpsertFits(old(store.rows), ops.Keys, source)
    ensures ok ==> Upserted(old(store.rows), store.rows, source, ops, ops.Keys)
    ensures ok ==> Counted(ops.Keys, existing.Keys, created, updated)
  {
    ghost var before := store.rows;
    ghost var done: set<string> := {};
    created, updated := 0, 0;
    for n := 0 to |order|
      invariant store.Valid() && store.nextId >= old(store.nextId)
      invariant DoneUpTo(order, n, done)
      invariant Upserted(before, store.rows, source, ops, done)
      invariant UpsertFits(before, done, source)
      invariant Counted(done, existing.Keys, created, updated)
    {
      var k := order[n];
      NextKey(order, n, done);
      CountOne(done, existing.Keys, k, created, updated);
      ok := UpsertOne(store, source, ns, k, ops, existing, before, done);
      if !ok { return; }
      if k in existing { updated := updated + 1; } else { created := created + 1; }
      done := done + {k};
    }
    AllDone(order, done, ops.Keys);
    ok := true;
  }

  /** `order` lists the keys, each once. */
  ghost predicate Lists(order: seq<string>, keys: set<string>) {
    && (forall i, j :: 0 <= i < j < |order| ==> order[i] != order[j])
    && (forall k :: k in order <==> k in keys)
  }

  ghost predicate DoneUpTo(order: seq<string>, n: nat, done: set<string>)
    requires n <= |order|
  {
    && (forall i :: 0 <= i < n ==> order[i] in done)
    && (forall i :: n <= i < |order| ==> order[i] !in done)
    && (forall k :: k in done ==> k in order)
  }

  lemma NextKey(order: seq<string>, n: nat, done: set<string>)
    requires n < |order| && DoneUpTo(order, n, done)
    requires forall i, j :: 0 <= i < j < |order| ==> order[i] != order[j]
    ensures order[n] in order && order[n] !in done && DoneUpTo(order, n + 1, done + {order[n]})
  {
  }

  lemma AllDone(order: seq<string>, done: set<string>, keys: set<string>)
    requires DoneUpTo(order, |order|, done) && Lists(order, keys)
    ensures done == keys
  {
  }

  ghost predicate Counted(done: set<string>, existing: set<string>, created: nat, updated: nat) {
    created == |done - existing| && updated == |done * existing|
  }

  lemma CountOne(done: set<string>, existing: set<string>, k: string, created: nat, updated: nat)
    requires k !in done && Counted(done, existing, created, updated)
    ensures k in existing ==> Counted(done + {k}, existing, created, updated + 1)
    ensures k !in existing ==> Counted(done + {k}, existing, created + 1, updated)
  {
    if k in existing {
      assert (done + {k}) - existing == done - existing;
      assert (done + {k}) * existing == done * existing + {k};
    } else {
      assert (done + {k}) - existing == done - existing + {k};
      assert (done + {k}) * existing == done * existing;
    }
  }

  /** One key: UPDATE its row if it has one, otherwise INSERT. */
  method UpsertOne(store: ApiMemoryStore, source: nat, ns: string, k: string, ops: map<string, Memory>,
                   existing: map<string, nat>, ghost before: Rows, ghost done: set<string>) returns (ok: bool)
    requires store.Valid() && OpsOk(ops, source, ns) && IsExisting(before, source, existing) && UniqueKeys(before)
    requires forall id :: id in before && before[id].source == source ==> before[id].ns == ns
    requires k in ops && k !in done && Upserted(before, store.rows, source, ops, done)
    modifies store
    ensures store.Valid() && store.nextId >= old(store.nextId)
    ensures ok <==> k in OperationKeys(before, source) || !KeyTaken(before, source, k)
    ensures ok ==> Upserted(before, store.rows, source, ops, done + {k})
  {
    ghost var mid := store.rows;
    if k in existing {
      UpdateRow(store, existing[k], ops[k]);
      UpdatedStep(before, mid, store.rows, source, ops, done, k, existing[k]);
      ok := true;
    } else {
      TakenBefore(before, mid, source, ops, done, k);
      ghost var id := store.nextId;
      ok := store.Insert(ops[k]);
      if ok { InsertedStep(before, mid, store.rows, source, ops, done, k, id); }
    }
  }

  /** The UPDATE of an existing operation: title, content, metadata, tags, embedding status. */
  method UpdateRow(store: ApiMemoryStore, id: nat, m: Memory)
    requires store.Valid() && id in store.rows
    requires store.rows[id].source == m.source && store.rows[id].ns == m.ns
    requires store.rows[id].kind == m.kind && store.rows[id].key == m.key && m.pending
    modifies store`rows
    ensures store.Valid() && store.rows == old(store.rows)[id := m]
  {
    store.rows := store.rows[id := store.rows[id].(
      title := m.title, content := m.content, metadata := m.metadata, tags := m.tags, pending := true)];
  }

  lemma UpdatedStep(before: Rows, mid: Rows, rows: Rows, source: nat, ops: map<string, Memory>, done: set<string>,
                    k: string, id: nat)
    requires UniqueKeys(before) && Upserted(before, mid, source, ops, done) && k in ops && k !in done
    requires id in before && IsOperation(before[id], source) && before[id].key == k
    requires rows == mid[id := ops[k]]
    ensures Upserted(before, rows, source, ops, done + {k})
  {
    forall q | q in done + {k} && q in ops && q !in OperationKeys(before, source) ensures Holds(rows, before, ops[q]) {
      StillHolds(before, mid, rows, id, ops[q]);
    }
  }

  lemma StillHolds(before: Rows, mid: Rows, rows: Rows, id: nat, m: Memory)
    requires Holds(mid, before, m) && id in before && forall j :: j in mid && j != id ==> j in rows && rows[j] == mid[j]
    ensures Holds(rows, before, m)
  {
    var j :| j in mid && j !in before && mid[j] == m;
    assert rows[j] == m;
  }

  lemma InsertedStep(before: Rows, mid: Rows, rows: Rows, source: nat, ops: map<string, Memory>, done: set<string>,
                     k: string, id: nat)
    requires Upserted(before, mid, source, ops, done) && OpsHaveKeys(ops) && k in ops && k !in done
    requires k !in OperationKeys(before, source) && id !in mid && rows == mid[id := ops[k]]
    ensures Upserted(before, rows, source, ops, done + {k})
  {
    forall q | q in done + {k} && q in ops && q !in OperationKeys(before, source) ensures Holds(rows, before, ops[q]) {
      if q == k {
        assert rows[id] == ops[k];
      } else {
        assert Holds(mid, before, ops[q]);
        var j :| j in mid && j !in before && mid[j] == ops[q];
        assert rows[j] == ops[q];
      }
    }
  }

  ghost predicate OpsHaveKeys(ops: map<string, Memory>) {
    forall k :: k in ops ==> ops[k].key == k
  }

  lemma TakenBefore(before: Rows, mid: Rows, source: nat, ops: map<string, Memory>, done: set<string>, k: string)
    requires Upserted(before, mid, source, ops, done) && OpsHaveKeys(ops) && k !in done
    ensures KeyTaken(mid, source, k) <==> KeyTaken(before, source, k)
  {
    forall id | id in before && before[id].source == source && before[id].key == k
      ensures mid[id].source == source && mid[id].key == k
    {
    }
  }

  // ---------------------------------------------------------------- the rest of the diff

  ghost predicate Has(rows: Rows, m: Memory) {
    exists id :: id in rows && rows[id] == m
  }

  /** The source's operation rows are exactly the new operations. */
  ghost predicate OpsExactly(rows: Rows, source: nat, ops: map<string, Memory>) {
    && (forall id :: id in rows && IsOperation(rows[id], source) ==>
          rows[id].key in ops && rows[id] == ops[rows[id].key])
    && (forall k :: k in ops ==> Has(rows, ops[k]))
  }

  /** Deletes the operations that are no longer in the specification. */
  method DeleteStale(store: ApiMemoryStore, source: nat, ops: map<string, Memory>, existing: map<string, nat>,
                     ghost before: Rows) returns (deleted: nat, ghost gone: set<nat>)
    requires store.Valid() && AreOperations(ops, source) && UniqueKeys(before) && IsExisting(before, source, existing)
    modifies store`rows
    ensures store.Valid() && store.rows == old(store.rows) - gone
    ensures forall id :: id in gone <==> Stale(before, source, ops, id)
    ensures deleted == |existing.Keys - ops.Keys|
  {
    gone := {};
    var todo := existing.Keys - ops.Keys;
    deleted := 0;
    while todo != {}
      invariant todo <= existing.Keys - ops.Keys
      invariant deleted + |todo| == |existing.Keys - ops.Keys|
      invariant store.Valid() && store.rows == old(store.rows) - gone
      invariant Visited(before, source, ops, existing, todo, gone)
    {
      var k :| k in todo;
      VisitStep(before, source, ops, existing, todo, gone, k);
      WithoutOneMore(old(store.rows), gone, existing[k]);
      gone := gone + {existing[k]};
      RemoveRow(store, existing[k]);
      todo := todo - {k};
      deleted := deleted + 1;
    }
    AllVisited(before, source, ops, existing, gone);
  }

  method RemoveRow(store: ApiMemoryStore, id: nat)
    requires store.Valid()
    modifies store`rows
    ensures store.Valid() && store.rows == old(store.rows) - {id}
  {
    store.rows := store.rows - {id};
  }

  lemma WithoutOneMore(rows: Rows, gone: set<nat>, id: nat)
    ensures rows - (gone + {id}) == (rows - gone) - {id}
  {
  }

  lemma VisitStep(before: Rows, source: nat, ops: map<string, Memory>, existing: map<string, nat>,
                  todo: set<string>, gone: set<nat>, k: string)
    requires IsExisting(before, source, existing) && Visited(before, source, ops, existing, todo, gone)
    requires k in todo && todo <= existing.Keys - ops.Keys
    ensures Visited(before, source, ops, existing, todo - {k}, gone + {existing[k]})
  {
  }

  /** `gone` holds the rows of the stale operations outside `todo`. */
  ghost predicate Visited(before: Rows, source: nat, ops: map<string, Memory>, existing: map<string, nat>,
                          todo: set<string>, gone: set<nat>) {
    && (forall k :: k in existing && k !in ops && k !in todo ==> existing[k] in gone)
    && (forall id :: id in gone ==> Stale(before, source, ops, id))
  }

  predicate Stale(before: Rows, source: nat, ops: map<string, Memory>, id: nat) {
    id in before && IsOperation(before[id], source) && before[id].key !in ops
  }

  lemma AllVisited(before: Rows, source: nat, ops: map<string, Memory>, existing: map<string, nat>, gone: set<nat>)
    requires IsExisting(before, source, existing) && UniqueKeys(before) && Visited(before, source, ops, existing, {}, gone)
    ensures forall id :: id in gone <==> Stale(before, source, ops, id)
  {
    forall id | Stale(before, source, ops, id) ensures id in gone {
      var k := before[id].key;
      assert k in OperationKeys(before, source);
      assert existing[k] == id;
    }
  }

  predicate AreOperations(ops: map<string, Memory>, source: nat) {
    forall k :: k in ops ==> ops[k].key == k && IsOperation(ops[k], source)
  }

  /** An operation that is in both specifications keeps its row id. */
  ghost predicate SurvivorsKeepIds(before: Rows, rows: Rows, source: nat, ops: map<string, Memory>) {
    forall id :: id in before && IsOperation(before[id], source) && before[id].key in ops ==>
      id in rows && rows[id] == ops[before[id].key]
  }

  lemma StaleGone(before: Rows, mid: Rows, rows: Rows, source: nat, ops: map<string, Memory>, gone: set<nat>)
    requires AreOperations(ops, source) && Upserted(before, mid, source, ops, ops.Keys)
    requires rows == mid - gone && forall id :: id in gone <==> Stale(before, source, ops, id)
    ensures OpsExactly(rows, source, ops) && SurvivorsKeepIds(before, rows, source, ops)
    ensures Others(rows, source) == Others(before, source)
  {
    forall k | k in ops ensures Has(rows, ops[k]) {
      OpSurvives(before, mid, rows, source, ops, gone, k);
    }
    OthersUntouched(before, mid, source, ops);
    forall id ensures id in Others(rows, source) <==> id in Others(mid, source) {
      assert id in gone ==> before[id].source == source && mid[id].source == source;
    }
    assert Others(rows, source) == Others(mid, source);
  }

  lemma OthersUntouched(before: Rows, mid: Rows, source: nat, ops: map<string, Memory>)
    requires AreOperations(ops, source) && Upserted(before, mid, source, ops, ops.Keys)
    ensures Others(mid, source) == Others(before, source)
    ensures forall id :: Stale(before, source, ops, id) ==> id in mid && mid[id] == before[id]
  {
  }

  lemma OpSurvives(before: Rows, mid: Rows, rows: Rows, source: nat, ops: map<string, Memory>, gone: set<nat>, k: string)
    requires AreOperations(ops, source) && Upserted(before, mid, source, ops, ops.Keys) && k in ops
    requires rows == mid - gone && forall id :: id in gone <==> Stale(before, source, ops, id)
    ensures Has(rows, ops[k])
  {
    if k in OperationKeys(before, source) {
      var id :| id in before && IsOperation(before[id], source) && before[id].key == k;
      assert rows[id] == ops[k];
    } else {
      assert Holds(mid, before, ops[k]);
      var id :| id in mid && id !in before && mid[id] == ops[k];
      assert rows[id] == ops[k];
    }
  }

  /** Deletes the source's rows of one kind. */
  method DeleteKind(store: ApiMemoryStore, source: nat, kind: Kind)
    requires store.Valid()
    modifies store`rows
    ensures store.Valid()
    ensures store.rows == WithoutKind(old(store.rows), source, kind)
  {
    store.rows := WithoutKind(store.rows, source, kind);
  }

  function WithoutKind(rows: Rows, source: nat, kind: Kind): Rows {
    map id | id in rows && !(rows[id].source == source && rows[id].kind == kind) :: rows[id]
  }

  /** What a refresh leaves of the source: the new operations, tag groups and overview. */
  ghost predicate Refreshed(before: Rows, rows: Rows, api: Api, source: nat, ns: string, ops: map<string, Memory>) {
    && Contents(rows, source) == ops.Values + Elements(TagGroupMemories(api, source, ns)) + {OverviewMemory(api, source, ns)}
    && Others(rows, source) == Others(before, source)
    && SurvivorsKeepIds(before, rows, source, ops)
  }

  /** refreshApiSource after the hash has changed. It gets through if and only if RefreshFits; otherwise
      the transaction is rolled back. */
  method Refresh(store: ApiMemoryStore, api: Api, source: nat, ns: string)
    returns (ok: bool, report: Report, ghost ops: map<string, Memory>)
    requires store.Valid()
    requires forall id :: id in store.rows && store.rows[id].source == source ==> store.rows[id].ns == ns
    modifies store
    ensures store.Valid()
    ensures ok <==> RefreshFits(old(store.rows), api, source, ns)
    ensures !ok ==> store.rows == old(store.rows)
    ensures ops.Keys == NewKeys(api) && forall k :: k in ops ==> LastWins(api, source, ns, |api.ops|, k, ops[k])
    ensures ok ==> Refreshed(old(store.rows), store.rows, api, source, ns, ops)
    ensures ok ==> Describes(store.rows, api, source, ns)
    ensures ok ==> report.created + report.updated == |NewKeys(api)|
    ensures ok ==> report.updated + report.deleted == |OperationKeys(old(store.rows), source)|
  {
    var saved := store.rows;
    report := Report(0, 0, 0);
    var existing := ExistingOperations(store.rows, source);
    var order, newOps := NewOperations(api, source, ns);
    ops := newOps;
    OpsAreOk(api, source, ns, order, newOps);
    var created, updated;
    ok, created, updated := Upsert(store, source, ns, order, newOps, existing);
    if !ok {
      store.rows := saved;
      return;
    }
    ghost var mid := store.rows;
    var deleted, gone := DeleteStale(store, source, newOps, existing, saved);
    StaleGone(saved, mid, store.rows, source, newOps, gone);
    CountsAddUp(newOps.Keys, existing.Keys);
    report := Report(created, updated, deleted);
    ok := Regenerate(store, api, source, ns, saved, newOps);
    if ok { RefreshDescribes(store.rows, api, source, ns, order, newOps); } else { store.rows := saved; }
  }

  /** What a refresh leaves is what the specification asks for. */
  lemma RefreshDescribes(rows: Rows, api: Api, source: nat, ns: string, order: seq<string>, ops: map<string, Memory>)
    requires IsNew(api, source, ns, |api.ops|, order, ops)
    requires Contents(rows, source) == ops.Values + Elements(TagGroupMemories(api, source, ns)) + {OverviewMemory(api, source, ns)}
    ensures Describes(rows, api, source, ns)
  {
    forall i | 0 <= i < |api.ops| && IsLast(api, i) ensures OperationMemory(api, source, ns, api.ops[i]) in ops.Values {
      var k := api.ops[i].key;
      assert LastWins(api, source, ns, |api.ops|, k, ops[k]);
    }
    forall m | m in ops.Values
      ensures exists i :: 0 <= i < |api.ops| && IsLast(api, i) && m == OperationMemory(api, source, ns, api.ops[i])
    {
      var k :| k in ops && ops[k] == m;
      assert LastWins(api, source, ns, |api.ops|, k, ops[k]);
      var i :| 0 <= i < |api.ops| && api.ops[i].key == k && m == OperationMemory(api, source, ns, api.ops[i])
        && forall j :: i < j < |api.ops| ==> api.ops[j].key != k;
      assert IsLast(api, i);
    }
    ContentsDescribe(rows, api, source, ns, ops.Values);
  }

  lemma CountsAddUp(a: set<string>, b: set<string>)
    ensures |a - b| + |a * b| == |a| && |a * b| + |b - a| == |b|
  {
    assert a == (a - b) + (a * b);
    assert b == (b - a) + (a * b);
  }

  lemma OpsAreOk(api: Api, source: nat, ns: string, order: seq<string>, ops: map<string, Memory>)
    requires IsNew(api, source, ns, |api.ops|, order, ops)
    ensures OpsOk(ops, source, ns) && AreOperations(ops, source)
  {
    forall k | k in ops ensures ops[k].key == k && IsOperation(ops[k], source) && ops[k].ns == ns && ops[k].pending {
      assert LastWins(api, source, ns, |api.ops|, k, ops[k]);
    }
  }

  /** While tag groups and overview are replaced: the source has the new operations, the tag groups
      `groups`, and perhaps still its old overview. */
  ghost predicate Stage(before: Rows, rows: Rows, source: nat, ops: map<string, Memory>, groups: seq<Memory>, overview: bool) {
    && (forall id :: id in rows && rows[id].source == source ==>
          || (rows[id].key in ops && rows[id] == ops[rows[id].key])
          || rows[id] in groups
          || (overview && rows[id].kind == OverviewKind))
    && (forall k :: k in ops ==> Has(rows, ops[k]))
    && (forall i :: 0 <= i < |groups| ==> Has(rows, groups[i]))
    && Others(rows, source) == Others(before, source)
    && SurvivorsKeepIds(before, rows, source, ops)
  }

  ghost predicate AreGroups(groups: seq<Memory>, source: nat) {
    forall i :: 0 <= i < |groups| ==> groups[i].source == source && groups[i].kind == TagGroupKind && KindKey(groups[i])
  }

  lemma GroupsDeleted(before: Rows, rows: Rows, source: nat, ops: map<string, Memory>)
    requires AreOperations(ops, source) && OpsExactly(rows, source, ops)
    requires SurvivorsKeepIds(before, rows, source, ops) && Others(rows, source) == Others(before, source)
    ensures Stage(before, WithoutKind(rows, source, TagGroupKind), source, ops, [], true)
  {
    var rows' := WithoutKind(rows, source, TagGroupKind);
    forall k | k in ops ensures Has(rows', ops[k]) {
      assert Has(rows, ops[k]);
      var id :| id in rows && rows[id] == ops[k];
      assert rows'[id] == ops[k];
    }
  }

  lemma GroupsInserted(before: Rows, mid: Rows, rows: Rows, source: nat, ops: map<string, Memory>, groups: seq<Memory>)
    requires Stage(before, mid, source, ops, [], true) && Added(mid, rows, groups) && AreGroups(groups, source)
    ensures Stage(before, rows, source, ops, groups, true)
  {
    AddedContents(mid, rows, groups, source);
    forall k | k in ops ensures Has(rows, ops[k]) {
      assert Has(mid, ops[k]);
      var id :| id in mid && mid[id] == ops[k];
      assert rows[id] == ops[k];
    }
    forall i | 0 <= i < |groups| ensures Has(rows, groups[i]) { assert Holds(rows, mid, groups[i]); }
  }

  lemma OverviewDeleted(before: Rows, rows: Rows, source: nat, ops: map<string, Memory>, groups: seq<Memory>)
    requires AreOperations(ops, source) && Stage(before, rows, source, ops, groups, true) && AreGroups(groups, source)
    ensures Stage(before, WithoutKind(rows, source, OverviewKind), source, ops, groups, false)
  {
    var rows' := WithoutKind(rows, source, OverviewKind);
    forall k | k in ops ensures Has(rows', ops[k]) {
      assert Has(rows, ops[k]);
      var id :| id in rows && rows[id] == ops[k];
      assert rows'[id] == ops[k];
    }
    forall i | 0 <= i < |groups| ensures Has(rows', groups[i]) {
      assert Has(rows, groups[i]);
      var id :| id in rows && rows[id] == groups[i];
      assert rows'[id] == groups[i];
    }
  }

  lemma OverviewInserted(before: Rows, mid: Rows, rows: Rows, api: Api, source: nat, ns: string,
                         ops: map<string, Memory>, groups: seq<Memory>, id: nat)
    requires AreOperations(ops, source) && Stage(before, mid, source, ops, groups, false)
    requires groups == TagGroupMemories(api, source, ns) && id !in mid && id !in before
    requires rows == mid[id := OverviewMemory(api, source, ns)]
    ensures Refreshed(before, rows, api, source, ns, ops)
  {
    var m := OverviewMemory(api, source, ns);
    forall x | x in ops.Values + Elements(groups) + {m} ensures x in Contents(rows, source) {
      if x != m {
        assert Has(mid, x) by {
          if x in groups { var i :| 0 <= i < |groups| && groups[i] == x; assert Has(mid, groups[i]); }
        }
        var j :| j in mid && mid[j] == x;
        assert rows[j] == x;
      } else {
        assert rows[id] == m;
      }
    }
  }

  /** Before the tag groups are inserted their keys can only be taken by operations. */
  lemma GroupKeysTaken(before: Rows, rows: Rows, source: nat, ops: map<string, Memory>, groups: seq<Memory>)
    requires AreOperations(ops, source) && Stage(before, rows, source, ops, [], true) && AreGroups(groups, source)
    requires forall id :: id in rows ==> KindKey(rows[id])
    ensures FreshKeys(rows, groups, source) <==>
      DistinctKeys(groups) && forall i :: 0 <= i < |groups| ==> groups[i].key !in ops
  {
    forall i | 0 <= i < |groups| ensures KeyTaken(rows, source, groups[i].key) <==> groups[i].key in ops {
      if groups[i].key in ops { assert Has(rows, ops[groups[i].key]); }
      assert OVERVIEW_KEY[0] == 'o' && groups[i].key[0] == 't';
    }
  }

  /** Before the overview is inserted its key can only be taken by an operation. */
  lemma OverviewKeyTaken(before: Rows, rows: Rows, source: nat, ops: map<string, Memory>, groups: seq<Memory>)
    requires AreOperations(ops, source) && Stage(before, rows, source, ops, groups, false) && AreGroups(groups, source)
    ensures KeyTaken(rows, source, OVERVIEW_KEY) <==> OVERVIEW_KEY in ops
  {
    if OVERVIEW_KEY in ops { assert Has(rows, ops[OVERVIEW_KEY]); }
    assert OVERVIEW_KEY[0] == 'o';
    assert forall i :: 0 <= i < |groups| ==> groups[i].key[0] == 't';
  }

  /** Replaces the tag groups and the overview. */
  method Regenerate(store: ApiMemoryStore, api: Api, source: nat, ns: string, ghost before: Rows, ghost ops: map<string, Memory>)
    returns (ok: bool)
    requires store.Valid() && AreOperations(ops, source) && OpsExactly(store.rows, source, ops)
    requires SurvivorsKeepIds(before, store.rows, source, ops) && Others(store.rows, source) == Others(before, source)
    requires forall id :: id in before ==> id < store.nextId
    modifies store
    ensures store.Valid() && store.nextId >= old(store.nextId)
    ensures ok <==>
      && DistinctKeys(TagGroupMemories(api, source, ns))
      && (forall i :: 0 <= i < |api.tagGroups| ==> TagGroupKey(api.tagGroups[i].tag) !in ops)
      && OVERVIEW_KEY !in ops
    ensures ok ==> Refreshed(before, store.rows, api, source, ns, ops)
  {
    var groups := BuildGroups(api, source, ns);
    assert forall i :: 0 <= i < |groups| ==> groups[i].key == TagGroupKey(api.tagGroups[i].tag);
    ok := ReplaceGroups(store, source, groups, before, ops);
    if !ok { return; }
    ok := ReplaceOverview(store, api, source, ns, groups, before, ops);
  }

  method ReplaceGroups(store: ApiMemoryStore, source: nat, groups: seq<Memory>, ghost before: Rows,
                       ghost ops: map<string, Memory>) returns (ok: bool)
    requires store.Valid() && AreOperations(ops, source) && OpsExactly(store.rows, source, ops) && AreGroups(groups, source)
    requires SurvivorsKeepIds(before, store.rows, source, ops) && Others(store.rows, source) == Others(before, source)
    modifies store
    ensures store.Valid() && store.nextId >= old(store.nextId)
    ensures ok <==> DistinctKeys(groups) && forall i :: 0 <= i < |groups| ==> groups[i].key !in ops
    ensures ok ==> Stage(before, store.rows, source, ops, groups, true)
  {
    GroupsDeleted(before, store.rows, source, ops);
    DeleteKind(store, source, TagGroupKind);
    ghost var mid := store.rows;
    GroupKeysTaken(before, mid, source, ops, groups);
    ok := store.InsertAll(groups, source);
    if ok { GroupsInserted(before, mid, store.rows, source, ops, groups); }
  }

  method ReplaceOverview(store: ApiMemoryStore, api: Api, source: nat, ns: string, groups: seq<Memory>,
                         ghost before: Rows, ghost ops: map<string, Memory>) returns (ok: bool)
    requires store.Valid() && AreOperations(ops, source) && Stage(before, store.rows, source, ops, groups, true)
    requires groups == TagGroupMemories(api, source, ns) && AreGroups(groups, source)
    requires forall id :: id in before ==> id < store.nextId
    modifies store
    ensures store.Valid() && store.nextId >= old(store.nextId)
    ensures ok <==> OVERVIEW_KEY !in ops
    ensures ok ==> Refreshed(before, store.rows, api, source, ns, ops)
  {
    OverviewDeleted(before, store.rows, source, ops, groups);
    DeleteKind(store, source, OverviewKind);
    ghost var mid, id := store.rows, store.nextId;
    OverviewKeyTaken(before, mid, source, ops, groups);
    ok := store.Insert(OverviewMemory(api, source, ns));
    if ok { OverviewInserted(before, mid, store.rows, api, source, ns, ops, groups, id); }
  }

  method BuildGroups(api: Api, source: nat, ns: string) returns (groups: seq<Memory>)
    ensures groups == TagGroupMemories(api, source, ns) && AreGroups(groups, source)
  {
    groups := [];
    for i := 0 to |api.tagGroups|
      invariant groups == TagGroupMemories(api, source, ns)[..i]
    {
      groups := groups + [TagGroupMemory(api, source, ns, api.tagGroups[i])];
    }
    assert groups == TagGroupMemories(api, source, ns);
  }

  // ---------------------------------------------------------------- refresh against onboarding

  /** When onboarding the new specification would succeed, a refresh gets through if and only if no new
      operation takes the key of one of the source's present tag groups or overview, and the source then
      holds exactly what onboarding would have created. */
  lemma RefreshAgreesWithOnboarding(before: Rows, after: Rows, api: Api, source: nat, ns: string,
                                    order: seq<string>, ops: map<string, Memory>)
    requires DistinctKeys(AllMemories(api, source, ns)) && IsNew(api, source, ns, |api.ops|, order, ops)
    ensures RefreshFits(before, api, source, ns) <==> UpsertFits(before, NewKeys(api), source)
    ensures ops.Keys == NewKeys(api) && |ops| == |api.ops|
    ensures Refreshed(before, after, api, source, ns, ops) ==>
      Contents(after, source) == Elements(AllMemories(api, source, ns))
  {
    AllDistinct(api, source, ns);
    OpsAreOperations(api, source, ns, order, ops);
    var list := OperationMemories(api, source, ns);
    assert Elements(AllMemories(api, source, ns))
        == Elements(list) + Elements(TagGroupMemories(api, source, ns)) + {OverviewMemory(api, source, ns)};
    KeyCount(list);
    assert Keys(list) == NewKeys(api) by {
      forall i | 0 <= i < |list| ensures list[i].key in NewKeys(api) { assert api.ops[i] in api.ops; }
      forall k | k in NewKeys(api) ensures k in Keys(list) {
        var i :| 0 <= i < |api.ops| && api.ops[i].key == k;
        assert list[i] in list;
      }
    }
    assert |ops| == |ops.Keys|;
  }

  /** What it takes for all keys to be distinct, part by part. */
  lemma AllDistinct(api: Api, source: nat, ns: string)
    ensures DistinctKeys(AllMemories(api, source, ns)) ==>
      && DistinctKeys(OperationMemories(api, source, ns)) && DistinctKeys(TagGroupMemories(api, source, ns))
      && (forall i :: 0 <= i < |api.tagGroups| ==> TagGroupKey(api.tagGroups[i].tag) !in NewKeys(api))
      && OVERVIEW_KEY !in NewKeys(api)
  {
    var a, b, c := OperationMemories(api, source, ns), TagGroupMemories(api, source, ns), OverviewMemory(api, source, ns);
    if DistinctKeys(AllMemories(api, source, ns)) {
      DistinctParts(a, b, c);
      forall i | 0 <= i < |api.tagGroups| ensures TagGroupKey(api.tagGroups[i].tag) !in NewKeys(api) {
        assert b[i].key == TagGroupKey(api.tagGroups[i].tag);
        forall j | 0 <= j < |api.ops| ensures api.ops[j].key != b[i].key { assert a[j].key == api.ops[j].key; }
      }
      forall j | 0 <= j < |api.ops| ensures api.ops[j].key != OVERVIEW_KEY { assert a[j].key == api.ops[j].key; }
    }
  }

  lemma DistinctParts(a: seq<Memory>, b: seq<Memory>, c: Memory)
    requires DistinctKeys(a + b + [c])
    ensures DistinctKeys(a) && DistinctKeys(b)
    ensures forall i, j :: 0 <= i < |a| && 0 <= j < |b| ==> a[i].key != b[j].key
    ensures forall i :: 0 <= i < |a| ==> a[i].key != c.key
  {
    var all := a + b + [c];
    assert forall i :: 0 <= i < |a| ==> all[i] == a[i];
    assert forall i :: 0 <= i < |b| ==> all[|a| + i] == b[i];
    assert all[|all| - 1] == c;
  }

  /** Operation keys that do not look like the key of a tag group or of the overview, as those made from
      method and path never do, are never refused. */
  lemma PlainKeysFit(before: Rows, api: Api, source: nat, ns: string)
    requires forall id :: id in before ==> KindKey(before[id])
    requires forall k :: k in NewKeys(api) ==> !("tag:" <= k) && k != OVERVIEW_KEY
    ensures RefreshFits(before, api, source, ns) <==> DistinctKeys(TagGroupMemories(api, source, ns))
  {
    forall k | k in NewKeys(api) ensures k in OperationKeys(before, source) || !KeyTaken(before, source, k) {
      if id :| id in before && before[id].source == source && before[id].key == k {
        assert before[id].kind == OperationKind;
      }
    }
    forall i | 0 <= i < |api.tagGroups| ensures TagGroupKey(api.tagGroups[i].tag) !in NewKeys(api) {
      assert "tag:" <= TagGroupKey(api.tagGroups[i].tag);
    }
  }

  ghost function Keys(list: seq<Memory>): set<string> {
    set m | m in list :: m.key
  }

  lemma {:induction false} KeyCount(list: seq<Memory>)
    requires DistinctKeys(list)
    ensures |Keys(list)| == |list|
  {
    if list != [] {
      var front, last := list[..|list| - 1], list[|list| - 1];
      KeyCount(front);
      assert list == front + [last];
      assert Keys(list) == Keys(front) + {last.key};
      assert last.key !in Keys(front);
    }
  }

  lemma OpsAreOperations(api: Api, source: nat, ns: string, order: seq<string>, ops: map<string, Memory>)
    requires IsNew(api, source, ns, |api.ops|, order, ops)
    requires DistinctKeys(OperationMemories(api, source, ns))
    ensures ops.Values == Elements(OperationMemories(api, source, ns)) && ops.Keys == NewKeys(api)
  {
    var list := OperationMemories(api, source, ns);
    forall k | k in ops ensures ops[k] in list && k in NewKeys(api) {
      assert LastWins(api, source, ns, |api.ops|, k, ops[k]);
      var i :| 0 <= i < |api.ops| && api.ops[i].key == k && ops[k] == OperationMemory(api, source, ns, api.ops[i]);
      assert list[i] == ops[k];
    }
    forall i | 0 <= i < |list| ensures list[i] in ops.Values {
      var k := api.ops[i].key;
      assert LastWins(api, source, ns, |api.ops|, k, ops[k]);
    }
  }

  /** The condition can fail: an operation whose id is the key of a tag group that the new specification
      drops is refused by refresh, although onboarding the new specification succeeds. */
  lemma RefreshCanRefuse(gen: Generators, dropped: TagGroup, api0: Api)
    returns (api: Api, before: Rows)
    ensures DistinctKeys(AllMemories(api, 0, "ns"))
    ensures UniqueKeys(before) && (forall id :: id in before ==> KindKey(before[id]))
    ensures !RefreshFits(before, api, 0, "ns")
  {
    var op := Op(TagGroupKey(dropped.tag), "GET", "/", [], "");
    api := Api([op], [], Overview("api", "none", 1, []), gen);
    before := map[0 := TagGroupMemory(api0, 0, "ns", dropped)];
    assert AllMemories(api, 0, "ns")[0].key[0] == 't' && OVERVIEW_KEY[0] == 'o';
    assert op.key in NewKeys(api) by { assert op in api.ops; }
    assert KeyTaken(before, 0, op.key) by { assert before[0].key == op.key; }
    assert op.key !in OperationKeys(before, 0);
  }
}
