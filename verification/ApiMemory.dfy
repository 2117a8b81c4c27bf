/** Memories generated from an API specification: onboarding from scratch (src/api/api-sources/onboard.ts)
    and incremental refresh (refresh.ts) over the api_memory table, whose UNIQUE (api_source_id,
    operation_key) constraint spans all kinds of memory. */
module ApiMemory {

  // ---------------------------------------------------------------- parsed specification

  datatype Op = Op(key: string, verb: string, path: string, tags: seq<string>, text: string)
  datatype TagGroup = TagGroup(tag: string, description: string, operations: seq<string>)
  datatype Overview = Overview(name: string, auth: string, total: nat, groups: seq<(string, nat)>)
  datatype Text = Text(title: string, content: string, quality: string)

  /** The text generators, whatever they do; both onboarding and refresh use the same three. */
  datatype Generators = Generators(
    operation: (Op, string, string) -> Text, tagGroup: (TagGroup, string) -> Text, overview: Overview -> Text)

  datatype Api = Api(ops: seq<Op>, tagGroups: seq<TagGroup>, overview: Overview, gen: Generators)

  // ---------------------------------------------------------------- memory rows

  datatype Kind = OperationKind | TagGroupKind | OverviewKind
  datatype Metadata =
    | OperationData(verb: string, path: string, tags: seq<string>, quality: string)
    | TagGroupData(tag: string, count: nat)
    | OverviewData(total: nat, groups: seq<(string, nat)>)

  datatype Memory = Memory(
    source: nat, ns: string, kind: Kind, key: string, title: string, content: string,
    metadata: Metadata, tags: seq<string>, pending: bool)

  type Rows = map<nat, Memory>

  function OperationMemory(api: Api, source: nat, ns: string, op: Op): Memory {
    var t := api.gen.operation(op, api.overview.name, api.overview.auth);
    Memory(source, ns, OperationKind, op.key, t.title, t.content,
           OperationData(op.verb, op.path, op.tags, t.quality), op.tags, true)
  }

  function TagGroupKey(tag: string): string {
    "tag:" + tag
  }

  function TagGroupMemory(api: Api, source: nat, ns: string, g: TagGroup): Memory {
    var t := api.gen.tagGroup(g, api.overview.name);
    Memory(source, ns, TagGroupKind, TagGroupKey(g.tag), t.title, t.content,
           TagGroupData(g.tag, |g.operations|), [g.tag], true)
  }

  const OVERVIEW_KEY := "overview"

  function OverviewMemory(api: Api, source: nat, ns: string): Memory {
    var t := api.gen.overview(api.overview);
    Memory(source, ns, OverviewKind, OVERVIEW_KEY, t.title, t.content,
           OverviewData(api.overview.total, api.overview.groups), [], true)
  }

  function OperationMemories(api: Api, source: nat, ns: string): seq<Memory> {
    seq(|api.ops|, i requires 0 <= i < |api.ops| => OperationMemory(api, source, ns, api.ops[i]))
  }

  function TagGroupMemories(api: Api, source: nat, ns: string): seq<Memory> {
    seq(|api.tagGroups|, i requires 0 <= i < |api.tagGroups| => TagGroupMemory(api, source, ns, api.tagGroups[i]))
  }

  /** Everything onboarding inserts, in order. */
  function AllMemories(api: Api, source: nat, ns: string): seq<Memory> {
    OperationMemories(api, source, ns) + TagGroupMemories(api, source, ns) + [OverviewMemory(api, source, ns)]
  }

  // ---------------------------------------------------------------- the table

  predicate KeyTaken(rows: Rows, source: nat, key: string) {
    exists id :: id in rows && rows[id].source == source && rows[id].key == key
  }

  ghost predicate UniqueKeys(rows: Rows) {
    forall a, b :: a in rows && b in rows && rows[a].source == rows[b].source && rows[a].key == rows[b].key ==> a == b
  }

  /** Tag groups and overviews are only ever written under their own keys. */
  predicate KindKey(m: Memory) {
    (m.kind == OverviewKind ==> m.key == OVERVIEW_KEY) && (m.kind == TagGroupKind ==> "tag:" <= m.key)
  }

  /** The memories of one source, without their row ids. */
  ghost function Contents(rows: Rows, source: nat): set<Memory> {
    set id | id in rows && rows[id].source == source :: rows[id]
  }

  /** The rows of every other source. */
  function Others(rows: Rows, source: nat): Rows {
    map id | id in rows && rows[id].source != source :: rows[id]
  }

  function OperationKeys(rows: Rows, source: nat): set<string> {
    set id | id in rows && rows[id].source == source && rows[id].kind == OperationKind :: rows[id].key
  }

  predicate DistinctKeys(list: seq<Memory>) {
    forall i, j :: 0 <= i < j < |list| ==> list[i].key != list[j].key
  }

  ghost function Elements(list: seq<Memory>): set<Memory> {
    set m | m in list
  }

  /** `rows` is `before` with exactly the memories of `list` added under new ids. */
  ghost predicate Added(before: Rows, rows: Rows, list: seq<Memory>) {
    && (forall id :: id in before ==> id in rows && rows[id] == before[id])
    && (forall id :: id in rows && id !in before ==> rows[id] in list)
    && (forall i :: 0 <= i < |list| ==> Holds(rows, before, list[i]))
  }

  ghost predicate Holds(rows: Rows, before: Rows, m: Memory) {
    exists id :: id in rows && id !in before && rows[id] == m
  }

  // ---------------------------------------------------------------- the rows a specification asks for

  /** The row of an operation, column by column. */
  predicate IsOperationRow(m: Memory, api: Api, source: nat, ns: string, op: Op) {
    var text := api.gen.operation(op, api.overview.name, api.overview.auth);
    && m.source == source && m.ns == ns && m.kind.OperationKind? && m.key == op.key
    && m.title == text.title && m.content == text.content && m.tags == op.tags && m.pending
    && m.metadata.OperationData? && m.metadata.verb == op.verb && m.metadata.path == op.path
    && m.metadata.tags == op.tags && m.metadata.quality == text.quality
  }

  predicate IsTagGroupRow(m: Memory, api: Api, source: nat, ns: string, g: TagGroup) {
    var text := api.gen.tagGroup(g, api.overview.name);
    && m.source == source && m.ns == ns && m.kind.TagGroupKind? && m.key == "tag:" + g.tag
    && m.title == text.title && m.content == text.content && m.tags == [g.tag] && m.pending
    && m.metadata.TagGroupData? && m.metadata.tag == g.tag && m.metadata.count == |g.operations|
  }

  predicate IsOverviewRow(m: Memory, api: Api, source: nat, ns: string) {
    var text := api.gen.overview(api.overview);
    && m.source == source && m.ns == ns && m.kind.OverviewKind? && m.key == "overview"
    && m.title == text.title && m.content == text.content && m.tags == [] && m.pending
    && m.metadata.OverviewData? && m.metadata.total == api.overview.total && m.metadata.groups == api.overview.groups
  }

  /** No later operation has the same key. */
  predicate IsLast(api: Api, i: nat)
    requires i < |api.ops|
  {
    forall j :: i < j < |api.ops| ==> api.ops[j].key != api.ops[i].key
  }

  ghost predicate HasOperation(rows: Rows, api: Api, source: nat, ns: string, op: Op) {
    exists id :: id in rows && IsOperationRow(rows[id], api, source, ns, op)
  }

  ghost predicate HasTagGroup(rows: Rows, api: Api, source: nat, ns: string, g: TagGroup) {
    exists id :: id in rows && IsTagGroupRow(rows[id], api, source, ns, g)
  }

  ghost predicate HasOverview(rows: Rows, api: Api, source: nat, ns: string) {
    exists id :: id in rows && IsOverviewRow(rows[id], api, source, ns)
  }

  ghost predicate AskedFor(m: Memory, api: Api, source: nat, ns: string) {
    || (exists i :: 0 <= i < |api.ops| && IsLast(api, i) && IsOperationRow(m, api, source, ns, api.ops[i]))
    || (exists i :: 0 <= i < |api.tagGroups| && IsTagGroupRow(m, api, source, ns, api.tagGroups[i]))
    || IsOverviewRow(m, api, source, ns)
  }

  /** The source has a row for every operation (the last one of each key), for every tag group and for the
      overview, and no other row. */
  ghost predicate Describes(rows: Rows, api: Api, source: nat, ns: string) {
    && (forall i :: 0 <= i < |api.ops| && IsLast(api, i) ==> HasOperation(rows, api, source, ns, api.ops[i]))
    && (forall i :: 0 <= i < |api.tagGroups| ==> HasTagGroup(rows, api, source, ns, api.tagGroups[i]))
    && HasOverview(rows, api, source, ns)
    && (forall id :: id in rows && rows[id].source == source ==> AskedFor(rows[id], api, source, ns))
  }

  /** The generated memories are the rows asked for. */
  lemma MemoryColumns(api: Api, source: nat, ns: string)
    ensures forall op :: IsOperationRow(OperationMemory(api, source, ns, op), api, source, ns, op)
    ensures forall g :: IsTagGroupRow(TagGroupMemory(api, source, ns, g), api, source, ns, g)
    ensures IsOverviewRow(OverviewMemory(api, source, ns), api, source, ns)
  {
  }

  /** A source that holds an operation memory for each key, the tag group memories and the overview memory,
      and nothing else, is described. */
  lemma ContentsDescribe(rows: Rows, api: Api, source: nat, ns: string, ops: set<Memory>)
    requires Contents(rows, source) == ops + Elements(TagGroupMemories(api, source, ns)) + {OverviewMemory(api, source, ns)}
    requires forall i :: 0 <= i < |api.ops| && IsLast(api, i) ==> OperationMemory(api, source, ns, api.ops[i]) in ops
    requires forall m :: m in ops ==>
      exists i :: 0 <= i < |api.ops| && IsLast(api, i) && m == OperationMemory(api, source, ns, api.ops[i])
    ensures Describes(rows, api, source, ns)
  {
    MemoryColumns(api, source, ns);
    var groups, last := TagGroupMemories(api, source, ns), OverviewMemory(api, source, ns);
    forall i | 0 <= i < |api.ops| && IsLast(api, i) ensures HasOperation(rows, api, source, ns, api.ops[i]) {
      var id := RowOf(rows, source, OperationMemory(api, source, ns, api.ops[i]));
    }
    forall i | 0 <= i < |api.tagGroups| ensures HasTagGroup(rows, api, source, ns, api.tagGroups[i]) {
      assert groups[i] in groups;
      var id := RowOf(rows, source, groups[i]);
    }
    var id := RowOf(rows, source, last);
    forall id | id in rows && rows[id].source == source ensures AskedFor(rows[id], api, source, ns) {
      var m := rows[id];
      assert m in Contents(rows, source);
      if m in ops {
        var i :| 0 <= i < |api.ops| && IsLast(api, i) && m == OperationMemory(api, source, ns, api.ops[i]);
        assert IsOperationRow(m, api, source, ns, api.ops[i]);
      } else if m in groups {
        var i :| 0 <= i < |groups| && groups[i] == m;
        assert IsTagGroupRow(m, api, source, ns, api.tagGroups[i]);
      }
    }
  }

  lemma RowOf(rows: Rows, source: nat, m: Memory) returns (id: nat)
    requires m in Contents(rows, source)
    ensures id in rows && rows[id] == m
  {
    id :| id in rows && rows[id] == m;
  }

  /** All keys of a specification are distinct: those of its operations, its tags, and one from the other. */
  predicate KeysApart(api: Api) {
    && (forall i, j :: 0 <= i < j < |api.ops| ==> api.ops[i].key != api.ops[j].key)
    && (forall i, j :: 0 <= i < j < |api.tagGroups| ==> api.tagGroups[i].tag != api.tagGroups[j].tag)
    && (forall i, j :: 0 <= i < |api.ops| && 0 <= j < |api.tagGroups| ==> api.ops[i].key != "tag:" + api.tagGroups[j].tag)
    && (forall i :: 0 <= i < |api.ops| ==> api.ops[i].key != "overview")
  }

  lemma DistinctIffApart(api: Api, source: nat, ns: string)
    ensures DistinctKeys(AllMemories(api, source, ns)) <==> KeysApart(api)
  {
    var all, n, m := AllMemories(api, source, ns), |api.ops|, |api.tagGroups|;
    assert forall i :: 0 <= i < n ==> all[i].key == api.ops[i].key;
    assert forall i :: 0 <= i < m ==> all[n + i].key == "tag:" + api.tagGroups[i].tag;
    assert all[n + m].key == "overview" && |all| == n + m + 1;
    if KeysApart(api) {
      forall i, j | 0 <= i < j < |all| ensures all[i].key != all[j].key {
        if n <= i && j < n + m {
          SameTag(api.tagGroups[i - n].tag, api.tagGroups[j - n].tag);
        } else if n <= i {
          assert ("tag:" + api.tagGroups[i - n].tag)[0] == 't' && "overview"[0] == 'o';
        }
      }
    }
  }

  lemma SameTag(a: string, b: string)
    ensures "tag:" + a == "tag:" + b ==> a == b
  {
    assert ("tag:" + a)[4..] == a && ("tag:" + b)[4..] == b;
  }

  class ApiMemoryStore {
    var rows: Rows
    var nextId: nat

    ghost predicate Valid()
      reads this
    {
      && UniqueKeys(rows)
      && (forall id :: id in rows ==> id < nextId && KindKey(rows[id]))
    }

    /** INSERT, refused by the unique constraint if the source already has the key. */
    method Insert(m: Memory) returns (ok: bool)
      requires Valid() && KindKey(m)
      modifies this
      ensures Valid()
      ensures ok <==> !KeyTaken(old(rows), m.source, m.key)
      ensures ok ==> old(nextId) !in old(rows) && rows == old(rows)[old(nextId) := m]
      ensures nextId >= old(nextId)
      ensures !ok ==> rows == old(rows)
    {
      ok := !KeyTaken(rows, m.source, m.key);
      if ok {
        rows := rows[nextId := m];
        nextId := nextId + 1;
      }
    }

    /** Inserts a list; it stops at the first refused row. */
    method InsertAll(list: seq<Memory>, source: nat) returns (ok: bool)
      requires Valid()
      requires forall i :: 0 <= i < |list| ==> list[i].source == source && KindKey(list[i])
      modifies this
      ensures Valid()
      ensures ok <==> FreshKeys(old(rows), list, source)
      ensures ok ==> Added(old(rows), rows, list)
      ensures nextId >= old(nextId)
    {
      for n := 0 to |list|
        invariant Valid() && nextId >= old(nextId)
        invariant Added(old(rows), rows, list[..n])
        invariant FreshKeys(old(rows), list[..n], source)
      {
        KeyAfter(old(rows), rows, list, n, source);
        ghost var before, id := rows, nextId;
        ok := Insert(list[n]);
        if !ok { return; }
        AddedStep(old(rows), before, rows, list, n, id);
      }
      assert list[..|list|] == list;
      ok := true;
    }

    /** onboardApiSource, from the parsed specification on. It succeeds if and only if all keys are
        distinct; a refused row rolls the whole transaction back. */
    method Onboard(api: Api, source: nat, ns: string) returns (ok: bool, created: nat)
      requires Valid() && Contents(rows, source) == {}
      modifies this
      ensures Valid()
      ensures ok <==> DistinctKeys(AllMemories(api, source, ns))
      ensures ok <==> KeysApart(api)
      ensures ok ==> Describes(rows, api, source, ns)
      ensures Others(rows, source) == Others(old(rows), source)
      ensures ok ==> Contents(rows, source) == Elements(AllMemories(api, source, ns))
      ensures ok ==> created == |api.ops| + |api.tagGroups| + 1
      ensures !ok ==> rows == old(rows)
    {
      var saved := rows;
      var inputs: seq<Memory> := [];
      for i := 0 to |api.ops|
        invariant inputs == OperationMemories(api, source, ns)[..i]
      {
        inputs := inputs + [OperationMemory(api, source, ns, api.ops[i])];
      }
      assert inputs == OperationMemories(api, source, ns);
      for i := 0 to |api.tagGroups|
        invariant inputs == OperationMemories(api, source, ns) + TagGroupMemories(api, source, ns)[..i]
      {
        inputs := inputs + [TagGroupMemory(api, source, ns, api.tagGroups[i])];
      }
      assert TagGroupMemories(api, source, ns)[..|api.tagGroups|] == TagGroupMemories(api, source, ns);
      inputs := inputs + [OverviewMemory(api, source, ns)];
      assert forall i :: 0 <= i < |inputs| ==> inputs[i].source == source && KindKey(inputs[i]);
      NothingTaken(rows, source);
      ok := InsertAll(inputs, source);
      created := |inputs|;
      DistinctIffApart(api, source, ns);
      if ok {
        AddedContents(saved, rows, inputs, source);
        OnboardDescribes(rows, api, source, ns);
      } else {
        rows := saved;
      }
    }
  }

  lemma OnboardDescribes(rows: Rows, api: Api, source: nat, ns: string)
    requires KeysApart(api) && Contents(rows, source) == Elements(AllMemories(api, source, ns))
    ensures Describes(rows, api, source, ns)
  {
    var ops, groups := OperationMemories(api, source, ns), TagGroupMemories(api, source, ns);
    assert Elements(AllMemories(api, source, ns)) == Elements(ops) + Elements(groups) + {OverviewMemory(api, source, ns)};
    forall i | 0 <= i < |api.ops| ensures OperationMemory(api, source, ns, api.ops[i]) in Elements(ops) { assert ops[i] in ops; }
    forall m | m in Elements(ops)
      ensures exists i :: 0 <= i < |api.ops| && IsLast(api, i) && m == OperationMemory(api, source, ns, api.ops[i])
    {
      var i :| 0 <= i < |ops| && ops[i] == m;
      assert IsLast(api, i);
    }
    ContentsDescribe(rows, api, source, ns, Elements(ops));
  }

  /** No two of the list share a key, and no row of the source has one of their keys. */
  ghost predicate FreshKeys(rows: Rows, list: seq<Memory>, source: nat) {
    DistinctKeys(list) && forall i :: 0 <= i < |list| ==> !KeyTaken(rows, source, list[i].key)
  }

  lemma KeyAfter(start: Rows, rows: Rows, list: seq<Memory>, n: nat, source: nat)
    requires n < |list| && Added(start, rows, list[..n]) && FreshKeys(start, list[..n], source)
    requires forall i :: 0 <= i < |list| ==> list[i].source == source
    ensures KeyTaken(rows, source, list[n].key) ==> !FreshKeys(start, list, source)
    ensures !KeyTaken(rows, source, list[n].key) ==> FreshKeys(start, list[..n + 1], source)
  {
    if id :| id in rows && rows[id].source == source && rows[id].key == list[n].key {
      if id !in start { assert rows[id] in list[..n]; }
    } else {
      forall i | 0 <= i < n ensures list[i].key != list[n].key {
        assert list[..n][i] == list[i] && Holds(rows, start, list[i]);
      }
      forall id | id in start ensures !(start[id].source == source && start[id].key == list[n].key) {
        assert rows[id] == start[id];
      }
      assert list[..n + 1] == list[..n] + [list[n]];
    }
  }

  lemma AddedStep(start: Rows, before: Rows, rows: Rows, list: seq<Memory>, n: nat, id: nat)
    requires n < |list| && Added(start, before, list[..n])
    requires id !in before && rows == before[id := list[n]]
    ensures Added(start, rows, list[..n + 1])
  {
    assert list[..n + 1] == list[..n] + [list[n]];
    forall i | 0 <= i < n + 1 ensures Holds(rows, start, list[i]) {
      if i < n {
        assert list[..n][i] == list[i] && Holds(before, start, list[i]);
        var j :| j in before && j !in start && before[j] == list[i];
        assert rows[j] == list[i];
      } else {
        assert rows[id] == list[n];
      }
    }
  }

  lemma NothingTaken(rows: Rows, source: nat)
    requires Contents(rows, source) == {}
    ensures forall key :: !KeyTaken(rows, source, key)
  {
    assert forall id :: id in rows && rows[id].source == source ==> rows[id] in Contents(rows, source);
  }

  lemma AddedContents(before: Rows, rows: Rows, list: seq<Memory>, source: nat)
    requires Added(before, rows, list) && forall i :: 0 <= i < |list| ==> list[i].source == source
    ensures Contents(rows, source) == Contents(before, source) + Elements(list)
    ensures Others(rows, source) == Others(before, source)
  {
    forall m | m in Contents(before, source) + Elements(list) ensures m in Contents(rows, source) {
      if m in list {
        var i :| 0 <= i < |list| && list[i] == m;
        assert Holds(rows, before, list[i]);
      }
    }
  }
}
