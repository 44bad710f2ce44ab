/**
 * The in-memory overlay of a batched apply, as a value: pending puts plus the caches that make a later
 * entry of the batch see what an earlier one wrote.
 *
 * `Virtual` is the store the batch will have produced once it commits. `Coherent` says that every
 * read-through of the batch answers what that store answers.
 */
module ApplyBatch {
  import opened Base
  import opened Aggregate
  import opened Keys
  import opened StateMachine
  import Group = AggregateGroup
  import Catalogs = AggregateCatalog
  import GroupCatalog

  datatype Put = Put(key: Key, value: Value)

  type Instance = (TypeId, nat, Text)
  type Partitioned = (TypeId, nat)

  datatype Batch = Batch(
    ops: seq<Put>,
    versions: map<Instance, Option<nat>>,
    positions: map<Partitioned, nat>,
    states: map<Instance, Option<AggregateState>>,
    records: map<(TypeId, nat, Uuid), Value>,
    fences: map<Partitioned, nat>,
    catalog: Option<Catalogs.Catalog>,
    groups: Option<GroupCatalog.Groups>,
    progress: map<Instance, Group.Partition>,
    events: seq<StoredEvent>)

  const NEW_BATCH: Batch := Batch([], map[], map[], map[], map[], map[], None, None, map[], [])

  /** The tree after a transaction sets these puts in order. */
  function Overlay(tree: Store, ops: seq<Put>): Store {
    if ops == [] then tree
    else Overlay(tree, ops[..|ops| - 1])[ops[|ops| - 1].key := ops[|ops| - 1].value]
  }

  function PositionPuts(positions: map<Partitioned, nat>): map<Key, Value> {
    map s | s in positions :: NextPositionKey(s.0, s.1) := Position(positions[s])
  }

  function Virtual(tree: Store, b: Batch): Store {
    Overlay(tree, b.ops) + PositionPuts(b.positions)
  }

  // ---------------------------------------------------------------- read-through

  function ReadVersion(tree: Store, cache: map<Instance, Option<nat>>, ty: TypeId, p: nat, a: Text): Option<nat> {
    if (ty, p, a) in cache then cache[(ty, p, a)] else VersionOf(tree, ty, p, a)
  }

  function ReadState(tree: Store, cache: map<Instance, Option<AggregateState>>, ty: TypeId, p: nat,
                     a: Text): Option<AggregateState> {
    if (ty, p, a) in cache then cache[(ty, p, a)] else StateOf(tree, ty, p, a)
  }

  function ReadNext(tree: Store, cache: map<Partitioned, nat>, ty: TypeId, p: nat): nat {
    if (ty, p) in cache then cache[(ty, p)] else NextOf(tree, ty, p)
  }

  function ReadFence(tree: Store, cache: map<Partitioned, nat>, ty: TypeId, p: nat): nat {
    if (ty, p) in cache then cache[(ty, p)] else FenceOf(tree, ty, p)
  }

  function ReadRecord(tree: Store, cache: map<(TypeId, nat, Uuid), Value>, ty: TypeId, p: nat, e: Uuid): Option<Value> {
    if (ty, p, e) in cache then Some(cache[(ty, p, e)]) else RecordOf(tree, ty, p, e)
  }

  function ReadCatalog(tree: Store, cache: Option<Catalogs.Catalog>): Catalogs.Catalog {
    if cache.Some? then cache.value else CatalogOf(tree)
  }

  function ReadGroups(tree: Store, cache: Option<GroupCatalog.Groups>): GroupCatalog.Groups {
    if cache.Some? then cache.value else GroupsOf(tree)
  }

  function ReadProgress(tree: Store, cache: map<Instance, Group.Partition>, ty: TypeId, p: nat,
                        g: Text): Option<Group.Partition> {
    if (ty, p, g) in cache then Some(cache[(ty, p, g)]) else ProgressOf(tree, ty, p, g)
  }

  ghost predicate VersionsAgree(tree: Store, cache: map<Instance, Option<nat>>, v: Store) {
    forall ty, p, a :: ReadVersion(tree, cache, ty, p, a) == VersionOf(v, ty, p, a)
  }

  ghost predicate StatesAgree(tree: Store, cache: map<Instance, Option<AggregateState>>, v: Store) {
    forall ty, p, a :: ReadState(tree, cache, ty, p, a) == StateOf(v, ty, p, a)
  }

  ghost predicate NextsAgree(tree: Store, cache: map<Partitioned, nat>, v: Store) {
    forall ty, p :: ReadNext(tree, cache, ty, p) == NextOf(v, ty, p)
  }

  ghost predicate FencesAgree(tree: Store, cache: map<Partitioned, nat>, v: Store) {
    forall ty, p :: ReadFence(tree, cache, ty, p) == FenceOf(v, ty, p)
  }

  ghost predicate RecordsAgree(tree: Store, cache: map<(TypeId, nat, Uuid), Value>, v: Store) {
    forall ty, p, e :: ReadRecord(tree, cache, ty, p, e) == RecordOf(v, ty, p, e)
  }

  ghost predicate ProgressAgrees(tree: Store, cache: map<Instance, Group.Partition>, v: Store) {
    forall ty, p, g :: ReadProgress(tree, cache, ty, p, g) == ProgressOf(v, ty, p, g)
  }

  /**
   * Positions are written at the end, so no pending put names one; the applied state is written by the commit
   * itself.
   */
  ghost predicate PlainPuts(ops: seq<Put>) {
    forall i :: 0 <= i < |ops| ==> !ops[i].key.NextPositionKey? && !ops[i].key.AppliedState?
  }

  /**
   * The cached group catalog against the stored one. They are the same until the revision reaches the top of `u64`;
   * from then on neither is ever written again, and the cache may run ahead.
   */
  predicate Near(cached: GroupCatalog.Groups, stored: GroupCatalog.Groups) {
    cached.revision == stored.revision && (cached == stored || stored.revision == U64_MAX)
  }

  ghost predicate Agrees(tree: Store, b: Batch, v: Store) {
    && VersionsAgree(tree, b.versions, v)
    && StatesAgree(tree, b.states, v)
    && NextsAgree(tree, b.positions, v)
    && FencesAgree(tree, b.fences, v)
    && RecordsAgree(tree, b.records, v)
    && ProgressAgrees(tree, b.progress, v)
    && ReadCatalog(tree, b.catalog) == CatalogOf(v)
    && Near(ReadGroups(tree, b.groups), GroupsOf(v))
  }

  ghost predicate Coherent(tree: Store, b: Batch) {
    PlainPuts(b.ops) && Agrees(tree, b, Virtual(tree, b))
  }

  // ---------------------------------------------------------------- overlays

  lemma OverlaySnoc(tree: Store, ops: seq<Put>, op: Put)
    ensures Overlay(tree, ops + [op]) == Overlay(tree, ops)[op.key := op.value]
  {
    assert (ops + [op])[..|ops|] == ops;
  }

  lemma NewCoherent(tree: Store)
    ensures Coherent(tree, NEW_BATCH) && Virtual(tree, NEW_BATCH) == tree
  {
    assert PositionPuts(NEW_BATCH.positions) == map[];
    assert Virtual(tree, NEW_BATCH) == tree;
  }

  /** A put under any other key than a position commutes with the position puts. */
  lemma PutVirtual(tree: Store, b: Batch, op: Put)
    requires !op.key.NextPositionKey?
    ensures Virtual(tree, b.(ops := b.ops + [op])) == Virtual(tree, b)[op.key := op.value]
  {
    OverlaySnoc(tree, b.ops, op);
  }

  lemma PositionPutsAt(positions: map<Partitioned, nat>, k: Key)
    ensures k in PositionPuts(positions) <==> k.NextPositionKey? && (k.ty, k.partition) in positions
    ensures k in PositionPuts(positions) ==> PositionPuts(positions)[k] == Position(positions[(k.ty, k.partition)])
  {
    if k.NextPositionKey? && (k.ty, k.partition) in positions {
      var s := (k.ty, k.partition);
      assert k == NextPositionKey(s.0, s.1);
    }
  }

  lemma PositionPutsUpdate(positions: map<Partitioned, nat>, ty: TypeId, p: nat, next: nat)
    ensures PositionPuts(positions[(ty, p) := next]) == PositionPuts(positions)[NextPositionKey(ty,
        p) := Position(next)]
  {
    var l := PositionPuts(positions[(ty, p) := next]);
    var r := PositionPuts(positions)[NextPositionKey(ty, p) := Position(next)];
    forall k: Key ensures (k in l <==> k in r) && (k in l ==> l[k] == r[k]) {
      PositionPutsAt(positions, k);
      PositionPutsAt(positions[(ty, p) := next], k);
      hide PositionPuts;
    }
  }

  lemma PositionVirtual(tree: Store, b: Batch, ty: TypeId, p: nat, next: nat)
    ensures Virtual(tree, b.(positions := b.positions[(ty, p) := next])) ==
            Virtual(tree, b)[NextPositionKey(ty, p) := Position(next)]
  {
    PositionPutsUpdate(b.positions, ty, p, next);
    hide PositionPuts, Overlay;
  }

  // ---------------------------------------------------------------- caching a read

  /** Remembering what a read-through answered changes no answer. */
  lemma CacheVersion(tree: Store, cache: map<Instance, Option<nat>>, v: Store, ty: TypeId, p: nat, a: Text)
    requires VersionsAgree(tree, cache, v)
    ensures VersionsAgree(tree, cache[(ty, p, a) := ReadVersion(tree, cache, ty, p, a)], v)
  {
    hide VersionOf;
  }

  lemma CacheState(tree: Store, cache: map<Instance, Option<AggregateState>>, v: Store, ty: TypeId, p: nat, a: Text)
    requires StatesAgree(tree, cache, v)
    ensures StatesAgree(tree, cache[(ty, p, a) := ReadState(tree, cache, ty, p, a)], v)
  {
    hide StateOf;
  }

  lemma CacheFence(tree: Store, cache: map<Partitioned, nat>, v: Store, ty: TypeId, p: nat)
    requires FencesAgree(tree, cache, v)
    ensures FencesAgree(tree, cache[(ty, p) := ReadFence(tree, cache, ty, p)], v)
  {
    hide FenceOf;
  }

  lemma CacheRecord(tree: Store, cache: map<(TypeId, nat, Uuid), Value>, v: Store, ty: TypeId, p: nat, e: Uuid)
    requires RecordsAgree(tree, cache, v) && ReadRecord(tree, cache, ty, p, e).Some?
    ensures RecordsAgree(tree, cache[(ty, p, e) := ReadRecord(tree, cache, ty, p, e).value], v)
  {
    hide RecordOf;
  }

  // ---------------------------------------------------------------- accepted writes

  /** The batch after an accepted append. */
  function Appended(b: Batch, r: Request, fingerprint: nat, version: nat, position: nat): Batch
    requires r.Append?
  {
    b.(ops := b.ops + [Put(EventKey(r.ty, r.partition, r.aggregateId, version),
                           EventValue(StoredAt(r, version, position))),
                       Put(IndexKey(r.ty, r.partition, position), Pointer(r.aggregateId, version)),
                       Put(MetaKey(r.ty, r.partition, r.aggregateId), Meta(version)),
                       Put(IdempotencyKey(r.ty, r.partition, r.event.eventId), Record(fingerprint, version, position))],
       versions := b.versions[(r.ty, r.partition, r.aggregateId) := Some(version)],
       positions := b.positions[(r.ty, r.partition) := position + 1],
       records := b.records[(r.ty, r.partition, r.event.eventId) := Record(fingerprint, version, position)],
       events := b.events + [StoredAt(r, version, position)])
  }

  lemma SameVirtual(tree: Store, b: Batch, c: Batch)
    requires c.ops == b.ops && c.positions == b.positions
    ensures Virtual(tree, c) == Virtual(tree, b)
  {
  }

  lemma OnePut(tree: Store, b: Batch, c: Batch, key: Key, x: Value)
    requires !key.NextPositionKey? && c.ops == b.ops + [Put(key, x)] && c.positions == b.positions
    ensures Virtual(tree, c) == Virtual(tree, b) + map[key := x]
  {
    hide Virtual;
    PutVirtual(tree, b, Put(key, x));
    SameVirtual(tree, b.(ops := c.ops), c);
    assert Virtual(tree, b)[key := x] == Virtual(tree, b) + map[key := x];
  }

  lemma FivePuts(v: Store, k1: Key, x1: Value, k2: Key, x2: Value, k3: Key, x3: Value, k4: Key, x4: Value, k5: Key,
                 x5: Value)
    ensures v[k1 := x1][k2 := x2][k3 := x3][k4 := x4][k5 := x5] == v + map[k1 := x1, k2 := x2, k3 := x3, k4 := x4,
        k5 := x5]
  {
  }

  lemma AppendedVirtual(tree: Store, b: Batch, r: Request, fingerprint: nat, version: nat, position: nat)
    requires r.Append?
    ensures Virtual(tree, Appended(b, r, fingerprint, version, position)) == Virtual(tree, b) + AppendPuts(r,
        fingerprint, version, position)
  {
    hide Virtual, StoredAt;
    var e := Put(EventKey(r.ty, r.partition, r.aggregateId, version), EventValue(StoredAt(r, version, position)));
    var i := Put(IndexKey(r.ty, r.partition, position), Pointer(r.aggregateId, version));
    var m := Put(MetaKey(r.ty, r.partition, r.aggregateId), Meta(version));
    var d := Put(IdempotencyKey(r.ty, r.partition, r.event.eventId), Record(fingerprint, version, position));
    var b1 := b.(ops := b.ops + [e]);
    var b2 := b1.(ops := b1.ops + [i]);
    var b3 := b2.(ops := b2.ops + [m]);
    var b4 := b3.(ops := b3.ops + [d]);
    var b5 := b4.(positions := b4.positions[(r.ty, r.partition) := position + 1]);
    PutVirtual(tree, b, e);
    PutVirtual(tree, b1, i);
    PutVirtual(tree, b2, m);
    PutVirtual(tree, b3, d);
    PositionVirtual(tree, b4, r.ty, r.partition, position + 1);
    SameVirtual(tree, b5, Appended(b, r, fingerprint, version, position));
    FivePuts(Virtual(tree, b), e.key, e.value, i.key, i.value, m.key, m.value, d.key, d.value,
             NextPositionKey(r.ty, r.partition), Position(position + 1));
  }

  // ---------------------------------------------------------------- puts and reads

  lemma VersionsFramed(tree: Store, cache: map<Instance, Option<nat>>, v: Store, puts: map<Key, Value>)
    requires VersionsAgree(tree, cache, v) && forall k :: k in puts ==> !k.MetaKey?
    ensures VersionsAgree(tree, cache, v + puts)
  {
    forall ty, p, a ensures ReadVersion(tree, cache, ty, p, a) == VersionOf(v + puts, ty, p, a) {
      assert ReadVersion(tree, cache, ty, p, a) == VersionOf(v, ty, p, a);
    }
  }

  lemma StatesFramed(tree: Store, cache: map<Instance, Option<AggregateState>>, v: Store, puts: map<Key, Value>)
    requires StatesAgree(tree, cache, v) && forall k :: k in puts ==> !k.StateKey?
    ensures StatesAgree(tree, cache, v + puts)
  {
    forall ty, p, a ensures ReadState(tree, cache, ty, p, a) == StateOf(v + puts, ty, p, a) {
      assert ReadState(tree, cache, ty, p, a) == StateOf(v, ty, p, a);
    }
  }

  lemma NextsFramed(tree: Store, cache: map<Partitioned, nat>, v: Store, puts: map<Key, Value>)
    requires NextsAgree(tree, cache, v) && forall k :: k in puts ==> !k.NextPositionKey?
    ensures NextsAgree(tree, cache, v + puts)
  {
    forall ty, p ensures ReadNext(tree, cache, ty, p) == NextOf(v + puts, ty, p) {
      assert ReadNext(tree, cache, ty, p) == NextOf(v, ty, p);
    }
  }

  lemma FencesFramed(tree: Store, cache: map<Partitioned, nat>, v: Store, puts: map<Key, Value>)
    requires FencesAgree(tree, cache, v) && forall k :: k in puts ==> !k.FenceKey?
    ensures FencesAgree(tree, cache, v + puts)
  {
    forall ty, p ensures ReadFence(tree, cache, ty, p) == FenceOf(v + puts, ty, p) {
      assert ReadFence(tree, cache, ty, p) == FenceOf(v, ty, p);
    }
  }

  lemma RecordsFramed(tree: Store, cache: map<(TypeId, nat, Uuid), Value>, v: Store, puts: map<Key, Value>)
    requires RecordsAgree(tree, cache, v) && forall k :: k in puts ==> !k.IdempotencyKey?
    ensures RecordsAgree(tree, cache, v + puts)
  {
    forall ty, p, e ensures ReadRecord(tree, cache, ty, p, e) == RecordOf(v + puts, ty, p, e) {
      assert ReadRecord(tree, cache, ty, p, e) == RecordOf(v, ty, p, e);
    }
  }

  lemma ProgressFramed(tree: Store, cache: map<Instance, Group.Partition>, v: Store, puts: map<Key, Value>)
    requires ProgressAgrees(tree, cache, v) && forall k :: k in puts ==> !k.GroupPartitionKey?
    ensures ProgressAgrees(tree, cache, v + puts)
  {
    forall ty, p, g ensures ReadProgress(tree, cache, ty, p, g) == ProgressOf(v + puts, ty, p, g) {
      assert ReadProgress(tree, cache, ty, p, g) == ProgressOf(v, ty, p, g);
    }
  }

  lemma VersionStored(tree: Store, cache: map<Instance, Option<nat>>, v: Store, puts: map<Key, Value>, ty: TypeId,
                      p: nat, a: Text, n: nat)
    requires VersionsAgree(tree, cache, v)
    requires MetaKey(ty, p, a) in puts && puts[MetaKey(ty, p, a)] == Meta(n)
    requires forall k :: k in puts && k.MetaKey? ==> k == MetaKey(ty, p, a)
    ensures VersionsAgree(tree, cache[(ty, p, a) := Some(n)], v + puts)
  {
    forall ty', p', a' ensures ReadVersion(tree, cache[(ty, p, a) := Some(n)], ty', p', a') ==
      VersionOf(v + puts, ty', p', a') {
      assert ReadVersion(tree, cache, ty', p', a') == VersionOf(v, ty', p', a');
    }
  }

  lemma StateStored(tree: Store, cache: map<Instance, Option<AggregateState>>, v: Store, puts: map<Key, Value>,
                    ty: TypeId, p: nat, a: Text, x: AggregateState)
    requires StatesAgree(tree, cache, v)
    requires StateKey(ty, p, a) in puts && puts[StateKey(ty, p, a)] == StateValue(x)
    requires forall k :: k in puts && k.StateKey? ==> k == StateKey(ty, p, a)
    ensures StatesAgree(tree, cache[(ty, p, a) := Some(x)], v + puts)
  {
    forall ty', p', a' ensures ReadState(tree, cache[(ty, p, a) := Some(x)], ty', p', a') ==
      StateOf(v + puts, ty', p', a') {
      assert ReadState(tree, cache, ty', p', a') == StateOf(v, ty', p', a');
    }
  }

  lemma NextStored(tree: Store, cache: map<Partitioned, nat>, v: Store, puts: map<Key, Value>, ty: TypeId, p: nat,
                   n: nat)
    requires NextsAgree(tree, cache, v)
    requires NextPositionKey(ty, p) in puts && puts[NextPositionKey(ty, p)] == Position(n)
    requires forall k :: k in puts && k.NextPositionKey? ==> k == NextPositionKey(ty, p)
    ensures NextsAgree(tree, cache[(ty, p) := n], v + puts)
  {
    forall ty', p' ensures ReadNext(tree, cache[(ty, p) := n], ty', p') == NextOf(v + puts, ty', p') {
      assert ReadNext(tree, cache, ty', p') == NextOf(v, ty', p');
    }
  }

  lemma FenceStored(tree: Store, cache: map<Partitioned, nat>, v: Store, puts: map<Key, Value>, ty: TypeId, p: nat,
                    n: nat)
    requires FencesAgree(tree, cache, v)
    requires FenceKey(ty, p) in puts && puts[FenceKey(ty, p)] == Fence(n)
    requires forall k :: k in puts && k.FenceKey? ==> k == FenceKey(ty, p)
    ensures FencesAgree(tree, cache[(ty, p) := n], v + puts)
  {
    forall ty', p' ensures ReadFence(tree, cache[(ty, p) := n], ty', p') == FenceOf(v + puts, ty', p') {
      assert ReadFence(tree, cache, ty', p') == FenceOf(v, ty', p');
    }
  }

  lemma RecordStored(tree: Store, cache: map<(TypeId, nat, Uuid), Value>, v: Store, puts: map<Key, Value>, ty: TypeId,
                     p: nat, e: Uuid, x: Value)
    requires RecordsAgree(tree, cache, v)
    requires x.Record? && IdempotencyKey(ty, p, e) in puts && puts[IdempotencyKey(ty, p,
        e)] == x && forall k :: k in puts && k.IdempotencyKey? ==> k == IdempotencyKey(ty, p, e)
    ensures RecordsAgree(tree, cache[(ty, p, e) := x], v + puts)
  {
    forall ty', p', e' ensures ReadRecord(tree, cache[(ty, p, e) := x], ty', p', e') ==
      RecordOf(v + puts, ty', p', e') {
      assert ReadRecord(tree, cache, ty', p', e') == RecordOf(v, ty', p', e');
    }
  }

  lemma ProgressStored(tree: Store, cache: map<Instance, Group.Partition>, v: Store, puts: map<Key, Value>,
                       ty: TypeId, p: nat, g: Text, x: Group.Partition)
    requires ProgressAgrees(tree, cache, v)
    requires GroupPartitionKey(ty, p, g) in puts && puts[GroupPartitionKey(ty, p,
        g)] == Progress(x) && forall k :: k in puts && k.GroupPartitionKey? ==> k == GroupPartitionKey(ty, p, g)
    ensures ProgressAgrees(tree, cache[(ty, p, g) := x], v + puts)
  {
    forall ty', p', g' ensures ReadProgress(tree, cache[(ty, p, g) := x], ty', p', g') ==
      ProgressOf(v + puts, ty', p', g') {
      assert ReadProgress(tree, cache, ty', p', g') == ProgressOf(v, ty', p', g');
    }
  }

  // ---------------------------------------------------------------- accepted writes keep the reads coherent

  /** What an append's puts hold, family by family. */
  lemma AppendPutsShape(r: Request, fingerprint: nat, version: nat, position: nat)
    requires r.Append?
    ensures var puts := AppendPuts(r, fingerprint, version, position);
            var meta, next := MetaKey(r.ty, r.partition, r.aggregateId), NextPositionKey(r.ty, r.partition);
            var id := IdempotencyKey(r.ty, r.partition, r.event.eventId);
            && meta in puts && puts[meta] == Meta(version) && (forall k :: k in puts && k.MetaKey? ==> k == meta)
            && next in puts && puts[next] == Position(position + 1) && (forall k :: k in puts && k.NextPositionKey? ==> k == next)
            && id in puts && puts[id] == Record(fingerprint, version, position) &&
               (forall k :: k in puts && k.IdempotencyKey? ==> k == id)
            && (forall k :: k in puts ==> !k.StateKey? && !k.FenceKey? && !k.GroupPartitionKey? && !k.CatalogKey? && !k.GroupCatalogKey?)
  {
    hide StoredAt;
  }

  lemma CatalogsFramed(v: Store, puts: map<Key, Value>)
    requires forall k :: k in puts ==> !k.CatalogKey? && !k.GroupCatalogKey?
    ensures CatalogOf(v + puts) == CatalogOf(v) && GroupsOf(v + puts) == GroupsOf(v)
  {
  }

  lemma AppendAgrees(tree: Store, b: Batch, v: Store, r: Request, fingerprint: nat, version: nat, position: nat)
    requires r.Append? && Agrees(tree, b, v)
    ensures Agrees(tree, Appended(b, r, fingerprint, version, position),
                   v + AppendPuts(r, fingerprint, version, position))
  {
    hide VersionsAgree, StatesAgree, NextsAgree, FencesAgree, RecordsAgree, ProgressAgrees;
    hide AppendPuts, StoredAt, CatalogOf, GroupsOf;
    var puts := AppendPuts(r, fingerprint, version, position);
    AppendPutsShape(r, fingerprint, version, position);
    VersionStored(tree, b.versions, v, puts, r.ty, r.partition, r.aggregateId, version);
    StatesFramed(tree, b.states, v, puts);
    NextStored(tree, b.positions, v, puts, r.ty, r.partition, position + 1);
    FencesFramed(tree, b.fences, v, puts);
    RecordStored(tree, b.records, v, puts, r.ty, r.partition, r.event.eventId, Record(fingerprint, version, position));
    ProgressFramed(tree, b.progress, v, puts);
    CatalogsFramed(v, puts);
  }

  /** The batch after an accepted state document. */
  function StatePut(b: Batch, r: Request, state: AggregateState): Batch
    requires r.PutState?
  {
    b.(ops := b.ops + [Put(StateKey(r.ty, r.partition, r.aggregateId), StateValue(state)),
                       Put(StateModifiedKey(r.ty, r.partition, r.aggregateId), ModifiedAt(r.hlc))],
       states := b.states[(r.ty, r.partition, r.aggregateId) := Some(state)])
  }

  function StatePuts(r: Request, state: AggregateState): map<Key, Value>
    requires r.PutState?
  {
    map[StateKey(r.ty, r.partition, r.aggregateId) := StateValue(state),
        StateModifiedKey(r.ty, r.partition, r.aggregateId) := ModifiedAt(r.hlc)]
  }

  lemma StatePutVirtual(tree: Store, b: Batch, r: Request, state: AggregateState)
    requires r.PutState?
    ensures Virtual(tree, StatePut(b, r, state)) == Virtual(tree, b) + StatePuts(r, state)
  {
    hide Virtual;
    var x := Put(StateKey(r.ty, r.partition, r.aggregateId), StateValue(state));
    var y := Put(StateModifiedKey(r.ty, r.partition, r.aggregateId), ModifiedAt(r.hlc));
    var b1 := b.(ops := b.ops + [x]);
    PutVirtual(tree, b, x);
    PutVirtual(tree, b1, y);
    assert b1.ops + [y] == StatePut(b, r, state).ops;
    SameVirtual(tree, b1.(ops := b1.ops + [y]), StatePut(b, r, state));
    assert Virtual(tree, b)[x.key := x.value][y.key := y.value] == Virtual(tree, b) + map[x.key := x.value,
        y.key := y.value];
  }

  lemma StatePutAgrees(tree: Store, b: Batch, v: Store, r: Request, state: AggregateState)
    requires r.PutState? && Agrees(tree, b, v)
    ensures Agrees(tree, StatePut(b, r, state), v + StatePuts(r, state))
  {
    hide VersionsAgree, StatesAgree, NextsAgree, FencesAgree, RecordsAgree, ProgressAgrees;
    var puts := StatePuts(r, state);
    VersionsFramed(tree, b.versions, v, puts);
    StateStored(tree, b.states, v, puts, r.ty, r.partition, r.aggregateId, state);
    NextsFramed(tree, b.positions, v, puts);
    FencesFramed(tree, b.fences, v, puts);
    RecordsFramed(tree, b.records, v, puts);
    ProgressFramed(tree, b.progress, v, puts);
  }

  lemma StatePutCoherent(tree: Store, b: Batch, r: Request, state: AggregateState)
    requires r.PutState? && Coherent(tree, b)
    ensures Coherent(tree, StatePut(b, r, state))
    ensures Virtual(tree, StatePut(b, r, state)) == Virtual(tree, b) + StatePuts(r, state)
  {
    hide Virtual, Agrees, StatePuts;
    StatePutVirtual(tree, b, r, state);
    StatePutAgrees(tree, b, Virtual(tree, b), r, state);
  }

  lemma AppendedCoherent(tree: Store, b: Batch, r: Request, fingerprint: nat, version: nat, position: nat)
    requires r.Append? && Coherent(tree, b)
    ensures Coherent(tree, Appended(b, r, fingerprint, version, position))
    ensures Virtual(tree, Appended(b, r, fingerprint, version, position)) == Virtual(tree, b) + AppendPuts(r,
        fingerprint, version, position)
  {
    hide Virtual, Agrees, AppendPuts;
    AppendedVirtual(tree, b, r, fingerprint, version, position);
    AppendAgrees(tree, b, Virtual(tree, b), r, fingerprint, version, position);
  }

  /** A single put of a key that no cache but its own serves. */
  lemma FencePutCoherent(tree: Store, b: Batch, ty: TypeId, p: nat, generation: nat)
    requires Coherent(tree, b)
    ensures var c := b.(ops := b.ops + [Put(FenceKey(ty, p), Fence(generation))],
                        fences := b.fences[(ty, p) := generation]);
            Coherent(tree, c) && Virtual(tree, c) == Virtual(tree, b) + map[FenceKey(ty, p) := Fence(generation)]
  {
    hide Virtual, VersionsAgree, StatesAgree, NextsAgree, FencesAgree, RecordsAgree, ProgressAgrees;
    var v, puts := Virtual(tree, b), map[FenceKey(ty, p) := Fence(generation)];
    var c := b.(ops := b.ops + [Put(FenceKey(ty, p), Fence(generation))], fences := b.fences[(ty, p) := generation]);
    OnePut(tree, b, c, FenceKey(ty, p), Fence(generation));
    VersionsFramed(tree, b.versions, v, puts);
    StatesFramed(tree, b.states, v, puts);
    NextsFramed(tree, b.positions, v, puts);
    FenceStored(tree, b.fences, v, puts, ty, p, generation);
    RecordsFramed(tree, b.records, v, puts);
    ProgressFramed(tree, b.progress, v, puts);
  }

  lemma CatalogPutCoherent(tree: Store, b: Batch, catalog: Catalogs.Catalog)
    requires Coherent(tree, b)
    ensures var c := b.(ops := b.ops + [Put(CatalogKey, CatalogValue(catalog))], catalog := Some(catalog));
            Coherent(tree, c) && Virtual(tree, c) == Virtual(tree, b) + map[CatalogKey := CatalogValue(catalog)]
  {
    hide Virtual, VersionsAgree, StatesAgree, NextsAgree, FencesAgree, RecordsAgree, ProgressAgrees;
    var v, puts := Virtual(tree, b), map[CatalogKey := CatalogValue(catalog)];
    var c := b.(ops := b.ops + [Put(CatalogKey, CatalogValue(catalog))], catalog := Some(catalog));
    OnePut(tree, b, c, CatalogKey, CatalogValue(catalog));
    VersionsFramed(tree, b.versions, v, puts);
    StatesFramed(tree, b.states, v, puts);
    NextsFramed(tree, b.positions, v, puts);
    FencesFramed(tree, b.fences, v, puts);
    RecordsFramed(tree, b.records, v, puts);
    ProgressFramed(tree, b.progress, v, puts);
  }

  lemma GroupsPutCoherent(tree: Store, b: Batch, groups: GroupCatalog.Groups)
    requires Coherent(tree, b)
    ensures var c := b.(ops := b.ops + [Put(GroupCatalogKey, GroupCatalogValue(groups))], groups := Some(groups));
            Coherent(tree, c) &&
              Virtual(tree, c) == Virtual(tree, b) + map[GroupCatalogKey := GroupCatalogValue(groups)]
  {
    hide Virtual, VersionsAgree, StatesAgree, NextsAgree, FencesAgree, RecordsAgree, ProgressAgrees;
    var v, puts := Virtual(tree, b), map[GroupCatalogKey := GroupCatalogValue(groups)];
    var c := b.(ops := b.ops + [Put(GroupCatalogKey, GroupCatalogValue(groups))], groups := Some(groups));
    OnePut(tree, b, c, GroupCatalogKey, GroupCatalogValue(groups));
    VersionsFramed(tree, b.versions, v, puts);
    StatesFramed(tree, b.states, v, puts);
    NextsFramed(tree, b.positions, v, puts);
    FencesFramed(tree, b.fences, v, puts);
    RecordsFramed(tree, b.records, v, puts);
    ProgressFramed(tree, b.progress, v, puts);
  }

  // ---------------------------------------------------------------- replacing a put

  /** `ops.retain(|op| op.key != key)`. */
  function Without(ops: seq<Put>, key: Key): seq<Put> {
    if ops == [] then []
    else
      var rest := Without(ops[..|ops| - 1], key);
      if ops[|ops| - 1].key == key then rest else rest + [ops[|ops| - 1]]
  }

  lemma PutsCommute(s: Store, k: Key, x: Value, j: Key, y: Value)
    requires k != j
    ensures s[k := x][j := y] == s[j := y][k := x]
  {
  }

  lemma {:induction false} WithoutSame(tree: Store, ops: seq<Put>, key: Key, x: Value)
    ensures Overlay(tree, Without(ops, key))[key := x] == Overlay(tree, ops)[key := x]
  {
    if ops != [] {
      var front, last := ops[..|ops| - 1], ops[|ops| - 1];
      WithoutSame(tree, front, key, x);
      var l, r := Overlay(tree, Without(front, key)), Overlay(tree, front);
      assert Overlay(tree, ops) == r[last.key := last.value];
      if last.key != key {
        OverlaySnoc(tree, Without(front, key), last);
        assert Without(ops, key) == Without(front, key) + [last];
        hide Overlay, Without;
        PutsCommute(l, key, x, last.key, last.value);
        PutsCommute(r, key, x, last.key, last.value);
      }
    }
  }

  lemma {:induction false} WithoutPlain(ops: seq<Put>, key: Key)
    requires PlainPuts(ops)
    ensures PlainPuts(Without(ops, key))
  {
    if ops != [] { WithoutPlain(ops[..|ops| - 1], key); }
  }

  lemma ProgressPutCoherent(tree: Store, b: Batch, c: Batch, ty: TypeId, p: nat, g: Text, x: Group.Partition)
    requires Coherent(tree, b)
    requires c == b.(ops := Without(b.ops, GroupPartitionKey(ty, p, g)) + [Put(GroupPartitionKey(ty, p, g),
        Progress(x))],
                     progress := b.progress[(ty, p, g) := x])
    ensures Coherent(tree, c) && Virtual(tree, c) == Virtual(tree, b) + map[GroupPartitionKey(ty, p, g) := Progress(x)]
  {
    hide Virtual, VersionsAgree, StatesAgree, NextsAgree, FencesAgree, RecordsAgree, ProgressAgrees, Without;
    var key := GroupPartitionKey(ty, p, g);
    var v, puts := Virtual(tree, b), map[key := Progress(x)];
    ReplacedVirtual(tree, b, c, key, Progress(x));
    WithoutPlain(b.ops, key);
    VersionsFramed(tree, b.versions, v, puts);
    StatesFramed(tree, b.states, v, puts);
    NextsFramed(tree, b.positions, v, puts);
    FencesFramed(tree, b.fences, v, puts);
    RecordsFramed(tree, b.records, v, puts);
    ProgressStored(tree, b.progress, v, puts, ty, p, g, x);
  }

  lemma Commute(o: Store, puts: map<Key, Value>, key: Key, x: Value)
    requires key !in puts
    ensures o[key := x] + puts == (o + puts) + map[key := x]
  {
  }

  lemma ReplacedVirtual(tree: Store, b: Batch, c: Batch, key: Key, x: Value)
    requires !key.NextPositionKey? && c.ops == Without(b.ops, key) + [Put(key, x)] && c.positions == b.positions
    ensures Virtual(tree, c) == Virtual(tree, b) + map[key := x]
  {
    OverlaySnoc(tree, Without(b.ops, key), Put(key, x));
    WithoutSame(tree, b.ops, key, x);
    PositionPutsAt(b.positions, key);
    hide Overlay, Without, PositionPuts;
    Commute(Overlay(tree, b.ops), PositionPuts(b.positions), key, x);
  }

  // ---------------------------------------------------------------- what a step on the batch may do

  /** Only caches changed: the store to come and the events to announce are the same. */
  ghost predicate Unmoved(tree: Store, b: Batch, c: Batch) {
    Coherent(tree, c) && Virtual(tree, c) == Virtual(tree, b) && c.events == b.events
  }

  /** The batch took one decision: its puts are pending, its events are queued, and reads see them. */
  ghost predicate Took(tree: Store, b: Batch, c: Batch, d: Decision) {
    Coherent(tree, c) && Virtual(tree, c) == Virtual(tree, b) + d.puts && c.events == b.events + d.events
  }

  lemma UnmovedTook(tree: Store, b: Batch, c: Batch, response: Response)
    requires Unmoved(tree, b, c)
    ensures Took(tree, b, c, Answer(response))
  {
    hide Coherent, Virtual;
    assert Virtual(tree, b) + map[] == Virtual(tree, b);
  }

  lemma VersionCached(tree: Store, b: Batch, c: Batch, ty: TypeId, p: nat, a: Text)
    requires Coherent(tree, b) && c == b.(versions := b.versions[(ty, p, a) := ReadVersion(tree, b.versions, ty, p, a)])
    ensures Unmoved(tree, b, c) && ReadVersion(tree, b.versions, ty, p, a) == VersionOf(Virtual(tree, b), ty, p, a)
  {
    hide Virtual, StatesAgree, NextsAgree, FencesAgree, RecordsAgree, ProgressAgrees;
    SameVirtual(tree, b, c);
    CacheVersion(tree, b.versions, Virtual(tree, b), ty, p, a);
  }

  lemma StateCached(tree: Store, b: Batch, c: Batch, ty: TypeId, p: nat, a: Text)
    requires Coherent(tree, b) && c == b.(states := b.states[(ty, p, a) := ReadState(tree, b.states, ty, p, a)])
    ensures Unmoved(tree, b, c) && ReadState(tree, b.states, ty, p, a) == StateOf(Virtual(tree, b), ty, p, a)
  {
    hide Virtual, VersionsAgree, NextsAgree, FencesAgree, RecordsAgree, ProgressAgrees;
    SameVirtual(tree, b, c);
    CacheState(tree, b.states, Virtual(tree, b), ty, p, a);
  }

  lemma FenceCached(tree: Store, b: Batch, c: Batch, ty: TypeId, p: nat)
    requires Coherent(tree, b) && c == b.(fences := b.fences[(ty, p) := ReadFence(tree, b.fences, ty, p)])
    ensures Unmoved(tree, b, c) && ReadFence(tree, b.fences, ty, p) == FenceOf(Virtual(tree, b), ty, p)
  {
    hide Virtual, VersionsAgree, StatesAgree, NextsAgree, RecordsAgree, ProgressAgrees;
    SameVirtual(tree, b, c);
    CacheFence(tree, b.fences, Virtual(tree, b), ty, p);
  }

  lemma RecordCached(tree: Store, b: Batch, c: Batch, ty: TypeId, p: nat, e: Uuid)
    requires Coherent(tree, b)
    requires var found := ReadRecord(tree, b.records, ty, p, e);
             c == if found.Some? then b.(records := b.records[(ty, p, e) := found.value]) else b
    ensures Unmoved(tree, b, c) && ReadRecord(tree, b.records, ty, p, e) == RecordOf(Virtual(tree, b), ty, p, e)
  {
    hide Virtual, VersionsAgree, StatesAgree, NextsAgree, FencesAgree, ProgressAgrees;
    SameVirtual(tree, b, c);
    if ReadRecord(tree, b.records, ty, p, e).Some? {
      CacheRecord(tree, b.records, Virtual(tree, b), ty, p, e);
    }
  }

  lemma CatalogCached(tree: Store, b: Batch, c: Batch)
    requires Coherent(tree, b) && c == b.(catalog := Some(ReadCatalog(tree, b.catalog)))
    ensures Unmoved(tree, b, c) && ReadCatalog(tree, b.catalog) == CatalogOf(Virtual(tree, b))
  {
    hide Virtual, VersionsAgree, StatesAgree, NextsAgree, FencesAgree, RecordsAgree, ProgressAgrees;
    SameVirtual(tree, b, c);
  }

  lemma GroupsCached(tree: Store, b: Batch, c: Batch)
    requires Coherent(tree, b) && c == b.(groups := Some(ReadGroups(tree, b.groups)))
    ensures Unmoved(tree, b, c) && Near(ReadGroups(tree, b.groups), GroupsOf(Virtual(tree, b)))
  {
    hide Virtual, VersionsAgree, StatesAgree, NextsAgree, FencesAgree, RecordsAgree, ProgressAgrees;
    SameVirtual(tree, b, c);
  }

  /** A cached catalog may be replaced by any other that is near the stored one. */
  lemma GroupsMoved(tree: Store, b: Batch, c: Batch, groups: GroupCatalog.Groups)
    requires Coherent(tree, b) && c == b.(groups := Some(groups)) && Near(groups, GroupsOf(Virtual(tree, b)))
    ensures Unmoved(tree, b, c)
  {
    hide Virtual, VersionsAgree, StatesAgree, NextsAgree, FencesAgree, RecordsAgree, ProgressAgrees;
    SameVirtual(tree, b, c);
  }

  /** A command moves a near catalog exactly as it moves the stored one: both are written or neither is. */
  lemma NearApply(cached: GroupCatalog.Groups, stored: GroupCatalog.Groups, command: GroupCatalog.Command)
    requires Near(cached, stored)
    ensures var c, t := GroupCatalog.Apply(cached, command).groups, GroupCatalog.Apply(stored, command).groups;
            && (c.revision != cached.revision <==> t.revision != stored.revision)
            && (c.revision != cached.revision ==> c == t)
            && (c.revision == cached.revision ==> Near(c, stored))
  {
    GroupCatalog.StagedExactly(cached, command);
    GroupCatalog.StagedExactly(stored, command);
    hide GroupCatalog.Apply;
  }

  lemma NextRead(tree: Store, b: Batch, ty: TypeId, p: nat)
    requires Coherent(tree, b)
    ensures ReadNext(tree, b.positions, ty, p) == NextOf(Virtual(tree, b), ty, p)
  {
    hide Virtual, VersionsAgree, StatesAgree, FencesAgree, RecordsAgree, ProgressAgrees;
  }

  lemma ProgressRead(tree: Store, b: Batch, ty: TypeId, p: nat, g: Text)
    requires Coherent(tree, b)
    ensures ReadProgress(tree, b.progress, ty, p, g) == ProgressOf(Virtual(tree, b), ty, p, g)
  {
    hide Virtual, VersionsAgree, StatesAgree, FencesAgree, RecordsAgree, NextsAgree;
  }

  /**
   * Caching a position makes the commit write it. A position other than 0 is already stored under its
   * key, so writing it back leaves the store to come as it was.
   */
  lemma PositionCached(tree: Store, b: Batch, c: Batch, ty: TypeId, p: nat)
    requires Coherent(tree, b) && ReadNext(tree, b.positions, ty, p) != 0
    requires c == b.(positions := b.positions[(ty, p) := ReadNext(tree, b.positions, ty, p)])
    ensures Unmoved(tree, b, c)
  {
    var next := ReadNext(tree, b.positions, ty, p);
    NextRead(tree, b, ty, p);
    PositionVirtual(tree, b, ty, p, next);
    hide Virtual, VersionsAgree, StatesAgree, FencesAgree, RecordsAgree, ProgressAgrees;
    var v := Virtual(tree, b);
    assert v[NextPositionKey(ty, p) := Position(next)] == v;
    hide NextOf;
  }
}
