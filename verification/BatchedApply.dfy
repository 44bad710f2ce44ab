/**
 * The storage node as the program runs it: every entry of a batch is folded into a mutable overlay, the
 * overlay is committed in one transaction, and only then are the caches updated and the events announced.
 * Each operation is proved against the one-entry-at-a-time machine of `StateMachine`.
 */
module BatchedApply {
  import opened Base
  import opened Aggregate
  import opened Keys
  import opened StateMachine
  import opened ApplyBatch
  import opened ApplyRefinement
  import Group = AggregateGroup
  import Objects = AggregateGroupObject
  import Catalogs = AggregateCatalog
  import GroupCatalog

  class PendingBatch {
    var ops: seq<Put>
    var versions: map<Instance, Option<nat>>
    var positions: map<Partitioned, nat>
    var states: map<Instance, Option<AggregateState>>
    var records: map<(TypeId, nat, Uuid), Value>
    var fences: map<Partitioned, nat>
    var catalog: Option<Catalogs.Catalog>
    var groups: Option<GroupCatalog.Groups>
    var progress: map<Instance, Group.Partition>
    var events: seq<StoredEvent>

    constructor ()
      ensures View() == NEW_BATCH
    {
      ops, versions, positions, states, records := [], map[], map[], map[], map[];
      fences, catalog, groups, progress, events := map[], None, None, map[], [];
    }

    ghost function View(): Batch
      reads this
    {
      Batch(ops, versions, positions, states, records, fences, catalog, groups, progress, events)
    }
  }

  class EsStorage {
    const hash: Catalogs.Hash
    var tree: Store
    var lastApplied: Option<LogId>
    var membership: Membership
    var sent: seq<StoredEvent>

    ghost function View(): Node
      reads this
    {
      Node(tree, lastApplied, membership, sent)
    }

    // -------------------------------------------------------------- read-through

    method BatchVersion(batch: PendingBatch, ty: TypeId, p: nat, a: Text) returns (version: Option<nat>)
      requires Coherent(tree, batch.View())
      modifies batch`versions
      ensures version == VersionOf(Virtual(tree, old(batch.View())), ty, p, a)
      ensures Unmoved(tree, old(batch.View()), batch.View())
    {
      hide Coherent, Virtual;
      ghost var b := batch.View();
      if (ty, p, a) in batch.versions {
        version := batch.versions[(ty, p, a)];
        assert b.versions[(ty, p, a) := version] == b.versions;
      } else {
        version := VersionOf(tree, ty, p, a);
        batch.versions := batch.versions[(ty, p, a) := version];
      }
      VersionCached(tree, b, batch.View(), ty, p, a);
    }

    method BatchState(batch: PendingBatch, ty: TypeId, p: nat, a: Text) returns (state: Option<AggregateState>)
      requires Coherent(tree, batch.View())
      modifies batch`states
      ensures state == StateOf(Virtual(tree, old(batch.View())), ty, p, a)
      ensures Unmoved(tree, old(batch.View()), batch.View())
    {
      hide Coherent, Virtual;
      ghost var b := batch.View();
      if (ty, p, a) in batch.states {
        state := batch.states[(ty, p, a)];
        assert b.states[(ty, p, a) := state] == b.states;
      } else {
        state := StateOf(tree, ty, p, a);
        batch.states := batch.states[(ty, p, a) := state];
      }
      StateCached(tree, b, batch.View(), ty, p, a);
    }

    method BatchFence(batch: PendingBatch, ty: TypeId, p: nat) returns (generation: nat)
      requires Coherent(tree, batch.View())
      modifies batch`fences
      ensures generation == FenceOf(Virtual(tree, old(batch.View())), ty, p)
      ensures Unmoved(tree, old(batch.View()), batch.View())
    {
      hide Coherent, Virtual;
      ghost var b := batch.View();
      if (ty, p) in batch.fences {
        generation := batch.fences[(ty, p)];
        assert b.fences[(ty, p) := generation] == b.fences;
      } else {
        generation := FenceOf(tree, ty, p);
        batch.fences := batch.fences[(ty, p) := generation];
      }
      FenceCached(tree, b, batch.View(), ty, p);
    }

    method BatchRecord(batch: PendingBatch, ty: TypeId, p: nat, e: Uuid) returns (record: Option<Value>)
      requires Coherent(tree, batch.View())
      modifies batch`records
      ensures record == RecordOf(Virtual(tree, old(batch.View())), ty, p, e) && (record.Some? ==> record.value.Record?)
      ensures Unmoved(tree, old(batch.View()), batch.View())
    {
      hide Coherent, Virtual;
      ghost var b := batch.View();
      if (ty, p, e) in batch.records {
        record := Some(batch.records[(ty, p, e)]);
        assert b.records[(ty, p, e) := record.value] == b.records;
      } else {
        record := RecordOf(tree, ty, p, e);
        if record.Some? {
          batch.records := batch.records[(ty, p, e) := record.value];
        }
      }
      RecordCached(tree, b, batch.View(), ty, p, e);
    }

    /** Unlike the other reads this one leaves a trace: every cached position is written at the commit. */
    method BatchPosition(batch: PendingBatch, ty: TypeId, p: nat) returns (position: nat)
      requires Coherent(tree, batch.View())
      modifies batch`positions
      ensures position == ReadNext(tree, old(batch.positions), ty, p)
      ensures batch.View() == old(batch.View()).(positions := old(batch.positions)[(ty, p) := position])
    {
      hide Coherent;
      if (ty, p) in batch.positions {
        position := batch.positions[(ty, p)];
        assert batch.positions[(ty, p) := position] == batch.positions;
      } else {
        position := NextOf(tree, ty, p);
        batch.positions := batch.positions[(ty, p) := position];
      }
    }

    // -------------------------------------------------------------- requests

    /** The writes of an accepted append; `c` is the batch before its position was cached. */
    method StageAppend(batch: PendingBatch, ghost c: Batch, r: Request, fingerprint: nat, version: nat, position: nat)
      requires r.Append? && Coherent(tree, c)
      requires batch.View() == c.(positions := c.positions[(r.ty, r.partition) := position])
      modifies batch`ops, batch`versions, batch`positions, batch`records, batch`events
      ensures Coherent(tree, batch.View())
      ensures Virtual(tree, batch.View()) == Virtual(tree, c) + AppendPuts(r, fingerprint, version, position)
      ensures batch.events == c.events + [StoredAt(r, version, position)]
    {
      hide Coherent, Virtual, StoredAt, AppendPuts;
      var stored := StoredAt(r, version, position);
      var record := Record(fingerprint, version, position);
      batch.ops := batch.ops + [Put(EventKey(r.ty, r.partition, r.aggregateId, version), EventValue(stored)),
                                Put(IndexKey(r.ty, r.partition, position), Pointer(r.aggregateId, version)),
                                Put(MetaKey(r.ty, r.partition, r.aggregateId), Meta(version)),
                                Put(IdempotencyKey(r.ty, r.partition, r.event.eventId), record)];
      batch.versions := batch.versions[(r.ty, r.partition, r.aggregateId) := Some(version)];
      batch.positions := batch.positions[(r.ty, r.partition) := position + 1];
      batch.records := batch.records[(r.ty, r.partition, r.event.eventId) := record];
      batch.events := batch.events + [stored];
      assert batch.View() == Appended(c, r, fingerprint, version, position);
      AppendedCoherent(tree, c, r, fingerprint, version, position);
    }

    method ApplyAppend(batch: PendingBatch, r: Request) returns (response: Response)
      requires r.Append? && Coherent(tree, batch.View())
      modifies batch`ops, batch`versions, batch`positions, batch`records, batch`fences, batch`events
      ensures response == DecideAppend(Virtual(tree, old(batch.View())), hash, r).response
      ensures Took(tree, old(batch.View()), batch.View(), DecideAppend(Virtual(tree, old(batch.View())), hash, r))
    {
      hide Coherent, Virtual, StoredAt, VersionOf, NextOf, FenceOf, RecordOf, ReadNext, Fingerprint, AppendPuts;
      ghost var b := batch.View();
      ghost var v := Virtual(tree, b);
      assert Unmoved(tree, b, b);
      if !r.ty.Valid() || !ValidIdentifier(r.aggregateId) || r.event.eventType == [] {
        UnmovedTook(tree, b, b, Invalid);
        return Invalid;
      }
      var fingerprint := Fingerprint(hash, r.ty, r.aggregateId, r.expected, r.event);
      var existing := BatchRecord(batch, r.ty, r.partition, r.event.eventId);
      if existing.Some? {
        response := if existing.value.fingerprint == fingerprint
                    then AppendOk(existing.value.version, existing.value.position)
                    else IdempotencyConflict;
        UnmovedTook(tree, b, batch.View(), response);
        return;
      }
      var fence := BatchFence(batch, r.ty, r.partition);
      if fence != r.generation {
        UnmovedTook(tree, b, batch.View(), Fenced(fence));
        return Fenced(fence);
      }
      var current := BatchVersion(batch, r.ty, r.partition, r.aggregateId);
      if !VersionMatches(r.expected, current) {
        UnmovedTook(tree, b, batch.View(), OptimisticConflict(current));
        return OptimisticConflict(current);
      }
      if current.Some? && current.value + 1 > U64_MAX {
        UnmovedTook(tree, b, batch.View(), Invalid);
        return Invalid;
      }
      var version := if current.None? then 0 else current.value + 1;
      ghost var c := batch.View();
      NextRead(tree, c, r.ty, r.partition);
      var position := BatchPosition(batch, r.ty, r.partition);
      if position + 1 > U64_MAX {
        PositionCached(tree, c, batch.View(), r.ty, r.partition);
        UnmovedTook(tree, b, batch.View(), Invalid);
        return Invalid;
      }
      StageAppend(batch, c, r, fingerprint, version, position);
      response := AppendOk(version, position);
    }

    method ApplyPutState(batch: PendingBatch, r: Request) returns (response: Response)
      requires r.PutState? && Coherent(tree, batch.View())
      modifies batch`ops, batch`versions, batch`states, batch`fences
      ensures response == DecidePutState(Virtual(tree, old(batch.View())), r).response
      ensures Took(tree, old(batch.View()), batch.View(), DecidePutState(Virtual(tree, old(batch.View())), r))
    {
      hide Coherent, Virtual, VersionOf, StateOf, FenceOf;
      ghost var b := batch.View();
      assert Unmoved(tree, b, b);
      if !r.ty.Valid() || !ValidIdentifier(r.aggregateId) {
        UnmovedTook(tree, b, b, Invalid);
        return Invalid;
      }
      var fence := BatchFence(batch, r.ty, r.partition);
      if fence != r.generation {
        UnmovedTook(tree, b, batch.View(), Fenced(fence));
        return Fenced(fence);
      }
      var version := BatchVersion(batch, r.ty, r.partition, r.aggregateId);
      if version.None? {
        UnmovedTook(tree, b, batch.View(), AggregateNotFound);
        return AggregateNotFound;
      }
      var current := BatchState(batch, r.ty, r.partition, r.aggregateId);
      if !RevisionMatches(r.revision, current) {
        response := StateConflict(if current.Some? then Some(current.value.revision) else None);
        UnmovedTook(tree, b, batch.View(), response);
        return;
      }
      if current.Some? && current.value.revision + 1 > U64_MAX {
        UnmovedTook(tree, b, batch.View(), Invalid);
        return Invalid;
      }
      var state := AggregateState(if current.None? then 0 else current.value.revision + 1, r.data);
      ghost var c := batch.View();
      batch.ops := batch.ops + [Put(StateKey(r.ty, r.partition, r.aggregateId), StateValue(state)),
                                Put(StateModifiedKey(r.ty, r.partition, r.aggregateId), ModifiedAt(r.hlc))];
      batch.states := batch.states[(r.ty, r.partition, r.aggregateId) := Some(state)];
      assert batch.View() == StatePut(c, r, state);
      StatePutCoherent(tree, c, r, state);
      response := StateStored(state, r.hlc);
    }

    method ApplyFence(batch: PendingBatch, r: Request) returns (response: Response)
      requires r.InstallFence? && Coherent(tree, batch.View())
      modifies batch`ops, batch`fences
      ensures response == DecideFence(Virtual(tree, old(batch.View())), r).response
      ensures Took(tree, old(batch.View()), batch.View(), DecideFence(Virtual(tree, old(batch.View())), r))
    {
      hide Coherent, Virtual, FenceOf;
      ghost var b := batch.View();
      assert Unmoved(tree, b, b);
      if !r.ty.Valid() || r.generation == 0 {
        UnmovedTook(tree, b, b, Invalid);
        return Invalid;
      }
      var current := BatchFence(batch, r.ty, r.partition);
      var installed := Max(current, r.generation);
      response := FenceInstalled(installed);
      if installed != current {
        FencePutCoherent(tree, batch.View(), r.ty, r.partition, installed);
        batch.ops := batch.ops + [Put(FenceKey(r.ty, r.partition), Fence(installed))];
        batch.fences := batch.fences[(r.ty, r.partition) := installed];
      } else {
        UnmovedTook(tree, b, batch.View(), response);
      }
    }

    method ApplyCatalog(batch: PendingBatch, command: Catalogs.Command) returns (response: Response)
      requires Coherent(tree, batch.View())
      modifies batch`ops, batch`catalog
      ensures response == DecideCatalog(Virtual(tree, old(batch.View())), hash, command).response
      ensures Took(tree, old(batch.View()), batch.View(), DecideCatalog(Virtual(tree, old(batch.View())), hash,
          command))
    {
      hide Coherent, Virtual, CatalogOf, Catalogs.Apply;
      ghost var b := batch.View();
      CatalogCached(tree, b, b.(catalog := Some(ReadCatalog(tree, b.catalog))));
      if batch.catalog.None? {
        batch.catalog := Some(CatalogOf(tree));
      }
      var catalog := new Catalogs.AggregateCatalog.Load(batch.catalog.value);
      var outcome := catalog.ApplyCommand(hash, command);
      var next := catalog.View();
      response := CatalogApplied(next.revision, outcome);
      if outcome.Answered? && outcome.changed {
        CatalogPutCoherent(tree, batch.View(), next);
        batch.ops := batch.ops + [Put(CatalogKey, CatalogValue(next))];
      } else {
        Catalogs.NoChangeNoEffect(batch.catalog.value, hash, command);
        UnmovedTook(tree, b, batch.View(), response);
      }
      batch.catalog := Some(next);
    }

    /**
     * At the top of the revision counter a change stays in the cache: it is neither staged here nor by the
     * reference.
     */
    method ApplyGroupCatalog(batch: PendingBatch, command: GroupCatalog.Command) returns (response: Response)
      requires Coherent(tree, batch.View())
      modifies batch`ops, batch`groups
      ensures var applied := GroupCatalog.Apply(ReadGroups(tree, old(batch.groups)), command);
              response == GroupCatalogApplied(applied.groups.revision, applied.outcome) &&
                batch.groups == Some(applied.groups)
      ensures Took(tree, old(batch.View()), batch.View(), DecideGroupCatalog(Virtual(tree, old(batch.View())), command))
    {
      hide Coherent, Virtual, GroupsOf, GroupCatalog.Apply, Near;
      ghost var b := batch.View();
      ghost var stored := GroupsOf(Virtual(tree, b));
      GroupsCached(tree, b, b.(groups := Some(ReadGroups(tree, b.groups))));
      if batch.groups.None? {
        batch.groups := Some(GroupsOf(tree));
      }
      var previous := batch.groups.value;
      var groups := new GroupCatalog.AggregateGroupCatalog.Load(previous);
      var outcome := groups.ApplyCommand(command);
      var next := groups.View();
      response := GroupCatalogApplied(next.revision, outcome);
      NearApply(previous, stored, command);
      ghost var c := batch.View();
      if next.revision != previous.revision {
        GroupsPutCoherent(tree, c, next);
        batch.ops := batch.ops + [Put(GroupCatalogKey, GroupCatalogValue(next))];
        batch.groups := Some(next);
      } else {
        batch.groups := Some(next);
        GroupsMoved(tree, c, batch.View(), next);
        UnmovedTook(tree, b, batch.View(), DecideGroupCatalog(Virtual(tree, b), command).response);
      }
    }

    /** Reads progress back, resets it for a newer epoch, runs the command on it, and takes it out again. */
    method RunCommand(state: Group.Partition, r: Request) returns (next: Group.Partition, reply: Group.Reply)
      requires r.GroupPartition?
      ensures var entered := EnterEpoch(Some(state), r.groupEpoch, r.start);
              var done := Group.Execute(entered, r.groupEpoch, r.settings, r.command);
              next == done.state && reply == done.reply
    {
      hide Group.Execute;
      var partition := new Objects.AggregateGroupPartition.Load(state);
      if partition.epoch < r.groupEpoch {
        partition.Reset(r.groupEpoch, r.start);
      }
      reply := partition.ExecuteCommand(r.groupEpoch, r.settings, r.command);
      next := partition.View();
    }

    method ApplyGroupPartition(batch: PendingBatch, r: Request) returns (response: Response)
      requires r.GroupPartition? && Coherent(tree, batch.View())
      modifies batch`ops, batch`fences, batch`progress
      ensures response == DecideGroupPartition(Virtual(tree, old(batch.View())), r).response
      ensures Took(tree, old(batch.View()), batch.View(), DecideGroupPartition(Virtual(tree, old(batch.View())), r))
    {
      hide Coherent, Virtual, FenceOf, ProgressOf, Group.Execute, Without;
      ghost var b := batch.View();
      assert Unmoved(tree, b, b);
      if !r.ty.Valid() || !ValidIdentifier(r.group) || !r.settings.Valid() {
        UnmovedTook(tree, b, b, Invalid);
        return Invalid;
      }
      var fence := BatchFence(batch, r.ty, r.partition);
      if fence != r.generation {
        UnmovedTook(tree, b, batch.View(), Fenced(fence));
        return Fenced(fence);
      }
      ghost var c := batch.View();
      ProgressRead(tree, c, r.ty, r.partition, r.group);
      var stored := if (r.ty, r.partition, r.group) in batch.progress then Some(batch.progress[(r.ty, r.partition,
          r.group)])
                    else ProgressOf(tree, r.ty, r.partition, r.group);
      var state := if stored.Some? then stored.value else Group.New(r.groupEpoch, r.start);
      if state.epoch > r.groupEpoch {
        UnmovedTook(tree, b, batch.View(), StaleEpoch(state.epoch));
        return StaleEpoch(state.epoch);
      }
      var next, reply := RunCommand(state, r);
      var key := GroupPartitionKey(r.ty, r.partition, r.group);
      batch.ops := Without(batch.ops, key) + [Put(key, Progress(next))];
      batch.progress := batch.progress[(r.ty, r.partition, r.group) := next];
      ProgressPutCoherent(tree, c, batch.View(), r.ty, r.partition, r.group, next);
      response := GroupReply(reply);
    }

    // -------------------------------------------------------------- a batch

    method ApplyRequest(batch: PendingBatch, r: Request) returns (response: Response)
      requires Coherent(tree, batch.View())
      modifies batch
      ensures response == RequestAnswer(Virtual(tree, old(batch.View())), ReadGroups(tree, old(batch.groups)), hash, r)
      ensures ReadGroups(tree, batch.groups) == CacheAfterRequest(ReadGroups(tree, old(batch.groups)), r)
      ensures Took(tree, old(batch.View()), batch.View(), Decide(Virtual(tree, old(batch.View())), hash, r))
    {
      hide Coherent, Virtual, GroupsOf, Took, GroupCatalog.Apply;
      hide DecideAppend, DecidePutState, DecideFence, DecideCatalog, DecideGroupCatalog, DecideGroupPartition;
      match r
      case Append(_, _, _, _, _, _, _) => response := ApplyAppend(batch, r);
      case PutState(_, _, _, _, _, _, _) => response := ApplyPutState(batch, r);
      case InstallFence(_, _, _) => response := ApplyFence(batch, r);
      case CommitCatalog(command) => response := ApplyCatalog(batch, command);
      case CommitGroupCatalog(command) => response := ApplyGroupCatalog(batch, command);
      case GroupPartition(_, _, _, _, _, _, _, _) => response := ApplyGroupPartition(batch, r);
    }

    method ApplyPayload(batch: PendingBatch, e: Entry) returns (response: Response)
      requires Coherent(tree, batch.View())
      modifies batch
      ensures response == OverlayAnswer(Virtual(tree, old(batch.View())), ReadGroups(tree, old(batch.groups)), hash, e)
      ensures ReadGroups(tree, batch.groups) == CacheAfter(ReadGroups(tree, old(batch.groups)), e)
      ensures Took(tree, old(batch.View()), batch.View(), DecideEntry(Virtual(tree, old(batch.View())), hash, e))
    {
      hide Coherent, Virtual, GroupsOf, Decide, RequestAnswer, CacheAfterRequest;
      if e.payload.Normal? {
        response := ApplyRequest(batch, e.payload.request);
      } else {
        response := Noop;
        UnmovedTook(tree, batch.View(), batch.View(), Noop);
      }
    }

    /** The next positions go last, in whatever order the map gives them up. */
    method FlushPositions(batch: PendingBatch)
      modifies batch`ops
      ensures Overlay(tree, batch.ops) == Virtual(tree, old(batch.View()))
    {
      hide Overlay, PositionPuts;
      var todo := batch.positions.Keys;
      ghost var flushed: map<Partitioned, nat> := map[];
      ghost var ops := batch.ops;
      FlushNone(tree, ops);
      while todo != {}
        invariant todo <= batch.positions.Keys && flushed.Keys == batch.positions.Keys - todo
        invariant forall s :: s in flushed ==> flushed[s] == batch.positions[s]
        invariant Overlay(tree, batch.ops) == Overlay(tree, ops) + PositionPuts(flushed)
        decreases |todo|
      {
        var s :| s in todo;
        FlushOne(tree, ops, batch.ops, flushed, s, batch.positions[s]);
        todo := todo - {s};
        flushed := flushed[s := batch.positions[s]];
        batch.ops := batch.ops + [Put(NextPositionKey(s.0, s.1), Position(batch.positions[s]))];
      }
      assert flushed == batch.positions;
    }

    /** One transaction sets every staged put in order; the tree changes at the commit. */
    method Commit(ops: seq<Put>)
      modifies `tree
      ensures tree == Overlay(old(tree), ops)
    {
      var txn := tree;
      for i := 0 to |ops|
        invariant tree == old(tree) && txn == Overlay(tree, ops[..i])
      {
        OverlaySnoc(tree, ops[..i], ops[i]);
        assert ops[..i] + [ops[i]] == ops[..i + 1];
        hide Overlay;
        txn := txn[ops[i].key := ops[i].value];
      }
      assert ops[..|ops|] == ops;
      tree := txn;
    }

    /** Folds the entries into an overlay and lists the puts of its transaction. Nothing is written yet. */
    method Stage(entries: seq<Entry>) returns (responses: seq<Response>, ops: seq<Put>, applied: Option<LogId>,
                 members: Membership, events: seq<StoredEvent>)
      ensures AfterBatch(View(), hash, entries) == Node(Overlay(tree, ops), applied, members, sent + events)
      ensures responses == OverlayResponses(View(), hash, entries)
    {
      hide Coherent, Virtual, GroupsOf, DecideEntry, ApplyEntries, Overlay, Tracks, Took, OverlayAnswer, CacheAfter;
      ghost var start := View();
      var batch := new PendingBatch();
      responses := [];
      var last: Option<LogId> := None;
      var changed: Option<Membership> := None;
      TracksStart(start);
      NothingApplied(start, hash, entries);
      for i := 0 to |entries|
        invariant Tracks(tree, batch.View(), start, ApplyEntries(start, hash, entries[..i]))
        invariant responses == OverlayResponses(start, hash, entries[..i])
        invariant ReadGroups(tree, batch.groups) == CacheAfterAll(GroupsOf(tree), entries[..i])
        invariant Settled(start, ApplyEntries(start, hash, entries[..i]), last, changed)
      {
        var e := entries[i];
        ghost var n := ApplyEntries(start, hash, entries[..i]);
        ghost var b := batch.View();
        TracksReads(tree, b, start, n);
        last := Some(e.logId);
        var response := ApplyPayload(batch, e);
        TracksStep(tree, b, batch.View(), start, n, hash, e);
        SameAnswer(Virtual(tree, b), n.store, ReadGroups(tree, b.groups), hash, e);
        ApplySnoc(start, hash, entries[..i], e);
        OverlaySnocs(start, hash, entries[..i], e);
        assert entries[..i] + [e] == entries[..i + 1];
        if e.payload.Members? {
          changed := Some(Membership(Some(e.logId), e.payload.config));
        }
        responses := responses + [response];
      }
      assert entries[..|entries|] == entries;
      ghost var b := batch.View();
      FlushPositions(batch);
      applied := if last.Some? then last else lastApplied;
      members := if changed.Some? then changed.value else membership;
      OverlaySnoc(tree, batch.ops, Put(AppliedState, Applied(applied, members)));
      ops := batch.ops + [Put(AppliedState, Applied(applied, members))];
      events := batch.events;
      BatchReaches(start, b, hash, entries, last, changed);
    }

    /** One batch: stage, commit, and only then update the caches and announce the events. */
    method Apply(entries: seq<Entry>) returns (responses: seq<Response>)
      modifies this
      ensures View() == AfterBatch(old(View()), hash, entries)
      ensures responses == OverlayResponses(old(View()), hash, entries)
      ensures Roomy(old(View()), hash, entries) ==> responses == Responses(old(View()), hash, entries)
    {
      hide AfterBatch, Overlay, OverlayResponses, Responses, Roomy;
      if Roomy(View(), hash, entries) {
        RoomyAnswers(View(), hash, entries);
      }
      var ops, applied, members, events;
      responses, ops, applied, members, events := Stage(entries);
      Commit(ops);
      lastApplied, membership := applied, members;
      sent := sent + events;
    }

    // -------------------------------------------------------------- crashes

    constructor (hash: Catalogs.Hash)
      ensures View() == FRESH && this.hash == hash
    {
      this.hash := hash;
      tree, lastApplied, membership, sent := map[], None, NO_MEMBERSHIP, [];
    }

    /**
     * The process stops during a batch: after its commit, or before it. Memory is lost; what was announced was
     * announced.
     */
    method CrashDuring(entries: seq<Entry>, committed: bool)
      modifies this
      ensures View() == AfterCrash(old(View()), hash, entries, committed)
    {
      hide AfterBatch, Overlay, OverlayResponses;
      var _, ops, _, _, _ := Stage(entries);
      if committed {
        Commit(ops);
      }
      RestoreAppliedState();
    }

    /** The in-memory applied state comes back from its stored record. */
    method RestoreAppliedState()
      modifies this
      ensures View() == Restarted(old(View()))
    {
      lastApplied, membership := None, NO_MEMBERSHIP;
      if AppliedState in tree && tree[AppliedState].Applied? {
        lastApplied, membership := tree[AppliedState].lastApplied, tree[AppliedState].membership;
      }
    }

    /**
     * Feeds a log in batches of any sizes, with crashes anywhere. Whatever happened, the storage stands exactly where
     * entry-by-entry apply of a log prefix stands, and the next batch starts right after that prefix.
     */
    method RunSteps(log: seq<Entry>, steps: seq<Step>)
      requires View() == FRESH && Numbered(log)
      modifies this
      ensures NextIndex(View()) <= |log| && StandsAt(View(), hash, log, NextIndex(View()))
      ensures View() == AfterSteps(FRESH, hash, log, steps)
    {
      hide AfterStep, StandsAt, AfterBatch, AfterCrash, OverlayResponses, Responses, Roomy;
      for i := 0 to |steps|
        invariant View() == AfterSteps(FRESH, hash, log, steps[..i])
      {
        assert steps[..i + 1][..i] == steps[..i];
        StepIs(View(), hash, log, steps[i]);
        var from := if lastApplied.None? then 0 else lastApplied.value.index + 1;
        var entries := if from + steps[i].count <= |log| then log[from..from + steps[i].count] else [];
        match steps[i]
        case Feed(_) =>
          var _ := Apply(entries);
        case Crash(_, committed) =>
          CrashDuring(entries, committed);
      }
      assert steps[..|steps|] == steps;
      RunsReproduceTheLog(hash, log, steps);
    }
  }
}
