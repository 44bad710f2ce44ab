/**
 * What whole runs of the state machine guarantee: an accepted append is answered the same way for ever and
 * stored once, and fences order the writes.
 */
module StoreRuns {
  import opened Base
  import opened Aggregate
  import opened Keys
  import opened StateMachine
  import Group = AggregateGroup
  import Catalogs = AggregateCatalog
  import GroupCatalog

  // ---------------------------------------------------------------- exactly-once append

  /** No request ever changes an idempotency record that is there. */
  lemma DecideKeepsRecord(s: Store, hash: Catalogs.Hash, r: Request, ty: TypeId, p: nat, id: Uuid)
    requires RecordOf(s, ty, p, id).Some?
    ensures IdempotencyKey(ty, p, id) !in Decide(s, hash, r).puts
  {
    hide VersionOf, StateOf, NextOf, FenceOf, ProgressOf, CatalogOf, GroupsOf;
    hide StoredAt, Fingerprint, TypeId.Valid, Group.Settings.Valid, Group.Execute, Catalogs.Apply, GroupCatalog.Apply;
  }

  lemma EntryKeepsRecord(n: Node, hash: Catalogs.Hash, e: Entry, ty: TypeId, p: nat, id: Uuid)
    requires RecordOf(n.store, ty, p, id).Some?
    ensures RecordOf(ApplyEntry(n, hash, e).store, ty, p, id) == RecordOf(n.store, ty, p, id)
  {
    if e.payload.Normal? {
      DecideKeepsRecord(n.store, hash, e.payload.request, ty, p, id);
    }
    hide Decide;
  }

  lemma {:induction false} RecordsAreForever(n: Node, hash: Catalogs.Hash, entries: seq<Entry>, ty: TypeId, p: nat,
                                             id: Uuid)
    requires RecordOf(n.store, ty, p, id).Some?
    ensures RecordOf(ApplyEntries(n, hash, entries).store, ty, p, id) == RecordOf(n.store, ty, p, id)
    decreases entries
  {
    if entries != [] {
      EntryKeepsRecord(n, hash, entries[0], ty, p, id);
      hide RecordOf, ApplyEntry;
      RecordsAreForever(ApplyEntry(n, hash, entries[0]), hash, entries[1..], ty, p, id);
    }
  }

  /** The same append sent again: only the placement generation and the clock may differ. */
  predicate SameAppend(r: Request, r': Request) {
    && r.Append? && r'.Append?
    && r.ty == r'.ty && r.partition == r'.partition && r.aggregateId == r'.aggregateId
    && r.expected == r'.expected && r.event == r'.event
  }

  lemma AppendLeavesRecord(n: Node, hash: Catalogs.Hash, e: Entry)
    requires e.payload.Normal? && e.payload.request.Append?
    ensures var r := e.payload.request;
            var d := DecideAppend(n.store, hash, r);
            d.response.AppendOk? ==>
              RecordOf(ApplyEntry(n, hash, e).store, r.ty, r.partition, r.event.eventId) ==
              Some(Record(Fingerprint(hash, r.ty, r.aggregateId, r.expected, r.event), d.response.version,
                          d.response.position))
  {
    hide VersionOf, NextOf, FenceOf, StoredAt, Fingerprint, TypeId.Valid;
  }

  lemma AcceptedIsValid(s: Store, hash: Catalogs.Hash, r: Request)
    requires r.Append? && DecideAppend(s, hash, r).response.AppendOk?
    ensures r.ty.Valid() && ValidIdentifier(r.aggregateId) && r.event.eventType != []
  {
    hide VersionOf, NextOf, FenceOf, RecordOf, StoredAt, Fingerprint, TypeId.Valid;
  }

  lemma RetryAnswer(s: Store, hash: Catalogs.Hash, r: Request, version: nat, position: nat)
    requires r.Append? && r.ty.Valid() && ValidIdentifier(r.aggregateId) && r.event.eventType != []
    requires RecordOf(s, r.ty, r.partition, r.event.eventId) ==
             Some(Record(Fingerprint(hash, r.ty, r.aggregateId, r.expected, r.event), version, position))
    ensures DecideAppend(s, hash, r) == Decision(map[], AppendOk(version, position), [])
  {
    hide VersionOf, NextOf, FenceOf, RecordOf, StoredAt, Fingerprint, TypeId.Valid;
  }

  /**
   * Exactly-once append: once an append has been answered with a version and position, sending it again after any
   * further entries, later appends and fence changes included, gets the same answer and stores nothing.
   */
  lemma RetryReturnsOriginal(n: Node, hash: Catalogs.Hash, e: Entry, later: seq<Entry>, retry: Request)
    requires e.payload.Normal? && SameAppend(e.payload.request, retry)
    requires DecideAppend(n.store, hash, e.payload.request).response.AppendOk?
    ensures var first := DecideAppend(n.store, hash, e.payload.request).response;
            DecideAppend(ApplyEntries(ApplyEntry(n, hash, e), hash, later).store, hash, retry) ==
              Decision(map[], first, [])
  {
    AppendLeavesRecord(n, hash, e);
    AcceptedIsValid(n.store, hash, e.payload.request);
    hide RecordOf, Fingerprint, DecideAppend, ApplyEntry, TypeId.Valid;
    var r := e.payload.request;
    var first := DecideAppend(n.store, hash, r).response;
    RecordsAreForever(ApplyEntry(n, hash, e), hash, later, r.ty, r.partition, r.event.eventId);
    RetryAnswer(ApplyEntries(ApplyEntry(n, hash, e), hash, later).store, hash, retry, first.version, first.position);
  }

  /** An id already used for a different append is refused: a differing fingerprint conflicts and stores nothing. */
  lemma OtherAppendConflicts(n: Node, hash: Catalogs.Hash, e: Entry, later: seq<Entry>, other: Request)
    requires e.payload.Normal? && e.payload.request.Append? && other.Append?
    requires DecideAppend(n.store, hash, e.payload.request).response.AppendOk?
    requires other.ty == e.payload.request.ty && other.partition == e.payload.request.partition
    requires other.event.eventId == e.payload.request.event.eventId
    requires Fingerprint(hash, other.ty, other.aggregateId, other.expected, other.event) !=
             Fingerprint(hash, e.payload.request.ty, e.payload.request.aggregateId, e.payload.request.expected,
                         e.payload.request.event)
    ensures var d := DecideAppend(ApplyEntries(ApplyEntry(n, hash, e), hash, later).store, hash, other);
            d.puts == map[] && d.events == [] && (d.response == IdempotencyConflict || d.response == Invalid)
  {
    AppendLeavesRecord(n, hash, e);
    hide RecordOf, Fingerprint, ApplyEntry, TypeId.Valid, VersionOf, NextOf, FenceOf;
    var r := e.payload.request;
    RecordsAreForever(ApplyEntry(n, hash, e), hash, later, r.ty, r.partition, r.event.eventId);
  }

  // ---------------------------------------------------------------- fences

  lemma DecideFenceRises(s: Store, hash: Catalogs.Hash, r: Request, ty: TypeId, p: nat)
    ensures FenceOf(s, ty, p) <= FenceOf(s + Decide(s, hash, r).puts, ty, p)
  {
    hide VersionOf, StateOf, NextOf, RecordOf, ProgressOf, CatalogOf, GroupsOf;
    hide StoredAt, Fingerprint, TypeId.Valid, Group.Settings.Valid, Group.Execute, Catalogs.Apply, GroupCatalog.Apply;
  }

  lemma EntryFenceRises(n: Node, hash: Catalogs.Hash, e: Entry, ty: TypeId, p: nat)
    ensures FenceOf(n.store, ty, p) <= FenceOf(ApplyEntry(n, hash, e).store, ty, p)
  {
    if e.payload.Normal? {
      DecideFenceRises(n.store, hash, e.payload.request, ty, p);
    }
    hide Decide;
  }

  lemma {:induction false} FencesNeverFall(n: Node, hash: Catalogs.Hash, entries: seq<Entry>, ty: TypeId, p: nat)
    ensures FenceOf(n.store, ty, p) <= FenceOf(ApplyEntries(n, hash, entries).store, ty, p)
    decreases entries
  {
    hide FenceOf, ApplyEntry;
    if entries != [] {
      EntryFenceRises(n, hash, entries[0], ty, p);
      FencesNeverFall(ApplyEntry(n, hash, entries[0]), hash, entries[1..], ty, p);
    }
  }

  /** A write that placement generations guard. */
  predicate Guarded(r: Request) {
    r.Append? || r.PutState? || r.GroupPartition?
  }

  lemma ChangeCarriesFence(s: Store, hash: Catalogs.Hash, r: Request)
    requires Guarded(r) && Decide(s, hash, r).puts != map[]
    ensures r.generation == FenceOf(s, r.ty, r.partition)
  {
    hide VersionOf, StateOf, NextOf, FenceOf, RecordOf, ProgressOf, CatalogOf, GroupsOf;
    hide StoredAt, Fingerprint, TypeId.Valid, Group.Settings.Valid, Group.Execute, Catalogs.Apply, GroupCatalog.Apply;
  }

  predicate Changes(n: Node, hash: Catalogs.Hash, e: Entry) {
    e.payload.Normal? && Guarded(e.payload.request) && Decide(n.store, hash, e.payload.request).puts != map[]
  }

  /** Along any log, the guarded writes that change a partition carry non-decreasing generations. */
  lemma GenerationsNeverFall(n: Node, hash: Catalogs.Hash, entries: seq<Entry>, i: nat, j: nat)
    requires i < j < |entries|
    requires Changes(ApplyEntries(n, hash, entries[..i]), hash, entries[i])
    requires Changes(ApplyEntries(n, hash, entries[..j]), hash, entries[j])
    requires entries[i].payload.request.ty == entries[j].payload.request.ty
    requires entries[i].payload.request.partition == entries[j].payload.request.partition
    ensures entries[i].payload.request.generation <= entries[j].payload.request.generation
  {
    var m, m' := ApplyEntries(n, hash, entries[..i]), ApplyEntries(n, hash, entries[..j]);
    var r, r' := entries[i].payload.request, entries[j].payload.request;
    assert entries[..j] == entries[..i] + entries[i..j];
    ApplyConcat(n, hash, entries[..i], entries[i..j]);
    hide FenceOf, Decide, ApplyEntries;
    ChangeCarriesFence(m.store, hash, r);
    ChangeCarriesFence(m'.store, hash, r');
    FencesNeverFall(m, hash, entries[i..j], r.ty, r.partition);
  }
}
