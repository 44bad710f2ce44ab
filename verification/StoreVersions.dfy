/**
 * Optimistic concurrency over whole runs: versions and state revisions only rise, so of all writes that expect one
 * particular version at most one is ever accepted.
 */
module StoreVersions {
  import opened Base
  import opened Aggregate
  import opened StateMachine
  import Group = AggregateGroup
  import Catalogs = AggregateCatalog
  import GroupCatalog

  /** How many events an instance holds. */
  function EventRank(s: Store, ty: TypeId, p: nat, a: Text): nat {
    NextVersion(VersionOf(s, ty, p, a))
  }

  /** How many state documents an instance has had. */
  function StateRank(s: Store, ty: TypeId, p: nat, a: Text): nat {
    if StateOf(s, ty, p, a).None? then 0 else StateOf(s, ty, p, a).value.revision + 1
  }

  lemma DecideRaises(s: Store, hash: Catalogs.Hash, r: Request, ty: TypeId, p: nat, a: Text)
    ensures EventRank(s, ty, p, a) <= EventRank(s + Decide(s, hash, r).puts, ty, p, a)
    ensures StateRank(s, ty, p, a) <= StateRank(s + Decide(s, hash, r).puts, ty, p, a)
  {
    hide NextOf, RecordOf, FenceOf, ProgressOf, CatalogOf, GroupsOf;
    hide StoredAt, Fingerprint, TypeId.Valid, Group.Settings.Valid, Group.Execute, Catalogs.Apply, GroupCatalog.Apply;
  }

  lemma EntryRaises(n: Node, hash: Catalogs.Hash, e: Entry, ty: TypeId, p: nat, a: Text)
    ensures EventRank(n.store, ty, p, a) <= EventRank(ApplyEntry(n, hash, e).store, ty, p, a)
    ensures StateRank(n.store, ty, p, a) <= StateRank(ApplyEntry(n, hash, e).store, ty, p, a)
  {
    if e.payload.Normal? {
      DecideRaises(n.store, hash, e.payload.request, ty, p, a);
    }
    hide Decide;
  }

  lemma {:induction false} RunsRaise(n: Node, hash: Catalogs.Hash, entries: seq<Entry>, ty: TypeId, p: nat, a: Text)
    ensures EventRank(n.store, ty, p, a) <= EventRank(ApplyEntries(n, hash, entries).store, ty, p, a)
    ensures StateRank(n.store, ty, p, a) <= StateRank(ApplyEntries(n, hash, entries).store, ty, p, a)
    decreases entries
  {
    hide EventRank, StateRank, ApplyEntry;
    if entries != [] {
      EntryRaises(n, hash, entries[0], ty, p, a);
      RunsRaise(ApplyEntry(n, hash, entries[0]), hash, entries[1..], ty, p, a);
    }
  }

  // ---------------------------------------------------------------- appends

  /** The rank an expectation names, when it names one. */
  function ExpectedRank(expected: ExpectedVersion): Option<nat> {
    match expected
    case Any => None
    case AggregateExists => None
    case NoAggregate => Some(0)
    case Exact(version) => Some(version + 1)
  }

  lemma StoredMatches(s: Store, hash: Catalogs.Hash, r: Request)
    requires r.Append? && DecideAppend(s, hash, r).events != []
    ensures ExpectedRank(r.expected).Some? ==>
            EventRank(s, r.ty, r.partition, r.aggregateId) == ExpectedRank(r.expected).value
    ensures EventRank(s + DecideAppend(s, hash, r).puts, r.ty, r.partition, r.aggregateId) ==
            EventRank(s, r.ty, r.partition, r.aggregateId) + 1
  {
    hide NextOf, RecordOf, FenceOf, StoredAt, Fingerprint, TypeId.Valid;
  }

  /**
   * Once an append that expected a particular version has stored its event, no later append to that instance that
   * expects the same version ever stores one.
   */
  lemma ExpectationWinsOnce(n: Node, hash: Catalogs.Hash, e: Entry, later: seq<Entry>, rival: Request)
    requires e.payload.Normal? && e.payload.request.Append? && rival.Append?
    requires var r := e.payload.request;
             && ExpectedRank(r.expected).Some? && rival.expected == r.expected
             && rival.ty == r.ty && rival.partition == r.partition && rival.aggregateId == r.aggregateId
             && DecideAppend(n.store, hash, r).events != []
    ensures DecideAppend(ApplyEntries(ApplyEntry(n, hash, e), hash, later).store, hash, rival).events == []
  {
    var r := e.payload.request;
    var m := ApplyEntry(n, hash, e);
    StoredMatches(n.store, hash, r);
    assert EventRank(m.store, r.ty, r.partition, r.aggregateId) ==
           EventRank(n.store + DecideAppend(n.store, hash, r).puts, r.ty, r.partition, r.aggregateId);
    hide DecideAppend, ApplyEntry, EventRank;
    RunsRaise(m, hash, later, r.ty, r.partition, r.aggregateId);
    var t := ApplyEntries(m, hash, later).store;
    if DecideAppend(t, hash, rival).events != [] {
      StoredMatches(t, hash, rival);
    }
  }

  // ---------------------------------------------------------------- state documents

  function ExpectedStateRank(expected: ExpectedRevision): nat {
    match expected
    case Absent => 0
    case ExactRevision(revision) => revision + 1
  }

  lemma PutMatches(s: Store, r: Request)
    requires r.PutState? && DecidePutState(s, r).response.StateStored?
    ensures StateRank(s, r.ty, r.partition, r.aggregateId) == ExpectedStateRank(r.revision)
    ensures StateRank(s + DecidePutState(s, r).puts, r.ty, r.partition,
                      r.aggregateId) == ExpectedStateRank(r.revision) + 1
    ensures VersionOf(s, r.ty, r.partition, r.aggregateId).Some?
  {
    hide VersionOf, FenceOf, TypeId.Valid;
  }

  /** Once a state document has been accepted, no other one that expects the same revision ever is. */
  lemma RevisionWinsOnce(n: Node, hash: Catalogs.Hash, e: Entry, later: seq<Entry>, rival: Request)
    requires e.payload.Normal? && e.payload.request.PutState? && rival.PutState?
    requires var r := e.payload.request;
             && rival.revision == r.revision
             && rival.ty == r.ty && rival.partition == r.partition && rival.aggregateId == r.aggregateId
             && DecidePutState(n.store, r).response.StateStored?
    ensures var d := DecidePutState(ApplyEntries(ApplyEntry(n, hash, e), hash, later).store, rival);
            !d.response.StateStored?
  {
    var r := e.payload.request;
    var m := ApplyEntry(n, hash, e);
    PutMatches(n.store, r);
    assert StateRank(m.store, r.ty, r.partition, r.aggregateId) ==
           StateRank(n.store + DecidePutState(n.store, r).puts, r.ty, r.partition, r.aggregateId);
    hide DecidePutState, ApplyEntry, StateRank;
    RunsRaise(m, hash, later, r.ty, r.partition, r.aggregateId);
    var t := ApplyEntries(m, hash, later).store;
    if DecidePutState(t, rival).response.StateStored? {
      PutMatches(t, rival);
    }
  }
}
