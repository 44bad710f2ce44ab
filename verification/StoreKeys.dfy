/** Every store a log can reach holds well-formed state-machine keys only, so its encoding loses nothing. */
module StoreKeys {
  import opened Base
  import opened Aggregate
  import opened Keys
  import opened StateMachine
  import opened ApplyRefinement
  import Group = AggregateGroup
  import Catalogs = AggregateCatalog
  import GroupCatalog

  /** State-machine keys whose identities were validated and whose numbers fit their widths. */
  ghost predicate ValidKeys(s: Store) {
    forall k :: k in s ==> k.Valid() && k.Tag() == TAG_SM
  }

  /** The widths of a request's fields: 16-bit partitions and 128-bit event ids. */
  predicate Wide(r: Request) {
    match r
    case Append(_, p, _, _, _, event, _) => p <= U16_MAX && event.eventId < (U64_MAX + 1) * (U64_MAX + 1)
    case PutState(_, p, _, _, _, _, _) => p <= U16_MAX
    case InstallFence(_, p, _) => p <= U16_MAX
    case GroupPartition(_, p, _, _, _, _, _, _) => p <= U16_MAX
    case _ => true
  }

  ghost predicate AllWide(entries: seq<Entry>) {
    forall i :: 0 <= i < |entries| && entries[i].payload.Normal? ==> Wide(entries[i].payload.request)
  }

  /** What a request validates before it writes is what its keys need. */
  lemma DecideKeys(s: Store, hash: Catalogs.Hash, r: Request)
    requires Wide(r)
    ensures ValidKeys(Decide(s, hash, r).puts)
  {
    hide VersionOf, StateOf, NextOf, FenceOf, RecordOf, ProgressOf, CatalogOf, GroupsOf;
    hide StoredAt, Fingerprint, TypeId.Valid, Group.Settings.Valid, Group.Execute, Catalogs.Apply;
    hide GroupCatalog.Apply, ValidIdentifier;
  }

  lemma {:induction false} ReachableKeys(n: Node, hash: Catalogs.Hash, entries: seq<Entry>)
    requires ValidKeys(n.store) && AllWide(entries)
    ensures ValidKeys(ApplyEntries(n, hash, entries).store)
    decreases entries
  {
    if entries != [] {
      var e := entries[0];
      if e.payload.Normal? {
        DecideKeys(n.store, hash, e.payload.request);
      }
      hide Decide;
      assert ValidKeys(ApplyEntry(n, hash, e).store);
      hide ValidKeys, ApplyEntry;
      ReachableKeys(ApplyEntry(n, hash, e), hash, entries[1..]);
    }
  }

  /** So does a batch, which also records the applied state when it is empty. */
  lemma BatchKeys(n: Node, hash: Catalogs.Hash, entries: seq<Entry>)
    requires ValidKeys(n.store) && AllWide(entries)
    ensures ValidKeys(AfterBatch(n, hash, entries).store)
  {
    ReachableKeys(n, hash, entries);
    hide ApplyEntries;
  }
}
