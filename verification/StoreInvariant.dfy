/**
 * What every reachable store keeps: the five indexes an append maintains agree with one another, an event id
 * is stored once, and a fence only rises.
 */
module StoreInvariant {
  import opened Base
  import opened Aggregate
  import opened Keys
  import opened StateMachine
  import opened ApplyRefinement
  import Group = AggregateGroup
  import Catalogs = AggregateCatalog
  import GroupCatalog

  // ---------------------------------------------------------------- one partition

  predicate HasEvent(s: Store, ty: TypeId, p: nat, a: Text, v: nat) {
    EventKey(ty, p, a, v) in s && s[EventKey(ty, p, a, v)].EventValue?
  }

  function EventAt(s: Store, ty: TypeId, p: nat, a: Text, v: nat): StoredEvent
    requires HasEvent(s, ty, p, a, v)
  {
    s[EventKey(ty, p, a, v)].event
  }

  predicate HasPointer(s: Store, ty: TypeId, p: nat, q: nat) {
    IndexKey(ty, p, q) in s && s[IndexKey(ty, p, q)].Pointer?
  }

  /** The event index entry `q` leads to. */
  predicate Resolves(s: Store, ty: TypeId, p: nat, q: nat) {
    && HasPointer(s, ty, p, q)
    && HasEvent(s, ty, p, s[IndexKey(ty, p, q)].aggregateId, s[IndexKey(ty, p, q)].version)
  }

  function EventOf(s: Store, ty: TypeId, p: nat, q: nat): StoredEvent
    requires Resolves(s, ty, p, q)
  {
    EventAt(s, ty, p, s[IndexKey(ty, p, q)].aggregateId, s[IndexKey(ty, p, q)].version)
  }

  /** Every value of the partition's append families has the shape its family stores. */
  ghost predicate Typed(s: Store, ty: TypeId, p: nat) {
    && (NextPositionKey(ty, p) in s ==> s[NextPositionKey(ty, p)].Position?)
    && (forall a :: MetaKey(ty, p, a) in s ==> s[MetaKey(ty, p, a)].Meta?)
    && (forall e :: IdempotencyKey(ty, p, e) in s ==> s[IdempotencyKey(ty, p, e)].Record?)
  }

  /** The index covers exactly `0..next`, and each entry leads to the stored event that carries that position. */
  ghost predicate IndexExact(s: Store, ty: TypeId, p: nat) {
    && (forall q: nat :: IndexKey(ty, p, q) in s <==> q < NextOf(s, ty, p))
    && (forall q: nat :: q < NextOf(s, ty, p) ==> Resolves(s, ty, p, q) && EventOf(s, ty, p, q).position == q)
  }

  /** Every stored event is indexed at the position it carries, under its own identity. */
  ghost predicate EventsIndexed(s: Store, ty: TypeId, p: nat) {
    forall a, v: nat :: EventKey(ty, p, a, v) in s ==>
      && HasEvent(s, ty, p, a, v)
      && EventAt(s, ty, p, a, v).aggregateType == ty && EventAt(s, ty, p, a, v).partition == p
      && EventAt(s, ty, p, a, v).aggregateId == a && EventAt(s, ty, p, a, v).version == v
      && EventAt(s, ty, p, a, v).position < NextOf(s, ty, p)
      && HasPointer(s, ty, p, EventAt(s, ty, p, a, v).position)
      && s[IndexKey(ty, p, EventAt(s, ty, p, a, v).position)] == Pointer(a, v)
  }

  /** An instance holds exactly the versions up to its current one. */
  ghost predicate VersionsDense(s: Store, ty: TypeId, p: nat) {
    forall a, v: nat :: HasEvent(s, ty, p, a, v) <==> VersionOf(s, ty, p, a).Some? && v <= VersionOf(s, ty, p, a).value
  }

  ghost predicate VersionsOrdered(s: Store, ty: TypeId, p: nat) {
    forall a, v: nat, w: nat :: v < w && HasEvent(s, ty, p, a, v) && HasEvent(s, ty, p, a, w) ==>
      EventAt(s, ty, p, a, v).position < EventAt(s, ty, p, a, w).position
  }

  /** An idempotency record names the one stored event with its id. */
  ghost predicate RecordsExact(s: Store, ty: TypeId, p: nat) {
    && (forall e :: RecordOf(s, ty, p, e).Some? ==>
          && Resolves(s, ty, p, RecordOf(s, ty, p, e).value.position)
          && EventOf(s, ty, p, RecordOf(s, ty, p, e).value.position).eventId == e
          && EventOf(s, ty, p, RecordOf(s, ty, p, e).value.position).version == RecordOf(s, ty, p, e).value.version)
    && (forall a, v: nat :: HasEvent(s, ty, p, a, v) ==>
          && RecordOf(s, ty, p, EventAt(s, ty, p, a, v).eventId).Some?
          && RecordOf(s, ty, p, EventAt(s, ty, p, a, v).eventId).value.position == EventAt(s, ty, p, a, v).position)
  }

  ghost predicate Sound(s: Store, ty: TypeId, p: nat) {
    && Typed(s, ty, p)
    && IndexExact(s, ty, p)
    && EventsIndexed(s, ty, p)
    && VersionsDense(s, ty, p)
    && VersionsOrdered(s, ty, p)
    && RecordsExact(s, ty, p)
  }

  // ---------------------------------------------------------------- append keeps it

  /** The keys of a partition's append families agree in both stores. */
  ghost predicate SameFamilies(s: Store, t: Store, ty: TypeId, p: nat) {
    forall k: Key :: AppendFamily(k, ty, p) ==> (k in s <==> k in t) && (k in s ==> s[k] == t[k])
  }

  predicate AppendFamily(k: Key, ty: TypeId, p: nat) {
    (k.EventKey? || k.IndexKey? || k.MetaKey? || k.IdempotencyKey? || k.NextPositionKey?) && k.ty == ty && k.partition == p
  }

  lemma SameReads(s: Store, t: Store, ty: TypeId, p: nat)
    requires SameFamilies(s, t, ty, p)
    ensures NextOf(s, ty, p) == NextOf(t, ty, p)
    ensures forall a :: VersionOf(s, ty, p, a) == VersionOf(t, ty, p, a)
    ensures forall e :: RecordOf(s, ty, p, e) == RecordOf(t, ty, p, e)
    ensures forall a, v :: HasEvent(s, ty, p, a, v) <==> HasEvent(t, ty, p, a, v)
    ensures forall a, v :: HasEvent(s, ty, p, a, v) ==> EventAt(s, ty, p, a, v) == EventAt(t, ty, p, a, v)
    ensures forall q :: HasPointer(s, ty, p, q) <==> HasPointer(t, ty, p, q)
    ensures forall q :: HasPointer(s, ty, p, q) ==> s[IndexKey(ty, p, q)] == t[IndexKey(ty, p, q)]
  {
    assert AppendFamily(NextPositionKey(ty, p), ty, p);
    forall a: Text ensures VersionOf(s, ty, p, a) == VersionOf(t, ty, p, a) {
      assert AppendFamily(MetaKey(ty, p, a), ty, p);
    }
    forall e: Uuid ensures RecordOf(s, ty, p, e) == RecordOf(t, ty, p, e) {
      assert AppendFamily(IdempotencyKey(ty, p, e), ty, p);
    }
    forall a: Text, v: nat ensures HasEvent(s, ty, p, a, v) <==> HasEvent(t, ty, p, a, v)
      ensures HasEvent(s, ty, p, a, v) ==> EventAt(s, ty, p, a, v) == EventAt(t, ty, p, a, v)
    {
      assert AppendFamily(EventKey(ty, p, a, v), ty, p);
    }
    forall q: nat ensures HasPointer(s, ty, p, q) <==> HasPointer(t, ty, p, q)
      ensures HasPointer(s, ty, p, q) ==> s[IndexKey(ty, p, q)] == t[IndexKey(ty, p, q)]
    {
      assert AppendFamily(IndexKey(ty, p, q), ty, p);
    }
  }

  lemma SoundFramed(s: Store, t: Store, ty: TypeId, p: nat)
    requires Sound(s, ty, p) && SameFamilies(s, t, ty, p)
    ensures Sound(t, ty, p)
  {
    SameReads(s, t, ty, p);
    assert AppendFamily(NextPositionKey(ty, p), ty, p);
    forall a: Text ensures MetaKey(ty, p, a) in t ==> t[MetaKey(ty, p, a)].Meta? {
      assert AppendFamily(MetaKey(ty, p, a), ty, p);
    }
    forall e: Uuid ensures IdempotencyKey(ty, p, e) in t ==> t[IdempotencyKey(ty, p, e)].Record? {
      assert AppendFamily(IdempotencyKey(ty, p, e), ty, p);
    }
    assert Typed(t, ty, p);
    IndexFramed(s, t, ty, p);
    EventsFramed(s, t, ty, p);
    hide SameFamilies, NextOf, VersionOf, RecordOf;
    assert VersionsDense(t, ty, p);
    assert VersionsOrdered(t, ty, p);
    assert RecordsExact(t, ty, p);
  }

  lemma IndexFramed(s: Store, t: Store, ty: TypeId, p: nat)
    requires IndexExact(s, ty, p) && SameFamilies(s, t, ty, p)
    ensures IndexExact(t, ty, p)
  {
    SameReads(s, t, ty, p);
    forall q: nat ensures IndexKey(ty, p, q) in t <==> q < NextOf(t, ty, p) {
      assert AppendFamily(IndexKey(ty, p, q), ty, p);
    }
    hide SameFamilies, NextOf, VersionOf, RecordOf;
    forall q: nat | q < NextOf(t, ty, p) ensures Resolves(t, ty, p, q) && EventOf(t, ty, p, q).position == q {
      assert Resolves(s, ty, p, q) && EventOf(s, ty, p, q).position == q;
    }
  }

  lemma EventsFramed(s: Store, t: Store, ty: TypeId, p: nat)
    requires EventsIndexed(s, ty, p) && SameFamilies(s, t, ty, p)
    ensures EventsIndexed(t, ty, p)
  {
    SameReads(s, t, ty, p);
    forall a: Text, v: nat ensures EventKey(ty, p, a, v) in t ==> EventKey(ty, p, a, v) in s {
      assert AppendFamily(EventKey(ty, p, a, v), ty, p);
    }
    hide SameFamilies, NextOf, VersionOf, RecordOf;
  }

  /** The append that `DecideAppend` accepts in a partition it finds sound. */
  ghost predicate Accepted(s: Store, r: Request, version: nat, position: nat) {
    && r.Append?
    && Sound(s, r.ty, r.partition)
    && version == NextVersion(VersionOf(s, r.ty, r.partition, r.aggregateId))
    && position == NextOf(s, r.ty, r.partition)
    && RecordOf(s, r.ty, r.partition, r.event.eventId).None?
  }

  /** Both slots an accepted append fills are free. */
  lemma SlotsFree(s: Store, r: Request, version: nat, position: nat)
    requires Accepted(s, r, version, position)
    ensures EventKey(r.ty, r.partition, r.aggregateId, version) !in s && IndexKey(r.ty, r.partition, position) !in s
  {
    hide Typed, VersionsOrdered, RecordsExact, VersionOf, NextOf, RecordOf;
    assert HasEvent(s, r.ty, r.partition, r.aggregateId, version) <==>
           VersionOf(s, r.ty, r.partition, r.aggregateId).Some? && version <= VersionOf(s, r.ty, r.partition,
               r.aggregateId).value;
  }

  lemma AppendReads(s: Store, r: Request, fingerprint: nat, version: nat, position: nat)
    requires r.Append?
    requires position == NextOf(s, r.ty, r.partition)
    ensures var t := s + AppendPuts(r, fingerprint, version, position);
            && NextOf(t, r.ty, r.partition) == position + 1
            && (forall a :: VersionOf(t, r.ty, r.partition, a) ==
                            if a == r.aggregateId then Some(version) else VersionOf(s, r.ty, r.partition, a))
            && (forall e :: RecordOf(t, r.ty, r.partition, e) ==
                            if e == r.event.eventId then Some(Record(fingerprint, version, position))
                              else RecordOf(s, r.ty, r.partition, e))
  {
    hide StoredAt;
  }

  lemma AppendSlots(s: Store, r: Request, fingerprint: nat, version: nat, position: nat, t: Store)
    requires r.Append? && t == s + AppendPuts(r, fingerprint, version, position)
    ensures HasEvent(t, r.ty, r.partition, r.aggregateId, version)
    ensures EventAt(t, r.ty, r.partition, r.aggregateId, version) == StoredAt(r, version, position)
    ensures HasPointer(t, r.ty, r.partition, position)
    ensures t[IndexKey(r.ty, r.partition, position)] == Pointer(r.aggregateId, version)
    ensures forall a, v: nat :: (a, v) != (r.aggregateId, version) ==>
              (HasEvent(t, r.ty, r.partition, a, v) <==> HasEvent(s, r.ty, r.partition, a, v))
    ensures forall a, v: nat :: (a, v) != (r.aggregateId, version) && HasEvent(s, r.ty, r.partition, a, v) ==>
              EventAt(t, r.ty, r.partition, a, v) == EventAt(s, r.ty, r.partition, a, v)
    ensures forall q: nat :: q != position ==>
            (HasPointer(t, r.ty, r.partition, q) <==> HasPointer(s, r.ty, r.partition, q))
    ensures forall q: nat :: q != position && HasPointer(s, r.ty, r.partition, q) ==>
              t[IndexKey(r.ty, r.partition, q)] == s[IndexKey(r.ty, r.partition, q)]
    ensures forall k :: k in t <==> k in s || k in AppendPuts(r, fingerprint, version, position)
  {
    hide StoredAt;
  }

  /** Nothing an append resolves or stores moves anything that was there. */
  lemma AppendKeepsResolved(s: Store, r: Request, fingerprint: nat, version: nat, position: nat, t: Store, q: nat)
    requires Accepted(s, r, version, position) && t == s + AppendPuts(r, fingerprint, version, position)
    requires Resolves(s, r.ty, r.partition, q)
    ensures Resolves(t, r.ty, r.partition, q) && EventOf(t, r.ty, r.partition, q) == EventOf(s, r.ty, r.partition, q)
  {
    SlotsFree(s, r, version, position);
    AppendSlots(s, r, fingerprint, version, position, t);
    hide Sound, AppendPuts, StoredAt, NextOf, VersionOf, RecordOf;
  }

  lemma AppendIndex(s: Store, r: Request, fingerprint: nat, version: nat, position: nat, t: Store)
    requires Accepted(s, r, version, position) && t == s + AppendPuts(r, fingerprint, version, position)
    ensures IndexExact(t, r.ty, r.partition)
  {
    SlotsFree(s, r, version, position);
    AppendReads(s, r, fingerprint, version, position);
    AppendSlots(s, r, fingerprint, version, position, t);
    assert IndexExact(s, r.ty, r.partition);
    forall q: nat ensures IndexKey(r.ty, r.partition, q) in t <==> q < NextOf(t, r.ty, r.partition) {
    }
    hide AppendPuts, NextOf, VersionOf, RecordOf, Typed, EventsIndexed, VersionsDense, VersionsOrdered, RecordsExact;
    forall q: nat | q < NextOf(t, r.ty, r.partition)
      ensures Resolves(t, r.ty, r.partition, q) && EventOf(t, r.ty, r.partition, q).position == q
    {
      if q != position {
        AppendKeepsResolved(s, r, fingerprint, version, position, t, q);
      }
    }
  }

  lemma AppendEvents(s: Store, r: Request, fingerprint: nat, version: nat, position: nat, t: Store)
    requires Accepted(s, r, version, position) && t == s + AppendPuts(r, fingerprint, version, position)
    ensures EventsIndexed(t, r.ty, r.partition)
  {
    SlotsFree(s, r, version, position);
    AppendReads(s, r, fingerprint, version, position);
    AppendSlots(s, r, fingerprint, version, position, t);
    forall a, v: nat | EventKey(r.ty, r.partition, a, v) in t && (a, v) != (r.aggregateId, version)
      ensures EventKey(r.ty, r.partition, a, v) in s
    {
    }
    assert EventsIndexed(s, r.ty, r.partition);
    hide AppendPuts, NextOf, VersionOf, RecordOf, Typed, IndexExact, VersionsDense, VersionsOrdered, RecordsExact;
  }

  lemma AppendVersions(s: Store, r: Request, fingerprint: nat, version: nat, position: nat, t: Store)
    requires Accepted(s, r, version, position) && t == s + AppendPuts(r, fingerprint, version, position)
    ensures VersionsDense(t, r.ty, r.partition) && VersionsOrdered(t, r.ty, r.partition)
  {
    AppendReads(s, r, fingerprint, version, position);
    AppendSlots(s, r, fingerprint, version, position, t);
    hide AppendPuts, NextOf, VersionOf, RecordOf, Typed, IndexExact, RecordsExact, HasEvent, EventAt;
    forall a, v: nat
      ensures HasEvent(t, r.ty, r.partition, a, v) <==>
              VersionOf(t, r.ty, r.partition, a).Some? && v <= VersionOf(t, r.ty, r.partition, a).value
    {
      assert HasEvent(s, r.ty, r.partition, a, v) <==>
             VersionOf(s, r.ty, r.partition, a).Some? && v <= VersionOf(s, r.ty, r.partition, a).value;
    }
    forall a, v: nat, w: nat | v < w && HasEvent(t, r.ty, r.partition, a, v) && HasEvent(t, r.ty, r.partition, a, w)
      ensures EventAt(t, r.ty, r.partition, a, v).position < EventAt(t, r.ty, r.partition, a, w).position
    {
      EventBelowNext(s, r.ty, r.partition, a, v);
    }
  }

  lemma EventBelowNext(s: Store, ty: TypeId, p: nat, a: Text, v: nat)
    requires EventsIndexed(s, ty, p)
    ensures HasEvent(s, ty, p, a, v) ==> EventAt(s, ty, p, a, v).position < NextOf(s, ty, p)
  {
  }

  lemma AppendRecords(s: Store, r: Request, fingerprint: nat, version: nat, position: nat, t: Store)
    requires Accepted(s, r, version, position) && t == s + AppendPuts(r, fingerprint, version, position)
    ensures RecordsExact(t, r.ty, r.partition)
  {
    var ty, p := r.ty, r.partition;
    AppendReads(s, r, fingerprint, version, position);
    AppendSlots(s, r, fingerprint, version, position, t);
    hide AppendPuts, NextOf, VersionOf, RecordOf, Typed, IndexExact, EventsIndexed, VersionsDense, VersionsOrdered;
    hide HasEvent;
    forall e | RecordOf(t, ty, p, e).Some?
      ensures Resolves(t, ty, p, RecordOf(t, ty, p, e).value.position)
      ensures EventOf(t, ty, p, RecordOf(t, ty, p, e).value.position).eventId == e
      ensures EventOf(t, ty, p, RecordOf(t, ty, p, e).value.position).version == RecordOf(t, ty, p, e).value.version
    {
      if e != r.event.eventId {
        assert RecordOf(s, ty, p, e).Some?;
        AppendKeepsResolved(s, r, fingerprint, version, position, t, RecordOf(s, ty, p, e).value.position);
      }
    }
    forall a, v: nat | HasEvent(t, ty, p, a, v)
      ensures RecordOf(t, ty, p, EventAt(t, ty, p, a, v).eventId).Some?
      ensures RecordOf(t, ty, p, EventAt(t, ty, p, a, v).eventId).value.position == EventAt(t, ty, p, a, v).position
    {
      if (a, v) != (r.aggregateId, version) {
        assert RecordOf(s, ty, p, EventAt(s, ty, p, a, v).eventId).Some?;
      }
    }
  }

  lemma AppendSound(s: Store, r: Request, fingerprint: nat, version: nat, position: nat, t: Store)
    requires Accepted(s, r, version, position) && t == s + AppendPuts(r, fingerprint, version, position)
    ensures Sound(t, r.ty, r.partition)
  {
    assert Typed(t, r.ty, r.partition);
    AppendIndex(s, r, fingerprint, version, position, t);
    AppendEvents(s, r, fingerprint, version, position, t);
    AppendVersions(s, r, fingerprint, version, position, t);
    AppendRecords(s, r, fingerprint, version, position, t);
    hide IndexExact, EventsIndexed, VersionsDense, VersionsOrdered, RecordsExact;
  }

  // ---------------------------------------------------------------- every entry keeps it

  predicate Appends(s: Store, hash: Catalogs.Hash, r: Request) {
    r.Append? && DecideAppend(s, hash, r).events != []
  }

  /** A request that stores an event was accepted; any other leaves every append family alone. */
  lemma DecideShape(s: Store, hash: Catalogs.Hash, r: Request)
    requires r.Append? ==> Sound(s, r.ty, r.partition)
    ensures Appends(s, hash, r) ==>
              var version := NextVersion(VersionOf(s, r.ty, r.partition, r.aggregateId));
              var position := NextOf(s, r.ty, r.partition);
              && Accepted(s, r, version, position)
              && Decide(s, hash, r) == Decision(AppendPuts(r,
                                                           Fingerprint(hash, r.ty, r.aggregateId, r.expected,
                                                           r.event), version, position),
                                                AppendOk(version, position), [StoredAt(r, version, position)])
              && FenceOf(s, r.ty, r.partition) == r.generation
    ensures !Appends(s, hash, r) ==>
              Decide(s, hash, r).events == [] && forall k, ty, p :: k in Decide(s, hash, r).puts ==> !AppendFamily(k,
                  ty, p)
  {
    hide VersionOf, StateOf, NextOf, FenceOf, RecordOf, ProgressOf, CatalogOf, GroupsOf, Sound;
    hide StoredAt, Fingerprint, TypeId.Valid, Group.Settings.Valid, Group.Execute, Catalogs.Apply, GroupCatalog.Apply;
  }

  lemma PutsFramed(s: Store, puts: map<Key, Value>, x: Value, ty: TypeId, p: nat)
    requires forall k :: k in puts ==> !AppendFamily(k, ty, p)
    ensures SameFamilies(s, (s + puts)[AppliedState := x], ty, p)
  {
  }

  lemma OtherPartition(s: Store, r: Request, fingerprint: nat, version: nat, position: nat, ty: TypeId, p: nat)
    requires r.Append? && (ty, p) != (r.ty, r.partition)
    ensures forall k :: k in AppendPuts(r, fingerprint, version, position) ==> !AppendFamily(k, ty, p)
  {
  }

  lemma DecideSound(s: Store, hash: Catalogs.Hash, r: Request, x: Value, ty: TypeId, p: nat)
    requires Sound(s, ty, p) && (r.Append? ==> Sound(s, r.ty, r.partition))
    ensures Sound((s + Decide(s, hash, r).puts)[AppliedState := x], ty, p)
  {
    DecideShape(s, hash, r);
    hide Sound, Decide, Appends, AppendPuts, AppendFamily, VersionOf, NextOf, FenceOf, RecordOf;
    var puts := Decide(s, hash, r).puts;
    var t := s + puts;
    if Appends(s, hash, r) && (ty, p) == (r.ty, r.partition) {
      AppendSound(s, r, Fingerprint(hash, r.ty, r.aggregateId, r.expected, r.event),
                  NextVersion(VersionOf(s, ty, p, r.aggregateId)), NextOf(s, ty, p), t);
      NothingPut(t, x, ty, p);
      SoundFramed(t, t[AppliedState := x], ty, p);
    } else {
      if Appends(s, hash, r) {
        OtherPartition(s, r, Fingerprint(hash, r.ty, r.aggregateId, r.expected, r.event),
                       NextVersion(VersionOf(s, r.ty, r.partition, r.aggregateId)), NextOf(s, r.ty,
                           r.partition), ty, p);
      }
      PutsFramed(s, puts, x, ty, p);
      SoundFramed(s, t[AppliedState := x], ty, p);
    }
  }

  lemma NothingPut(s: Store, x: Value, ty: TypeId, p: nat)
    ensures SameFamilies(s, s[AppliedState := x], ty, p)
  {
  }

  ghost predicate AllSound(s: Store) {
    forall ty, p :: Sound(s, ty, p)
  }

  lemma EntrySound(n: Node, hash: Catalogs.Hash, e: Entry)
    requires AllSound(n.store)
    ensures AllSound(ApplyEntry(n, hash, e).store)
  {
    hide Sound, Decide;
    var x := Applied(Some(e.logId), MembershipAfter(n.membership, e));
    forall ty, p ensures Sound(ApplyEntry(n, hash, e).store, ty, p) {
      if e.payload.Normal? {
        DecideSound(n.store, hash, e.payload.request, x, ty, p);
      } else {
        NothingPut(n.store, x, ty, p);
        assert n.store + map[] == n.store;
        SoundFramed(n.store, n.store[AppliedState := x], ty, p);
      }
    }
  }

  lemma FreshSound()
    ensures AllSound(FRESH.store)
  {
  }

  /** Index agreement: in every store a log can reach, every partition's indexes agree. */
  lemma {:induction false} ReachableSound(n: Node, hash: Catalogs.Hash, entries: seq<Entry>)
    requires AllSound(n.store)
    ensures AllSound(ApplyEntries(n, hash, entries).store)
    decreases entries
  {
    hide AllSound, ApplyEntry;
    if entries != [] {
      EntrySound(n, hash, entries[0]);
      ReachableSound(ApplyEntry(n, hash, entries[0]), hash, entries[1..]);
    }
  }

  /** The index is a bijection: two positions never lead to one event, two events never share a position. */
  lemma IndexInjective(s: Store, ty: TypeId, p: nat, q: nat, q': nat, a: Text, v: nat, a': Text, v': nat)
    requires Sound(s, ty, p)
    ensures q < NextOf(s, ty, p) && q' < NextOf(s, ty, p) && EventOf(s, ty, p, q) == EventOf(s, ty, p, q') ==> q == q'
    ensures HasEvent(s, ty, p, a, v) && HasEvent(s, ty, p, a', v') ==>
              (EventAt(s, ty, p, a, v).position == EventAt(s, ty, p, a', v').position <==> (a, v) == (a', v'))
  {
    hide Typed, VersionsDense, VersionsOrdered, RecordsExact, NextOf, VersionOf, RecordOf;
  }

  /** At most one stored event per partition carries an event id. */
  lemma EventIdUnique(s: Store, ty: TypeId, p: nat, a: Text, v: nat, a': Text, v': nat)
    requires Sound(s, ty, p) && HasEvent(s, ty, p, a, v) && HasEvent(s, ty, p, a', v')
    requires EventAt(s, ty, p, a, v).eventId == EventAt(s, ty, p, a', v').eventId
    ensures (a, v) == (a', v')
  {
    IndexInjective(s, ty, p, 0, 0, a, v, a', v');
    hide Typed, VersionsDense, VersionsOrdered, IndexExact, EventsIndexed, NextOf, VersionOf, RecordOf;
  }
}
