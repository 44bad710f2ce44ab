/**
 * Consequences of index agreement: positions are conserved, the broadcast is the log, and the index positions a
 * partition read scans are a stretch of it.
 */
module StoreReads {
  import opened Base
  import opened Aggregate
  import opened Keys
  import opened StateMachine
  import opened ApplyRefinement
  import opened StoreInvariant
  import opened RangeScan
  import Catalogs = AggregateCatalog

  // ---------------------------------------------------------------- conservation

  /** The instances of a partition. */
  function Ids(s: Store, ty: TypeId, p: nat): set<Text> {
    set k | k in s && k.MetaKey? && k.ty == ty && k.partition == p :: k.aggregateId
  }

  /** How many events the instances hold together, counted from their current versions. */
  ghost function Total(s: Store, ty: TypeId, p: nat, ids: set<Text>): nat {
    if ids == {} then 0
    else
      var a :| a in ids;
      NextVersion(VersionOf(s, ty, p, a)) + Total(s, ty, p, ids - {a})
  }

  ghost predicate Conserved(s: Store, ty: TypeId, p: nat) {
    NextOf(s, ty, p) == Total(s, ty, p, Ids(s, ty, p))
  }

  lemma {:induction false} TotalPick(s: Store, ty: TypeId, p: nat, ids: set<Text>, a: Text)
    requires a in ids
    ensures Total(s, ty, p, ids) == NextVersion(VersionOf(s, ty, p, a)) + Total(s, ty, p, ids - {a})
    decreases ids
  {
    hide VersionOf, NextVersion;
    var b :| b in ids && Total(s, ty, p, ids) == NextVersion(VersionOf(s, ty, p, b)) + Total(s, ty, p, ids - {b});
    if a != b {
      TotalPick(s, ty, p, ids - {b}, a);
      TotalPick(s, ty, p, ids - {a}, b);
      assert ids - {a} - {b} == ids - {b} - {a};
    }
  }

  lemma {:induction false} TotalSame(s: Store, t: Store, ty: TypeId, p: nat, ids: set<Text>)
    requires forall a :: a in ids ==> VersionOf(s, ty, p, a) == VersionOf(t, ty, p, a)
    ensures Total(s, ty, p, ids) == Total(t, ty, p, ids)
    decreases ids
  {
    hide VersionOf;
    if ids != {} {
      var a :| a in ids;
      TotalPick(s, ty, p, ids, a);
      TotalPick(t, ty, p, ids, a);
      TotalSame(s, t, ty, p, ids - {a});
    }
  }

  lemma ConservedFramed(s: Store, t: Store, ty: TypeId, p: nat)
    requires Conserved(s, ty, p) && SameFamilies(s, t, ty, p)
    ensures Conserved(t, ty, p)
  {
    SameReads(s, t, ty, p);
    forall k: Key ensures k.MetaKey? && k.ty == ty && k.partition == p ==> (k in s <==> k in t) {
      assert AppendFamily(k, ty, p) || !(k.MetaKey? && k.ty == ty && k.partition == p);
    }
    assert Ids(s, ty, p) == Ids(t, ty, p);
    hide VersionOf, NextOf, SameFamilies, Ids;
    TotalSame(s, t, ty, p, Ids(s, ty, p));
  }

  lemma AppendIds(s: Store, r: Request, fingerprint: nat, version: nat, position: nat)
    requires r.Append?
    ensures Ids(s + AppendPuts(r, fingerprint, version, position), r.ty, r.partition) ==
            Ids(s, r.ty, r.partition) + {r.aggregateId}
  {
    var t := s + AppendPuts(r, fingerprint, version, position);
    var key := MetaKey(r.ty, r.partition, r.aggregateId);
    assert key in t;
    forall a ensures a in Ids(t, r.ty, r.partition) <==> a in Ids(s, r.ty, r.partition) || a == r.aggregateId {
      assert MetaKey(r.ty, r.partition, a) in t <==> MetaKey(r.ty, r.partition, a) in s || a == r.aggregateId;
    }
  }

  lemma AppendConserved(s: Store, r: Request, fingerprint: nat, version: nat, position: nat)
    requires Accepted(s, r, version, position) && Conserved(s, r.ty, r.partition)
    ensures Conserved(s + AppendPuts(r, fingerprint, version, position), r.ty, r.partition)
  {
    var t := s + AppendPuts(r, fingerprint, version, position);
    var ty, p, a := r.ty, r.partition, r.aggregateId;
    var ids := Ids(s, ty, p);
    AppendIds(s, r, fingerprint, version, position);
    AppendReads(s, r, fingerprint, version, position);
    IdsHaveVersions(s, ty, p, a);
    hide AppendPuts, VersionOf, NextOf, RecordOf, Sound, Ids;
    TotalPick(t, ty, p, ids + {a}, a);
    TotalSame(s, t, ty, p, ids - {a});
    assert (ids + {a}) - {a} == ids - {a};
    if a in ids {
      TotalPick(s, ty, p, ids, a);
    } else {
      assert ids - {a} == ids;
    }
  }

  lemma IdsHaveVersions(s: Store, ty: TypeId, p: nat, a: Text)
    ensures a !in Ids(s, ty, p) ==> VersionOf(s, ty, p, a).None?
  {
  }

  // ---------------------------------------------------------------- the broadcast

  /** What was announced for one partition, in order. */
  function Announced(sent: seq<StoredEvent>, ty: TypeId, p: nat): seq<StoredEvent> {
    if sent == [] then []
    else
      var rest := Announced(sent[..|sent| - 1], ty, p);
      var last := sent[|sent| - 1];
      if last.aggregateType == ty && last.partition == p then rest + [last] else rest
  }

  /** The announcements of a partition are its log: the event at each position, once, in position order. */
  ghost predicate SentIsLog(n: Node, ty: TypeId, p: nat) {
    && |Announced(n.sent, ty, p)| == NextOf(n.store, ty, p)
    && forall q: nat :: q < NextOf(n.store, ty, p) ==>
         Resolves(n.store, ty, p, q) && Announced(n.sent, ty, p)[q] == EventOf(n.store, ty, p, q)
  }

  lemma SentFramed(n: Node, m: Node, ty: TypeId, p: nat)
    requires SentIsLog(n, ty, p) && SameFamilies(n.store, m.store, ty, p) &&
             Announced(m.sent, ty, p) == Announced(n.sent, ty, p)
    ensures SentIsLog(m, ty, p)
  {
    SameReads(n.store, m.store, ty, p);
    hide SameFamilies, NextOf, VersionOf, RecordOf, Announced;
    forall q: nat | q < NextOf(m.store, ty, p)
      ensures Resolves(m.store, ty, p, q) && Announced(m.sent, ty, p)[q] == EventOf(m.store, ty, p, q)
    {
      assert Resolves(n.store, ty, p, q) && Announced(n.sent, ty, p)[q] == EventOf(n.store, ty, p, q);
    }
  }

  lemma AnnouncedSnoc(sent: seq<StoredEvent>, e: StoredEvent, ty: TypeId, p: nat)
    ensures Announced(sent + [e], ty, p) ==
            if e.aggregateType == ty && e.partition == p then Announced(sent, ty, p) + [e] else Announced(sent, ty, p)
  {
    assert (sent + [e])[..|sent|] == sent;
  }

  lemma AppendSent(n: Node, m: Node, r: Request, fingerprint: nat, version: nat, position: nat)
    requires Accepted(n.store, r, version, position) && SentIsLog(n, r.ty, r.partition)
    requires m.store == n.store + AppendPuts(r, fingerprint, version,
                                             position) && m.sent == n.sent + [StoredAt(r, version, position)]
    ensures SentIsLog(m, r.ty, r.partition)
  {
    var ty, p := r.ty, r.partition;
    AnnouncedSnoc(n.sent, StoredAt(r, version, position), ty, p);
    AppendReads(n.store, r, fingerprint, version, position);
    AppendSlots(n.store, r, fingerprint, version, position, m.store);
    hide AppendPuts, VersionOf, NextOf, RecordOf, Sound, Announced;
    forall q: nat | q < NextOf(m.store, ty, p)
      ensures Resolves(m.store, ty, p, q) && Announced(m.sent, ty, p)[q] == EventOf(m.store, ty, p, q)
    {
      if q != position {
        assert Resolves(n.store, ty, p, q);
        AppendKeepsResolved(n.store, r, fingerprint, version, position, m.store, q);
      }
    }
  }

  // ---------------------------------------------------------------- every run

  ghost predicate Good(n: Node) {
    AllSound(n.store) && forall ty, p :: Conserved(n.store, ty, p) && SentIsLog(n, ty, p)
  }

  /** An entry either stores one event in one partition or touches no append family at all. */
  lemma EntryShape(n: Node, hash: Catalogs.Hash, e: Entry)
    requires AllSound(n.store)
    ensures var m := ApplyEntry(n, hash, e);
            var x := Applied(m.lastApplied, m.membership);
            if e.payload.Normal? && Appends(n.store, hash, e.payload.request) then
              var r := e.payload.request;
              var version, position := NextVersion(VersionOf(n.store, r.ty, r.partition,
                                                             r.aggregateId)), NextOf(n.store, r.ty, r.partition);
              var fingerprint := Fingerprint(hash, r.ty, r.aggregateId, r.expected, r.event);
              && Accepted(n.store, r, version, position)
              && m.store == (n.store + AppendPuts(r, fingerprint, version, position))[AppliedState := x]
              && m.sent == n.sent + [StoredAt(r, version, position)]
            else
              m.sent == n.sent && forall ty, p :: SameFamilies(n.store, m.store, ty, p)
  {
    hide Sound, Decide, Appends, AppendFamily, SameFamilies, VersionOf, NextOf, RecordOf, FenceOf;
    var x := Applied(Some(e.logId), MembershipAfter(n.membership, e));
    var puts := DecideEntry(n.store, hash, e).puts;
    if e.payload.Normal? {
      DecideShape(n.store, hash, e.payload.request);
    }
    if !(e.payload.Normal? && Appends(n.store, hash, e.payload.request)) {
      assert n.sent + [] == n.sent;
      forall ty, p ensures SameFamilies(n.store, ApplyEntry(n, hash, e).store, ty, p) {
        PutsFramed(n.store, puts, x, ty, p);
      }
    }
  }

  lemma EntryGood(n: Node, hash: Catalogs.Hash, e: Entry, ty: TypeId, p: nat)
    requires Good(n)
    ensures var m := ApplyEntry(n, hash, e);
            Conserved(m.store, ty, p) && SentIsLog(m, ty, p)
  {
    EntryShape(n, hash, e);
    hide AllSound, Appends, SameFamilies, SentIsLog, Conserved, VersionOf, NextOf, RecordOf, Accepted, AppendPuts;
    hide ApplyEntry;
    var m := ApplyEntry(n, hash, e);
    if e.payload.Normal? && Appends(n.store, hash, e.payload.request) {
      AppendGood(n, m, hash, e, ty, p);
    } else {
      ConservedFramed(n.store, m.store, ty, p);
      SentFramed(n, m, ty, p);
    }
  }

  lemma AppendGood(n: Node, m: Node, hash: Catalogs.Hash, e: Entry, ty: TypeId, p: nat)
    requires Good(n) && m == ApplyEntry(n, hash, e) && e.payload.Normal? && Appends(n.store, hash, e.payload.request)
    ensures Conserved(m.store, ty, p) && SentIsLog(m, ty, p)
  {
    EntryShape(n, hash, e);
    var r := e.payload.request;
    var version, position := NextVersion(VersionOf(n.store, r.ty, r.partition, r.aggregateId)), NextOf(n.store, r.ty,
        r.partition);
    var fingerprint := Fingerprint(hash, r.ty, r.aggregateId, r.expected, r.event);
    var puts := AppendPuts(r, fingerprint, version, position);
    var x := Applied(m.lastApplied, m.membership);
    AnnouncedSnoc(n.sent, StoredAt(r, version, position), ty, p);
    hide AllSound, Appends, SameFamilies, SentIsLog, Conserved, VersionOf, NextOf, RecordOf, Accepted, AppendPuts;
    hide ApplyEntry, Announced;
    if (ty, p) == (r.ty, r.partition) {
      var mid := m.(store := n.store + puts);
      AppendConserved(n.store, r, fingerprint, version, position);
      AppendSent(n, mid, r, fingerprint, version, position);
      NothingPut(mid.store, x, ty, p);
      ConservedFramed(mid.store, m.store, ty, p);
      SentFramed(mid, m, ty, p);
    } else {
      OtherPartition(n.store, r, fingerprint, version, position, ty, p);
      PutsFramed(n.store, puts, x, ty, p);
      ConservedFramed(n.store, m.store, ty, p);
      SentFramed(n, m, ty, p);
    }
  }

  /**
   * In every node a log can reach, in every partition: the indexes agree, the next position is the number of
   * events its instances hold, and what was broadcast is the log.
   */
  lemma {:induction false} RunsKeepGood(n: Node, hash: Catalogs.Hash, entries: seq<Entry>)
    requires Good(n)
    ensures Good(ApplyEntries(n, hash, entries))
    decreases entries
  {
    hide AllSound, Conserved, SentIsLog, ApplyEntry;
    if entries != [] {
      EntrySound(n, hash, entries[0]);
      forall ty, p ensures Conserved(ApplyEntry(n, hash, entries[0]).store, ty,
                                     p) && SentIsLog(ApplyEntry(n, hash, entries[0]), ty, p) {
        EntryGood(n, hash, entries[0], ty, p);
      }
      RunsKeepGood(ApplyEntry(n, hash, entries[0]), hash, entries[1..]);
    }
  }

  lemma FreshGood()
    ensures Good(FRESH)
  {
    FreshSound();
    forall ty, p ensures Conserved(FRESH.store, ty, p) && SentIsLog(FRESH, ty, p) {
      assert Ids(FRESH.store, ty, p) == {};
    }
  }

  // ---------------------------------------------------------------- partition reads

  /** The index positions at or after `from`. */
  function Scanned(s: Store, ty: TypeId, p: nat, from: nat): set<nat> {
    set k | k in s && k.IndexKey? && k.ty == ty && k.partition == p && from <= k.position :: k.position
  }

  /** The only ascending enumeration of an interval is the interval. */
  lemma {:induction false} AscendingRun(r: seq<nat>, from: nat, next: nat)
    requires forall i, j :: 0 <= i < j < |r| ==> r[i] < r[j]
    requires forall q: nat :: q in r <==> from <= q < next
    ensures r == Run(from, next)
    decreases SatSub(next, from)
  {
    if from < next {
      assert from in r;
      var j :| 0 <= j < |r| && r[j] == from;
      assert r[0] in r;
      assert r[0] == from;
      forall q: nat ensures q in r[1..] <==> from + 1 <= q < next {
        if q in r[1..] {
          assert q in r;
        }
        if from + 1 <= q < next {
          assert q in r;
        }
      }
      AscendingRun(r[1..], from + 1, next);
      assert r == [r[0]] + r[1..];
    } else {
      HeadIsIn(r);
    }
  }

  lemma HeadIsIn(r: seq<nat>)
    ensures r != [] ==> exists q :: q in r
  {
    assert r == [] || r[0] in r;
  }

  function Run(from: nat, next: nat): seq<nat> {
    seq(SatSub(next, from), i => from + i)
  }

  lemma ScannedSound(s: Store, ty: TypeId, p: nat, from: nat)
    requires IndexExact(s, ty, p)
    ensures forall q: nat :: q in Scanned(s, ty, p, from) <==> from <= q < NextOf(s, ty, p)
  {
    hide NextOf;
    forall q: nat ensures q in Scanned(s, ty, p, from) <==> from <= q < NextOf(s, ty, p) {
      assert IndexKey(ty, p, q) in s <==> q < NextOf(s, ty, p);
    }
  }

  /** The log of a partition from a position, cut at a limit. */
  ghost predicate IsSlice(s: Store, ty: TypeId, p: nat, from: nat, limit: nat, events: seq<StoredEvent>) {
    && |events| == Kept(SatSub(NextOf(s, ty, p), from), limit)
    && forall i :: 0 <= i < |events| ==> Resolves(s, ty, p, from + i) && events[i] == EventOf(s, ty, p, from + i)
  }

  lemma ScanRun(s: Store, ty: TypeId, p: nat, from: nat, order: seq<nat>)
    requires Sound(s, ty, p) && order == Ascending(Scanned(s, ty, p, from))
    ensures order == Run(from, NextOf(s, ty, p))
    ensures forall q :: 0 <= q < NextOf(s, ty, p) ==> Resolves(s, ty, p, q)
  {
    hide Ascending, Scanned, Typed, EventsIndexed, VersionsDense, VersionsOrdered, RecordsExact, NextOf, Run;
    ScannedSound(s, ty, p, from);
    AscendingRun(order, from, NextOf(s, ty, p));
  }
}
