/**
 * Where stored events come from: an append that stored an event is what every later read and announcement of its
 * position shows, and every stored event comes from exactly one such append.
 */
module EventOrigins {
  import opened Aggregate
  import opened StateMachine
  import opened ApplyRefinement
  import opened StoreInvariant
  import opened StoreReads
  import opened StoreHistory
  import Catalogs = AggregateCatalog

  /** The node after the first `k` entries of a log. */
  function NodeAt(hash: Catalogs.Hash, entries: seq<Entry>, k: nat): Node
    requires k <= |entries|
  {
    ApplyEntries(FRESH, hash, entries[..k])
  }

  /** An append after which one more event has been announced than before. */
  predicate Stored(hash: Catalogs.Hash, entries: seq<Entry>, i: nat) {
    && i < |entries| && entries[i].payload.Normal? && entries[i].payload.request.Append?
    && |NodeAt(hash, entries, i).sent| < |NodeAt(hash, entries, i + 1).sent|
  }

  /** The appends of a partition that the first `k` entries stored. */
  function Of(entries: seq<Entry>, k: nat, ty: TypeId, p: nat): seq<Request>
    requires k <= |entries|
  {
    Appended(History(entries[..k]), ty, p)
  }

  lemma NextNode(hash: Catalogs.Hash, entries: seq<Entry>, i: nat)
    requires i < |entries|
    ensures NodeAt(hash, entries, i + 1) == ApplyEntry(NodeAt(hash, entries, i), hash, entries[i])
    ensures History(entries[..i + 1]) == After(History(entries[..i]), entries[i])
  {
    hide ApplyEntry, After;
    assert entries[..i + 1] == entries[..i] + [entries[i]];
    assert entries[..i + 1][..|entries[..i + 1]| - 1] == entries[..i];
    ApplySnoc(FRESH, hash, entries[..i], entries[i]);
  }

  /** An append stores an event exactly when the history allows it. */
  lemma StoredIsAllowed(hash: Catalogs.Hash, entries: seq<Entry>, i: nat)
    requires i < |entries| && entries[i].payload.Normal? && entries[i].payload.request.Append?
    ensures Stored(hash, entries, i) <==> Allowed(History(entries[..i]), entries[i].payload.request)
  {
    hide Reflects, Allowed, ApplyEntry, Appends, AllSound, ApplyEntries;
    var n, r := NodeAt(hash, entries, i), entries[i].payload.request;
    LogReflects(hash, entries[..i]);
    NextNode(hash, entries, i);
    AppendTold(n, hash, History(entries[..i]), r);
    GoodSound(n, hash, History(entries[..i]), r.ty, r.partition);
    EntryShape(n, hash, entries[i]);
    hide AppendPuts, Accepted, SameFamilies, VersionOf, NextOf, StoredAt;
  }

  /** One entry adds at most one append to a partition, at the end: the one it stored. */
  lemma OfNext(hash: Catalogs.Hash, entries: seq<Entry>, i: nat, ty: TypeId, p: nat)
    requires i < |entries|
    ensures var r := entries[i].payload;
            Of(entries, i + 1, ty, p) ==
            if Stored(hash, entries, i) && r.request.ty == ty && r.request.partition == p
            then Of(entries, i, ty, p) + [r.request] else Of(entries, i, ty, p)
  {
    NextNode(hash, entries, i);
    if entries[i].payload.Normal? {
      ReadSnoc(History(entries[..i]), entries[i].payload.request, ty, p, []);
      if entries[i].payload.request.Append? { StoredIsAllowed(hash, entries, i); }
    }
    hide Appended, Allowed, NodeAt, History;
  }

  lemma {:induction false} OfGrows(hash: Catalogs.Hash, entries: seq<Entry>, i: nat, k: nat, ty: TypeId, p: nat)
    requires i <= k <= |entries|
    ensures Of(entries, i, ty, p) <= Of(entries, k, ty, p)
    decreases k - i
  {
    hide Stored, Of;
    if i < k {
      OfNext(hash, entries, i, ty, p);
      OfGrows(hash, entries, i + 1, k, ty, p);
    }
  }

  /**
   * What was stored stays stored. An append that stored an event was answered with a position and a version; in every
   * later node the event at that position, in the store and among what was announced, carries the request's type,
   * partition, instance, event id, event type, data, metadata and clock, with that version and that position.
   */
  lemma StoredForGood(hash: Catalogs.Hash, entries: seq<Entry>, i: nat, k: nat)
    requires i < k <= |entries| && Stored(hash, entries, i)
    ensures var r, n := entries[i].payload.request, NodeAt(hash, entries, k);
            && i < |Responses(FRESH, hash, entries[..i + 1])|
            && var answer := Responses(FRESH, hash, entries[..i + 1])[i];
               && answer.AppendOk?
               && answer.position < |Announced(n.sent, r.ty, r.partition)|
               && Resolves(n.store, r.ty, r.partition, answer.position)
               && Carries(EventOf(n.store, r.ty, r.partition, answer.position), r, answer.version, answer.position)
               && Carries(Announced(n.sent, r.ty, r.partition)[answer.position], r, answer.version, answer.position)
  {
    var r := entries[i].payload.request;
    StoredAnswer(hash, entries, i);
    KeptRequest(hash, entries, i, k);
    hide Stored, Responses, Reflects, History, NodeAt, Of;
    LogReflects(hash, entries[..k]);
    NodeIs(hash, entries, k);
    ShownAt(NodeAt(hash, entries, k), hash, History(entries[..k]), r.ty, r.partition,
            Responses(FRESH, hash, entries[..i + 1])[i].position);
  }

  lemma NodeIs(hash: Catalogs.Hash, entries: seq<Entry>, k: nat)
    requires k <= |entries|
    ensures NodeAt(hash, entries, k) == ApplyEntries(FRESH, hash, entries[..k])
    ensures forall ty, p :: Of(entries, k, ty, p) == Appended(History(entries[..k]), ty, p)
  {
    hide ApplyEntries, Appended, History;
  }

  /** A stored append is answered with the place it takes among the appends of its partition. */
  lemma StoredAnswer(hash: Catalogs.Hash, entries: seq<Entry>, i: nat)
    requires Stored(hash, entries, i)
    ensures var r := entries[i].payload.request;
            var before := Of(entries, i, r.ty, r.partition);
            && i < |Responses(FRESH, hash, entries[..i + 1])|
            && Responses(FRESH, hash, entries[..i + 1])[i] == AppendOk(Count(before, r.aggregateId), |before|)
  {
    hide Responses, Reflects, History, Allowed, Told, Appended, Count, NodeAt;
    assert entries[..i + 1] == entries[..i] + [entries[i]];
    StoreIsHistory(hash, entries[..i], entries[i]);
    StoredIsAllowed(hash, entries, i);
    AllowedTold(History(entries[..i]), hash, entries[i].payload.request);
  }

  /** And there it stays. */
  lemma KeptRequest(hash: Catalogs.Hash, entries: seq<Entry>, i: nat, k: nat)
    requires i < k <= |entries| && Stored(hash, entries, i)
    ensures var r := entries[i].payload.request;
            var before, more := Of(entries, i, r.ty, r.partition), Of(entries, k, r.ty, r.partition);
            |before| < |more| && more[|before|] == r && VersionAt(more, |before|) == Count(before, r.aggregateId)
  {
    var r := entries[i].payload.request;
    OfNext(hash, entries, i, r.ty, r.partition);
    OfGrows(hash, entries, i + 1, k, r.ty, r.partition);
    hide Of, NodeAt, Count;
    var before, more := Of(entries, i, r.ty, r.partition), Of(entries, k, r.ty, r.partition);
    assert (before + [r])[|before|] == r;
    assert more[..|before|] == before;
  }

  lemma AllowedTold(h: seq<Request>, hash: Catalogs.Hash, r: Request)
    requires r.Append? && Allowed(h, r)
    ensures Told(h, hash, r) == AppendOk(Count(Appended(h, r.ty, r.partition), r.aggregateId),
                                         |Appended(h, r.ty, r.partition)|)
  {
    hide Appended, Count, UsedAt, Generation, Expects, Proper;
  }

  /** What a node shows of a position is the append at that position. */
  lemma ShownAt(n: Node, hash: Catalogs.Hash, h: seq<Request>, ty: TypeId, p: nat, q: nat)
    requires Reflects(n, hash, h) && q < |Appended(h, ty, p)|
    ensures NextOf(n.store, ty, p) == |Announced(n.sent, ty, p)| == |Appended(h, ty, p)|
    ensures Resolves(n.store, ty, p, q) && EventOf(n.store, ty, p, q) == Announced(n.sent, ty, p)[q]
    ensures Carries(Announced(n.sent, ty, p)[q], Appended(h, ty, p)[q], VersionAt(Appended(h, ty, p), q), q)
  {
    ReadsAre(n, hash, h, ty, p);
    GoodSent(n, hash, h, ty, p);
    hide Reflects, NextOf, Announced, Appended, Carries, StatesReflect, VersionOf, RecordOf;
  }

  lemma GoodSent(n: Node, hash: Catalogs.Hash, h: seq<Request>, ty: TypeId, p: nat)
    requires Reflects(n, hash, h)
    ensures SentIsLog(n, ty, p)
  {
    hide AllSound, Conserved, SentIsLog, EventsReflect, StatesReflect;
    assert Conserved(n.store, ty, p) && SentIsLog(n, ty, p);
  }

  /** The entry that stored what is at a position. */
  ghost predicate Origin(hash: Catalogs.Hash, entries: seq<Entry>, i: nat, ty: TypeId, p: nat, q: nat) {
    && Stored(hash, entries, i)
    && entries[i].payload.request.ty == ty && entries[i].payload.request.partition == p
    && |Of(entries, i, ty, p)| == q
  }

  lemma {:induction false} OriginExists(hash: Catalogs.Hash, entries: seq<Entry>, k: nat, ty: TypeId, p: nat, q: nat)
      returns (i: nat)
    requires k <= |entries| && q < |Of(entries, k, ty, p)|
    ensures i < k && Origin(hash, entries, i, ty, p, q)
    decreases k
  {
    hide Stored, Appended, History;
    if k == 0 {
      EmptyOf(entries, ty, p);
      assert false;
    } else {
      OfNext(hash, entries, k - 1, ty, p);
      if q < |Of(entries, k - 1, ty, p)| {
        i := OriginExists(hash, entries, k - 1, ty, p, q);
      } else {
        i := k - 1;
      }
    }
  }

  lemma EmptyOf(entries: seq<Entry>, ty: TypeId, p: nat)
    ensures Of(entries, 0, ty, p) == []
  {
    assert entries[..0] == [];
  }

  lemma OriginUnique(hash: Catalogs.Hash, entries: seq<Entry>, i: nat, j: nat, ty: TypeId, p: nat, q: nat)
    requires i < j && Origin(hash, entries, i, ty, p, q)
    ensures !Origin(hash, entries, j, ty, p, q)
  {
    hide Appended, History, NodeAt;
    if j < |entries| {
      OfNext(hash, entries, i, ty, p);
      OfGrows(hash, entries, i + 1, j, ty, p);
    }
  }

  /**
   * Nothing else is stored. Every position below the next one of a partition was filled by exactly one entry of the
   * log, an append to that partition, and the event there carries what that append asked for.
   */
  lemma StoredByOne(hash: Catalogs.Hash, entries: seq<Entry>, k: nat, ty: TypeId, p: nat, q: nat) returns (i: nat)
    requires k <= |entries| && q < NextOf(NodeAt(hash, entries, k).store, ty, p)
    ensures i < k && Origin(hash, entries, i, ty, p, q)
    ensures forall j: nat :: Origin(hash, entries, j, ty, p, q) ==> j == i
    ensures var n := NodeAt(hash, entries, k);
            && Resolves(n.store, ty, p, q)
            && q < |Of(entries, k, ty, p)| && Of(entries, k, ty, p)[q] == entries[i].payload.request
            && Carries(EventOf(n.store, ty, p, q), entries[i].payload.request,
                       VersionAt(Of(entries, k, ty, p), q), q)
  {
    hide Origin, Reflects, Appended, History, NextOf;
    LogReflects(hash, entries[..k]);
    ReadsAre(NodeAt(hash, entries, k), hash, History(entries[..k]), ty, p);
    i := OriginExists(hash, entries, k, ty, p, q);
    forall j: nat | j != i ensures !Origin(hash, entries, j, ty, p, q) {
      if i < j { OriginUnique(hash, entries, i, j, ty, p, q); }
      if j < i && Origin(hash, entries, j, ty, p, q) { OriginUnique(hash, entries, j, i, ty, p, q); }
    }
    ShownAt(NodeAt(hash, entries, k), hash, History(entries[..k]), ty, p, q);
    OriginIs(hash, entries, i, k, ty, p, q);
  }

  lemma OriginIs(hash: Catalogs.Hash, entries: seq<Entry>, i: nat, k: nat, ty: TypeId, p: nat, q: nat)
    requires i < k <= |entries| && Origin(hash, entries, i, ty, p, q)
    ensures q < |Of(entries, k, ty, p)| && Of(entries, k, ty, p)[q] == entries[i].payload.request
  {
    hide Appended, History, NodeAt;
    OfNext(hash, entries, i, ty, p);
    OfGrows(hash, entries, i + 1, k, ty, p);
  }
}
