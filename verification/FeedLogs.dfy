/**
 * Where the feed's logs come from: the broadcast of a shard's state machine is a log the feed accepts, a replica
 * that has applied less of the raft log has broadcast a prefix of it, and a history read returns its tail.
 */
module FeedLogs {
  import opened Base
  import opened Aggregate
  import opened StateMachine
  import opened StoreInvariant
  import opened StoreReads
  import Refinement = ApplyRefinement
  import Feeds = FollowFeed
  import Chains = FeedChain
  import Catalogs = AggregateCatalog

  lemma EntryNextFits(n: Node, hash: Catalogs.Hash, e: Entry, ty: TypeId, p: nat)
    requires AllSound(n.store) && NextOf(n.store, ty, p) <= U64_MAX
    ensures NextOf(ApplyEntry(n, hash, e).store, ty, p) <= U64_MAX
  {
    EntryShape(n, hash, e);
    var m := ApplyEntry(n, hash, e);
    if e.payload.Normal? && Appends(n.store, hash, e.payload.request) {
      var r := e.payload.request;
      AppendFits(n.store, hash, r);
      hide AllSound, Accepted, ApplyEntry, Appends, Fingerprint, StoredAt;
      assert (ty, p) != (r.ty, r.partition) || NextOf(m.store, ty, p) == NextOf(n.store, ty, p) + 1;
    } else {
      hide AllSound, ApplyEntry, Appends, NextOf;
      SameReads(n.store, m.store, ty, p);
    }
  }

  /** An append is accepted only while its position has a successor. */
  lemma AppendFits(s: Store, hash: Catalogs.Hash, r: Request)
    requires Appends(s, hash, r)
    ensures NextOf(s, r.ty, r.partition) + 1 <= U64_MAX
  {
    hide VersionOf, NextOf, FenceOf, RecordOf, StoredAt, Fingerprint, TypeId.Valid;
  }

  lemma {:induction false} NextFits(n: Node, hash: Catalogs.Hash, entries: seq<Entry>, ty: TypeId, p: nat)
    requires AllSound(n.store) && NextOf(n.store, ty, p) <= U64_MAX
    ensures NextOf(ApplyEntries(n, hash, entries).store, ty, p) <= U64_MAX
    decreases entries
  {
    hide AllSound, ApplyEntry, NextOf;
    if entries != [] {
      EntrySound(n, hash, entries[0]);
      EntryNextFits(n, hash, entries[0], ty, p);
      NextFits(ApplyEntry(n, hash, entries[0]), hash, entries[1..], ty, p);
    }
  }

  /** What any log makes a fresh state machine broadcast numbers each partition's events from zero. */
  lemma BroadcastIsNumbered(hash: Catalogs.Hash, entries: seq<Entry>, ty: TypeId, p: nat)
    ensures Chains.Numbered(ApplyEntries(Refinement.FRESH, hash, entries).sent, ty, p)
  {
    var n := ApplyEntries(Refinement.FRESH, hash, entries);
    FreshGood();
    RunsKeepGood(Refinement.FRESH, hash, entries);
    NextFits(Refinement.FRESH, hash, entries, ty, p);
    hide ApplyEntries, NextOf, Announced, Conserved;
    assert SentIsLog(n, ty, p) && Sound(n.store, ty, p);
    LogPositions(n, ty, p);
  }

  lemma LogPositions(n: Node, ty: TypeId, p: nat)
    requires SentIsLog(n, ty, p) && Sound(n.store, ty, p) && NextOf(n.store, ty, p) <= U64_MAX
    ensures Chains.Numbered(n.sent, ty, p)
  {
    hide NextOf, Announced, Typed, VersionsDense, VersionsOrdered, RecordsExact, VersionOf, RecordOf;
    forall q: nat | q < |Announced(n.sent, ty, p)|
      ensures Announced(n.sent, ty, p)[q].position == q && Announced(n.sent, ty, p)[q].partition == p
    {
      assert Announced(n.sent, ty, p)[q] == EventOf(n.store, ty, p, q);
    }
  }

  /** A replica further along the raft log has broadcast everything a replica behind it has, and then more. */
  lemma {:induction false} BroadcastGrows(n: Node, hash: Catalogs.Hash, entries: seq<Entry>)
    ensures n.sent <= ApplyEntries(n, hash, entries).sent
    decreases entries
  {
    hide DecideEntry;
    if entries != [] {
      BroadcastGrows(ApplyEntry(n, hash, entries[0]), hash, entries[1..]);
    }
  }

  /** A partition read without a limit is the history the feed reads. */
  lemma HistoryIsRead(n: Node, w: Feeds.World, s: nat, p: nat, start: nat, events: seq<StoredEvent>)
    requires s < |w.logs| && n.sent <= w.logs[s]
    requires SentIsLog(n, w.ty, p) && IsSlice(n.store, w.ty, p, start, 0, events)
    ensures events == Feeds.History(w, s, |n.sent|, p, start)
  {
    hide NextOf, Announced;
    assert w.logs[s][..|n.sent|] == n.sent;
    var known := Announced(n.sent, w.ty, p);
    if start <= |known| {
      forall i | 0 <= i < |events| ensures events[i] == known[start + i] {
      }
      assert events == known[start..];
    } else {
      assert events == [];
    }
  }
}
