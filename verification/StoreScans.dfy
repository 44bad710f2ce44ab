/**
 * Reads of the store as they run: over the ordered byte tree, by range. The tree may hold other shards' keys too; what
 * a range scan meets is exactly the part of the store it is meant for.
 */
module StoreScans {
  import opened Base
  import opened Lexicographic
  import opened Aggregate
  import opened Keys
  import opened RangeScan
  import opened StateMachine
  import opened StoreKeys
  import opened StoreInvariant
  import opened StoreReads

  /** A tree as its reader sees it: keys in bytes, values decoded. */
  type Tree = map<Bytes, Value>

  /** The tree carries a shard's store: each key's bytes, and nothing else under the shard's region. */
  ghost predicate Carries(tree: Tree, shard: nat, s: Store) {
    && (forall k :: k in s ==> Encode(shard, k) in tree && tree[Encode(shard, k)] == s[k])
    && (forall b :: b in tree && RegionPrefix(TAG_SM, shard) <= b ==> exists k :: k in s && Encode(shard, k) == b)
  }

  /** A key of the tree in a scan of one family is a key of the store. */
  lemma ScannedIsStored(tree: Tree, shard: nat, s: Store, sub: byte, ty: TypeId, p: nat, low: Bytes, b: Bytes)
    requires Carries(tree, shard, s) && b in tree
    requires AtMost(FamilyPrefix(shard, sub, ty, p), low) &&
             InRange(low, SuccessorOf(FamilyPrefix(shard, sub, ty, p)), b)
    ensures exists k :: k in s && Encode(shard, k) == b
  {
    var prefix := FamilyPrefix(shard, sub, ty, p);
    FamilyInRegion(shard, sub, ty, p);
    hide FamilyPrefix, SuccessorOf, Less, Encode, RegionPrefix;
    if Less(b, prefix) {
      LessAtMost(b, prefix, low);
    }
    PrefixIsRange(prefix, b);
  }

  // ---------------------------------------------------------------- the partition index

  function IndexKeys(shard: nat, ty: TypeId, p: nat, positions: seq<nat>): (r: seq<Bytes>)
    ensures |r| == |positions|
  {
    seq(|positions|, i requires 0 <= i < |positions| => Encode(shard, IndexKey(ty, p, positions[i])))
  }

  lemma IndexMember(tree: Tree, shard: nat, s: Store, ty: TypeId, p: nat, from: nat, b: Bytes)
    requires Carries(tree, shard, s) && ValidKeys(s) && shard <= U64_MAX && ty.Valid() && p <= U16_MAX
    requires from <= U64_MAX
    ensures b in tree && InRange(Encode(shard, IndexKey(ty, p, from)), SuccessorOf(FamilyPrefix(shard, 0x0C, ty, p)),
                                 b) <==>
            exists q :: q in Scanned(s, ty, p, from) && Encode(shard, IndexKey(ty, p, q)) == b
  {
    var low, high := Encode(shard, IndexKey(ty, p, from)), SuccessorOf(FamilyPrefix(shard, 0x0C, ty, p));
    hide SuccessorOf, Less, TypeId.Valid, InRange, AtMost;
    if b in tree && InRange(low, high, b) {
      IndexStart(shard, ty, p, from);
      ScannedIsStored(tree, shard, s, 0x0C, ty, p, low, b);
      hide Encode, FamilyPrefix, Key.Valid;
      var k :| k in s && Encode(shard, k) == b;
      IndexScanFrom(shard, ty, p, from, shard, k);
      assert k.position in Scanned(s, ty, p, from);
    }
    if exists q :: q in Scanned(s, ty, p, from) && Encode(shard, IndexKey(ty, p, q)) == b {
      hide Encode, FamilyPrefix, Key.Valid;
      var q :| q in Scanned(s, ty, p, from) && Encode(shard, IndexKey(ty, p, q)) == b;
      assert IndexKey(ty, p, q) in s;
      IndexScanFrom(shard, ty, p, from, shard, IndexKey(ty, p, q));
    }
  }

  lemma IndexStart(shard: nat, ty: TypeId, p: nat, from: nat)
    ensures AtMost(FamilyPrefix(shard, 0x0C, ty, p), Encode(shard, IndexKey(ty, p, from)))
  {
    FamilyKey(shard, IndexKey(ty, p, from));
    hide FamilyPrefix, Encode, Less;
    LessIrreflexive(FamilyPrefix(shard, 0x0C, ty, p) + BE(from, 8));
    PrefixBelow(FamilyPrefix(shard, 0x0C, ty, p), BE(from, 8), FamilyPrefix(shard, 0x0C, ty, p) + BE(from, 8));
  }

  lemma IndexRising(shard: nat, s: Store, ty: TypeId, p: nat, from: nat)
    requires ValidKeys(s)
    ensures Rising(IndexKeys(shard, ty, p, Ascending(Scanned(s, ty, p, from))))
  {
    hide Encode, Less, Ascending;
    var order := Ascending(Scanned(s, ty, p, from));
    forall i, j | 0 <= i < j < |order| ensures Less(IndexKeys(shard, ty, p, order)[i],
                                                    IndexKeys(shard, ty, p, order)[j]) {
      assert order[i] in order && order[j] in order;
      assert IndexKey(ty, p, order[i]) in s && IndexKey(ty, p, order[j]) in s;
      IndexKeysByPosition(shard, ty, p, order[i], order[j]);
    }
  }

  lemma IndexKeysMember(shard: nat, ty: TypeId, p: nat, order: seq<nat>, b: Bytes)
    ensures b in IndexKeys(shard, ty, p, order) <==> exists q :: q in order && Encode(shard, IndexKey(ty, p, q)) == b
  {
    hide Encode;
    var keys := IndexKeys(shard, ty, p, order);
    if b in keys {
      var i :| 0 <= i < |keys| && keys[i] == b;
      assert order[i] in order;
    }
    if q :| q in order && Encode(shard, IndexKey(ty, p, q)) == b {
      var i :| 0 <= i < |order| && order[i] == q;
      assert keys[i] == b;
    }
  }

  lemma IndexListed(tree: Tree, shard: nat, s: Store, ty: TypeId, p: nat, from: nat, b: Bytes)
    requires Carries(tree, shard, s) && ValidKeys(s) && shard <= U64_MAX && ty.Valid() && p <= U16_MAX
    requires from <= U64_MAX
    requires SuccessorOf(FamilyPrefix(shard, 0x0C, ty, p)).Some?
    ensures b in IndexKeys(shard, ty, p, Ascending(Scanned(s, ty, p, from))) <==>
            b in Between(tree, Encode(shard, IndexKey(ty, p, from)),
                         SuccessorOf(FamilyPrefix(shard, 0x0C, ty, p)).value)
  {
    hide SuccessorOf, Less, TypeId.Valid, Encode, FamilyPrefix, Ascending, Scanned, Carries, ValidKeys, IndexKeys;
    IndexMember(tree, shard, s, ty, p, from, b);
    IndexKeysMember(shard, ty, p, Ascending(Scanned(s, ty, p, from)), b);
  }

  /** The byte range the read opens is the partition's index from that position, walked by position. */
  lemma IndexWalk(tree: Tree, shard: nat, s: Store, ty: TypeId, p: nat, from: nat)
    requires Carries(tree, shard, s) && ValidKeys(s) && shard <= U64_MAX && ty.Valid() && p <= U16_MAX
    requires from <= U64_MAX
    ensures SuccessorOf(FamilyPrefix(shard, 0x0C, ty, p)).Some?
    ensures Sorted(Between(tree, Encode(shard, IndexKey(ty, p, from)),
                           SuccessorOf(FamilyPrefix(shard, 0x0C, ty, p)).value))
            == IndexKeys(shard, ty, p, Ascending(Scanned(s, ty, p, from)))
  {
    FamilyInRegion(shard, 0x0C, ty, p);
    var low, high := Encode(shard, IndexKey(ty, p, from)), SuccessorOf(FamilyPrefix(shard, 0x0C, ty, p));
    hide SuccessorOf, Less, TypeId.Valid, Encode, FamilyPrefix, Ascending, Scanned, Carries, ValidKeys, Sorted, Rising;
    var order := Ascending(Scanned(s, ty, p, from));
    var keys := IndexKeys(shard, ty, p, order);
    IndexRising(shard, s, ty, p, from);
    hide IndexKeys, Between;
    forall b ensures b in keys <==> b in Between(tree, low, high.value) {
      IndexListed(tree, shard, s, ty, p, from, b);
    }
    RisingIsSorted(keys, Between(tree, low, high.value));
  }

  /** The event an index entry leads to. */
  function Follow(tree: Tree, shard: nat, ty: TypeId, p: nat, pointer: Value): Option<StoredEvent> {
    if !pointer.Pointer? then None
    else
      var key := Encode(shard, EventKey(ty, p, pointer.aggregateId, pointer.version));
      if key in tree && tree[key].EventValue? then Some(tree[key].event) else None
  }

  lemma FollowsStored(tree: Tree, shard: nat, s: Store, ty: TypeId, p: nat, q: nat)
    requires Carries(tree, shard, s) && Resolves(s, ty, p, q)
    ensures IndexKey(ty, p, q) in s && Follow(tree, shard, ty, p, s[IndexKey(ty, p, q)]) == Some(EventOf(s, ty, p, q))
  {
    hide Encode;
  }

  /** Follows every index entry to its event; the first one that leads nowhere is an error. */
  method FollowAll(tree: Tree, shard: nat, ty: TypeId, p: nat,
                   pointers: seq<Value>) returns (r: Option<seq<StoredEvent>>)
    ensures r.Some? <==> forall i :: 0 <= i < |pointers| ==> Follow(tree, shard, ty, p, pointers[i]).Some?
    ensures r.Some? ==> |r.value| == |pointers| && forall i :: 0 <= i < |pointers| ==>
            Follow(tree, shard, ty, p, pointers[i]) == Some(r.value[i])
  {
    hide Follow;
    var events := [];
    for i := 0 to |pointers|
      invariant |events| == i
      invariant forall j :: 0 <= j < i ==> Follow(tree, shard, ty, p, pointers[j]) == Some(events[j])
    {
      var event := Follow(tree, shard, ty, p, pointers[i]);
      if event.None? {
        return None;
      }
      events := events + [event.value];
    }
    return Some(events);
  }

  /** The values the scan yields are the index entries from the position on. */
  ghost predicate IsIndexPage(s: Store, ty: TypeId, p: nat, from: nat, limit: nat, pointers: seq<Value>) {
    var order := Ascending(Scanned(s, ty, p, from));
    && |pointers| == Kept(|order|, limit)
    && forall i :: 0 <= i < |pointers| ==> IndexKey(ty, p, order[i]) in s && pointers[i] == s[IndexKey(ty, p, order[i])]
  }

  lemma PageOfIndex(tree: Tree, shard: nat, s: Store, ty: TypeId, p: nat, from: nat, limit: nat, pointers: seq<Value>)
    requires Carries(tree, shard, s)
    requires var keys := IndexKeys(shard, ty, p, Ascending(Scanned(s, ty, p, from)));
             |pointers| == Kept(|keys|, limit) && forall i :: 0 <= i < |pointers| ==> keys[i] in tree && pointers[i] == tree[keys[i]]
    ensures IsIndexPage(s, ty, p, from, limit, pointers)
  {
    hide Encode, Ascending;
    var order := Ascending(Scanned(s, ty, p, from));
    forall i | 0 <= i < |pointers| ensures IndexKey(ty, p, order[i]) in s && pointers[i] == s[IndexKey(ty, p,
        order[i])] {
      assert order[i] in order;
      assert IndexKeys(shard, ty, p, order)[i] == Encode(shard, IndexKey(ty, p, order[i]));
    }
  }

  lemma OrderAt(s: Store, ty: TypeId, p: nat, from: nat, i: nat)
    requires Sound(s, ty, p) && i < |Ascending(Scanned(s, ty, p, from))|
    ensures Ascending(Scanned(s, ty, p, from))[i] == from + i && Resolves(s, ty, p, from + i)
  {
    hide Ascending, Scanned, Sound, NextOf, Resolves;
    ScanRun(s, ty, p, from, Ascending(Scanned(s, ty, p, from)));
  }

  lemma PageAt(s: Store, ty: TypeId, p: nat, from: nat, limit: nat, pointers: seq<Value>, i: nat)
    requires IsIndexPage(s, ty, p, from, limit, pointers) && i < |pointers|
    ensures i < |Ascending(Scanned(s, ty, p, from))|
    ensures var q := Ascending(Scanned(s, ty, p, from))[i];
            IndexKey(ty, p, q) in s && pointers[i] == s[IndexKey(ty, p, q)]
  {
    hide Ascending, Scanned;
  }

  lemma PageEntry(tree: Tree, shard: nat, s: Store, ty: TypeId, p: nat, from: nat, limit: nat, pointers: seq<Value>,
                  i: nat)
    requires Carries(tree, shard, s) && Sound(s, ty, p) && IsIndexPage(s, ty, p, from, limit, pointers) &&
             i < |pointers|
    ensures Resolves(s, ty, p, from + i) && Follow(tree, shard, ty, p, pointers[i]) == Some(EventOf(s, ty, p, from + i))
  {
    hide Ascending, Scanned, Sound, Resolves, Carries, Follow, EventOf, IsIndexPage;
    PageAt(s, ty, p, from, limit, pointers, i);
    OrderAt(s, ty, p, from, i);
    FollowsStored(tree, shard, s, ty, p, from + i);
  }

  lemma PageLength(s: Store, ty: TypeId, p: nat, from: nat, limit: nat, pointers: seq<Value>)
    requires Sound(s, ty, p) && IsIndexPage(s, ty, p, from, limit, pointers)
    ensures |pointers| == Kept(SatSub(NextOf(s, ty, p), from), limit)
  {
    hide Ascending, Scanned, Sound, NextOf, Resolves, Kept;
    ScanRun(s, ty, p, from, Ascending(Scanned(s, ty, p, from)));
    assert |Ascending(Scanned(s, ty, p, from))| == SatSub(NextOf(s, ty, p), from);
  }

  lemma PageIsSlice(tree: Tree, shard: nat, s: Store, ty: TypeId, p: nat, from: nat, limit: nat, pointers: seq<Value>,
                    r: Option<seq<StoredEvent>>)
    requires Carries(tree, shard, s) && Sound(s, ty, p) && IsIndexPage(s, ty, p, from, limit, pointers)
    requires r.Some? <==> forall i :: 0 <= i < |pointers| ==> Follow(tree, shard, ty, p, pointers[i]).Some?
    requires r.Some? ==> |r.value| == |pointers| && forall i :: 0 <= i < |pointers| ==>
            Follow(tree, shard, ty, p, pointers[i]) == Some(r.value[i])
    ensures r.Some? && IsSlice(s, ty, p, from, limit, r.value)
  {
    hide Sound, NextOf, Resolves, Carries, Follow, IsIndexPage, Kept;
    PageLength(s, ty, p, from, limit, pointers);
    forall i | 0 <= i < |pointers|
      ensures Resolves(s, ty, p, from + i) &&
              Follow(tree, shard, ty, p, pointers[i]) == Some(EventOf(s, ty, p, from + i))
    {
      PageEntry(tree, shard, s, ty, p, from, limit, pointers, i);
    }
    assert r.Some?;
    forall i | 0 <= i < |r.value| ensures Resolves(s, ty, p, from + i) && r.value[i] == EventOf(s, ty, p, from + i) {
      assert Follow(tree, shard, ty, p, pointers[i]) == Some(r.value[i]);
    }
    assert |r.value| == Kept(SatSub(NextOf(s, ty, p), from), limit);
  }

  lemma PageIsStuck(tree: Tree, shard: nat, s: Store, ty: TypeId, p: nat, from: nat, limit: nat, pointers: seq<Value>)
    requires Carries(tree, shard, s) && IsIndexPage(s, ty, p, from, limit, pointers)
    requires exists i :: 0 <= i < |pointers| && Follow(tree, shard, ty, p, pointers[i]).None?
    ensures exists q :: from <= q && IndexKey(ty, p, q) in s && !Resolves(s, ty, p, q)
  {
    var order := Ascending(Scanned(s, ty, p, from));
    hide Ascending, Resolves, Follow;
    var i :| 0 <= i < |pointers| && Follow(tree, shard, ty, p, pointers[i]).None?;
    assert order[i] in order;
    assert order[i] in Scanned(s, ty, p, from);
    if Resolves(s, ty, p, order[i]) {
      FollowsStored(tree, shard, s, ty, p, order[i]);
    }
  }

  /**
   * Reads a partition from a position. `None` is the storage error for an index entry without an event: in a
   * sound partition it never happens, and the answer is the log from `from`, cut at the limit.
   */
  method ReadPartitionEvents(tree: Tree, shard: nat, ty: TypeId, p: nat, from: nat, limit: nat,
                             ghost s: Store) returns (r: Option<seq<StoredEvent>>)
    requires Carries(tree, shard, s) && ValidKeys(s) && shard <= U64_MAX && ty.Valid() && p <= U16_MAX
    requires from <= U64_MAX
    ensures Sound(s, ty, p) ==> r.Some? && IsSlice(s, ty, p, from, limit, r.value)
    ensures r.None? ==> exists q :: from <= q && IndexKey(ty, p, q) in s && !Resolves(s, ty, p, q)
  {
    hide Encode, SuccessorOf, FamilyPrefix, Ascending, Scanned, Sound, Resolves, IsSlice, Carries, ValidKeys;
    hide Between, Sorted, IsIndexPage, Follow, TypeId.Valid;
    IndexWalk(tree, shard, s, ty, p, from);
    var low, high := Encode(shard, IndexKey(ty, p, from)), SuccessorOf(FamilyPrefix(shard, 0x0C, ty, p)).value;
    var pointers := ScanValues(tree, low, high, false, limit);
    PageOfIndex(tree, shard, s, ty, p, from, limit, pointers);
    r := FollowAll(tree, shard, ty, p, pointers);
    if Sound(s, ty, p) {
      PageIsSlice(tree, shard, s, ty, p, from, limit, pointers, r);
    } else if r.None? {
      PageIsStuck(tree, shard, s, ty, p, from, limit, pointers);
    }
  }
}
