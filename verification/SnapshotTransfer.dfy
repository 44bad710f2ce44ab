/**
 * A shard replica with its bytes: the tree on disk and the state machine that reads it. One replica takes a snapshot,
 * another installs it and applies the rest of the log, and the two regions come out equal.
 */
module SnapshotTransfer {
  import opened Base
  import opened Keys
  import opened RangeScan
  import opened StateMachine
  import opened StoreKeys
  import opened ApplyBatch
  import opened ApplyRefinement
  import opened BatchedApply
  import Stream = SnapshotStream
  import opened SnapshotInstall
  import Catalogs = AggregateCatalog

  /** Reading a region back gives the store it holds. */
  ghost predicate Decodes(shard: nat, encode: Codec, decode: Tree -> Store) {
    forall region, store :: ValidKeys(store) && Holds(region, shard, store, encode) ==> decode(region) == store
  }

  ghost predicate OneToOne(encode: Codec) {
    forall x, y :: encode(x) == encode(y) ==> x == y
  }

  /** A region holds one store when no two values share their bytes, so there is something to decode it to. */
  lemma HeldStoreUnique(region: Tree, shard: nat, s: Store, t: Store, encode: Codec)
    requires shard <= U64_MAX && OneToOne(encode) && ValidKeys(s) && ValidKeys(t)
    requires Holds(region, shard, s, encode) && Holds(region, shard, t, encode)
    ensures s == t
  {
    HeldWithin(region, shard, s, t, encode);
    HeldWithin(region, shard, t, s, encode);
    hide Holds, ValidKeys, OneToOne;
  }

  lemma HeldWithin(region: Tree, shard: nat, s: Store, t: Store, encode: Codec)
    requires shard <= U64_MAX && OneToOne(encode) && ValidKeys(s) && ValidKeys(t)
    requires Holds(region, shard, s, encode) && Holds(region, shard, t, encode)
    ensures forall k :: k in s ==> k in t && s[k] == t[k]
  {
    hide Encode, Key.Valid;
    forall k | k in s ensures k in t && s[k] == t[k] {
      var b := Encode(shard, k);
      assert b in region;
      var j :| j in t && Encode(shard, j) == b;
      EncodeInjective(shard, k, shard, j);
      assert encode(s[k]) == encode(t[k]);
    }
  }

  /** Keys and values the snapshot reader accepts. */
  ghost predicate Fits(region: Tree) {
    forall k :: k in region ==> |k| <= Stream.MAX_RECORD_LEN && |region[k]| <= Stream.MAX_RECORD_LEN
  }

  /** Counts and lengths a 64-bit machine can have in memory. */
  ghost predicate Addressable(region: Tree) {
    |region.Keys| <= U64_MAX && forall k :: k in region ==> |k| <= U64_MAX && |region[k]| <= U64_MAX
  }

  ghost predicate IsSnapshotOf(stream: Bytes, length: nat, region: Tree) {
    exists records :: Enumerates(records, region) && stream == Stream.Payload(records) && length == Stream.PayloadLen(records)
  }

  lemma RegionFits(records: seq<Stream.Record>, region: Tree)
    requires Enumerates(records, region)
    ensures Addressable(region) ==> Stream.AllWords(records)
    ensures Stream.AllReadable(records) <==> Fits(region)
  {
    hide Sorted;
    assert |records| == |KeysOf(records)|;
    if Stream.AllReadable(records) {
      forall k | k in region ensures |k| <= Stream.MAX_RECORD_LEN && |region[k]| <= Stream.MAX_RECORD_LEN {
        EnumeratesAll(records, region, k);
        var i :| 0 <= i < |records| && records[i].key == k;
        assert Stream.Readable(records[i]);
      }
    }
  }

  /** What a reader gets out of a snapshot. */
  lemma SnapshotRead(records: seq<Stream.Record>, region: Tree)
    requires Enumerates(records, region) && Addressable(region)
    ensures var stream := Stream.Payload(records);
            var read := Stream.Parse(stream);
            && (read.Some? <==> Fits(region))
            && (read.Some? ==> read.value.records == records && |stream| - |read.value.rest| == Stream.PayloadLen(records))
  {
    hide Stream.Parse, Stream.Payload, Stream.PayloadLen, Fits, Addressable, Enumerates;
    RegionFits(records, region);
    Stream.WrittenIsRead(records, []);
    Stream.AddNothing(Stream.Payload(records));
  }

  lemma RegionPut(tree: Tree, shard: nat, key: Key, bytes: Bytes)
    requires key.Tag() == TAG_SM
    ensures Region(tree[Encode(shard, key) := bytes], shard) == Region(tree, shard)[Encode(shard, key) := bytes]
    ensures Outside(tree[Encode(shard, key) := bytes], shard) == Outside(tree, shard)
  {
    RegionSplit(shard, key);
    hide Encode, RegionPrefix;
  }

  /** Every staged key is in the store the batch leaves. */
  lemma {:induction false} StagedIsStored(tree: Store, ops: seq<Put>, i: nat)
    requires i < |ops|
    ensures ops[i].key in Overlay(tree, ops)
    decreases |ops|
  {
    var front, last := ops[..|ops| - 1], ops[|ops| - 1];
    assert ops == front + [last];
    OverlaySnoc(tree, front, last);
    if i < |front| {
      StagedIsStored(tree, front, i);
    }
  }

  lemma NoOps(tree: Store, ops: seq<Put>)
    ensures Overlay(tree, ops[..0]) == tree
  {
  }

  /** Keys of a region all lie under its prefix. */
  ghost predicate IsRegion(region: Tree, shard: nat) {
    Region(region, shard) == region
  }

  lemma RegionIsRegion(tree: Tree, shard: nat)
    ensures IsRegion(Region(tree, shard), shard)
  {
    hide RegionPrefix;
  }

  lemma DecodesTo(shard: nat, encode: Codec, decode: Tree -> Store, region: Tree, store: Store)
    requires Decodes(shard, encode, decode) && ValidKeys(store) && Holds(region, shard, store, encode)
    ensures decode(region) == store
  {
    hide Holds, ValidKeys;
  }

  lemma InstallIgnoresSent(source: Node, target: Node)
    ensures AfterInstall(Node(source.store, source.lastApplied, source.membership, []),
                         target) == AfterInstall(source, target)
  {
  }

  lemma WideSuffix(log: seq<Entry>, k: nat)
    requires k <= |log| && AllWide(log)
    ensures AllWide(log[k..])
  {
    hide Wide;
  }

  class Replica {
    const disk: ShardStorage
    const machine: EsStorage
    const encode: Codec
    const decode: Tree -> Store

    constructor (shard: nat, tree: Tree, hash: Catalogs.Hash, encode: Codec, decode: Tree -> Store)
      ensures fresh(disk) && fresh(machine) && disk.shard == shard && disk.tree == tree && machine.hash == hash
      ensures machine.View() == FRESH && this.encode == encode && this.decode == decode
      ensures shard <= U64_MAX && Region(tree, shard) == map[] ==> Valid()
    {
      disk := new ShardStorage(shard, tree);
      machine := new EsStorage(hash);
      this.encode, this.decode := encode, decode;
    }

    /** The bytes of the region are the store the machine reads. */
    ghost predicate Valid()
      reads this, disk, machine
    {
      && disk.shard <= U64_MAX && ValidKeys(machine.tree)
      && Holds(Region(disk.tree, disk.shard), disk.shard, machine.tree, encode)
    }

    /** Writes every staged put as bytes, in one transaction. */
    method WriteAll(ops: seq<Put>)
      requires Valid() && ValidKeys(Overlay(machine.tree, ops))
      modifies disk`tree
      ensures Holds(Region(disk.tree, disk.shard), disk.shard, Overlay(machine.tree, ops), encode)
      ensures Outside(disk.tree, disk.shard) == old(Outside(disk.tree, disk.shard))
    {
      hide Holds, Encode, Region, Outside, Overlay;
      var txn := disk.tree;
      NoOps(machine.tree, ops);
      for i := 0 to |ops|
        invariant disk.tree == old(disk.tree) && Outside(txn, disk.shard) == Outside(disk.tree, disk.shard)
        invariant ValidKeys(Overlay(machine.tree, ops[..i]))
        invariant Holds(Region(txn, disk.shard), disk.shard, Overlay(machine.tree, ops[..i]), encode)
      {
        var key, bytes := ops[i].key, encode(ops[i].value);
        StagedIsStored(machine.tree, ops, i);
        OverlaySnoc(machine.tree, ops[..i], ops[i]);
        assert ops[..i] + [ops[i]] == ops[..i + 1];
        RegionPut(txn, disk.shard, key, bytes);
        HoldsPut(Region(txn, disk.shard), disk.shard, Overlay(machine.tree, ops[..i]), encode, key, ops[i].value);
        txn := txn[Encode(disk.shard, key) := bytes];
      }
      assert ops[..|ops|] == ops;
      disk.tree := txn;
    }

    /** One batch on disk and in memory. */
    method ApplyBatch(entries: seq<Entry>) returns (responses: seq<Response>)
      requires Valid() && AllWide(entries)
      modifies disk`tree, machine
      ensures Valid() && machine.View() == AfterBatch(old(machine.View()), machine.hash, entries)
      ensures responses == OverlayResponses(old(machine.View()), machine.hash, entries)
      ensures Outside(disk.tree, disk.shard) == old(Outside(disk.tree, disk.shard))
    {
      hide Holds, Region, Outside, Overlay, AfterBatch, OverlayResponses, ValidKeys, AllWide;
      BatchKeys(machine.View(), machine.hash, entries);
      var ops, applied, members, events;
      responses, ops, applied, members, events := machine.Stage(entries);
      WriteAll(ops);
      machine.Commit(ops);
      machine.lastApplied, machine.membership := applied, members;
      machine.sent := machine.sent + events;
    }

    /** A snapshot of the region as it stands, with the applied state that goes into its header. */
    method TakeSnapshot() returns (stream: Bytes, length: nat, applied: Option<LogId>, members: Membership)
      ensures IsSnapshotOf(stream, length, Region(disk.tree, disk.shard))
      ensures applied == machine.lastApplied && members == machine.membership
    {
      hide Enumerates, Stream.Payload, Stream.PayloadLen;
      var records := disk.Collect();
      stream := Stream.WritePayload(records);
      length := Stream.PayloadLen(records);
      applied, members := machine.lastApplied, machine.membership;
    }

    /**
     * Installs a snapshot taken of a region that holds `source`. It is taken over exactly when no key or value is
     * longer than the reader allows; a refused snapshot changes nothing.
     */
    method InstallSnapshot(stream: Bytes, length: nat, applied: Option<LogId>, members: Membership,
                           ghost source: Store, ghost region: Tree)
        returns (ok: bool)
      requires disk.shard <= U64_MAX && Decodes(disk.shard, encode, decode)
      requires ValidKeys(source) && Holds(region, disk.shard, source, encode)
      requires IsRegion(region, disk.shard) && Addressable(region) && IsSnapshotOf(stream, length, region)
      modifies disk`tree, machine
      ensures ok <==> Fits(region)
      ensures !ok ==> disk.tree == old(disk.tree) && machine.View() == old(machine.View())
      ensures ok ==> Valid() && machine.View() == AfterInstall(Node(source, applied, members, []), old(machine.View()))
      ensures Outside(disk.tree, disk.shard) == old(Outside(disk.tree, disk.shard))
    {
      hide Holds, Region, Outside, Stream.Parse, Stream.Payload, Stream.PayloadLen, Installed, Enumerates;
      hide Addressable, Fits, Decodes;
      ghost var n := Node(source, applied, members, []);
      ghost var records :| Enumerates(records, region) && stream == Stream.Payload(records) && length == Stream.PayloadLen(records);
      SnapshotRead(records, region);
      ok := disk.Install(stream, length, encode(Applied(applied, members)));
      if ok {
        InstallHolds(region, old(disk.tree), disk.shard, n, records, encode);
        DecodesTo(disk.shard, encode, decode, Region(disk.tree, disk.shard),
                  AfterInstall(n, old(machine.View())).store);
        machine.tree := decode(Region(disk.tree, disk.shard));
        machine.lastApplied, machine.membership := applied, members;
      }
    }

    /**
     * A replica behind catches up from another's snapshot and the rest of the log. Whatever its region held, it then
     * holds, byte for byte, what applying the whole log entry by entry holds, and no key outside the region changed.
     */
    method CatchUp(source: Replica, log: seq<Entry>, k: nat) returns (ok: bool)
      requires disk != source.disk && machine != source.machine && source.Valid()
      requires disk.shard == source.disk.shard && machine.hash == source.machine.hash && encode == source.encode
      requires Decodes(disk.shard, encode, decode) && Addressable(Region(source.disk.tree, disk.shard))
      requires k <= |log| && AllWide(log) && StandsAt(source.machine.View(), machine.hash, log, k)
      modifies disk`tree, machine
      ensures ok <==> Fits(Region(source.disk.tree, disk.shard))
      ensures !ok ==> disk.tree == old(disk.tree) && machine.View() == old(machine.View())
      ensures ok ==> Valid() && StandsAt(machine.View(), machine.hash, log, |log|)
      ensures ok && log != [] ==>
                forall whole :: Holds(whole, disk.shard, ApplyEntries(FRESH, machine.hash, log).store, encode) ==>
                    Region(disk.tree, disk.shard) == whole
      ensures Outside(disk.tree, disk.shard) == old(Outside(disk.tree, disk.shard))
    {
      hide Holds, Region, Outside, StandsAt, AfterBatch, ApplyEntries, OverlayResponses, IsSnapshotOf, Addressable;
      hide Fits, Decodes, AllWide, AfterInstall, ValidKeys;
      var stream, length, applied, members := source.TakeSnapshot();
      RegionIsRegion(source.disk.tree, disk.shard);
      ghost var n, before := source.machine.View(), machine.View();
      ok := InstallSnapshot(stream, length, applied, members, source.machine.tree,
                            Region(source.disk.tree, disk.shard));
      if ok {
        InstallIgnoresSent(n, before);
        WideSuffix(log, k);
        var _ := ApplyBatch(log[k..]);
        SnapshotThenSuffix(machine.hash, log, k, n, before);
        if log != [] {
          forall whole | Holds(whole, disk.shard, ApplyEntries(FRESH, machine.hash, log).store, encode)
            ensures Region(disk.tree, disk.shard) == whole
          {
            HoldsUnique(Region(disk.tree, disk.shard), whole, disk.shard, machine.tree, encode);
          }
        }
      }
    }
  }
}
