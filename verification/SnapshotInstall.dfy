/** Building a snapshot of a shard's state-machine region and installing it over another replica's. */
module SnapshotInstall {
  import opened Base
  import opened Lexicographic
  import opened Keys
  import opened RangeScan
  import opened StateMachine
  import opened StoreKeys
  import opened SnapshotStream
  import Refinement = ApplyRefinement
  import Catalogs = AggregateCatalog

  /** The tree all shards of a process share. */
  type Tree = map<Bytes, Bytes>

  /** The state-machine keys of one shard. */
  function Region(tree: Tree, shard: nat): Tree {
    map k | k in tree && RegionPrefix(TAG_SM, shard) <= k :: tree[k]
  }

  function Outside(tree: Tree, shard: nat): Tree {
    map k | k in tree && !(RegionPrefix(TAG_SM, shard) <= k) :: tree[k]
  }

  /** The half-open byte range that is scanned is the region. */
  lemma RegionIsRange(shard: nat, k: Bytes)
    ensures SuccessorOf(RegionPrefix(TAG_SM, shard)).Some?
    ensures InRange(RegionPrefix(TAG_SM, shard), SuccessorOf(RegionPrefix(TAG_SM, shard)), k) <==>
            RegionPrefix(TAG_SM, shard) <= k
  {
    PrefixIsRange(RegionPrefix(TAG_SM, shard), k);
    HasSuccessor(TAG_SM, BE(shard, 8));
  }

  /** The keys a scan of the region walks. */
  lemma RegionScan(tree: Tree, shard: nat)
    ensures SuccessorOf(RegionPrefix(TAG_SM, shard)).Some?
    ensures Between(tree, RegionPrefix(TAG_SM, shard), SuccessorOf(RegionPrefix(TAG_SM, shard)).value) ==
            Region(tree, shard).Keys
  {
    var prefix := RegionPrefix(TAG_SM, shard);
    RegionIsRange(shard, []);
    hide RegionPrefix, SuccessorOf, Less;
    forall k ensures k in Between(tree, prefix, SuccessorOf(prefix).value) <==> k in Region(tree, shard) {
      RegionIsRange(shard, k);
    }
  }

  function KeysOf(records: seq<Record>): (r: seq<Bytes>)
    ensures |r| == |records|
  {
    seq(|records|, i requires 0 <= i < |records| => records[i].key)
  }

  /** A list of records that holds each entry of a region once, in key order. */
  ghost predicate Enumerates(records: seq<Record>, region: Tree) {
    && KeysOf(records) == Sorted(region.Keys)
    && forall i :: 0 <= i < |records| ==> records[i].key in region && records[i].value == region[records[i].key]
  }

  lemma EnumeratesAll(records: seq<Record>, region: Tree, k: Bytes)
    requires Enumerates(records, region)
    ensures k in region <==> exists i :: 0 <= i < |records| && records[i].key == k
  {
    if k in region {
      assert k in KeysOf(records);
      var i :| 0 <= i < |records| && KeysOf(records)[i] == k;
      assert records[i].key == k;
    }
  }

  /** A region has one enumeration, so replicas with the same region write the same snapshot, byte for byte. */
  lemma EnumerationUnique(a: seq<Record>, b: seq<Record>, region: Tree)
    requires Enumerates(a, region) && Enumerates(b, region)
    ensures a == b
  {
    hide Sorted;
    forall i | 0 <= i < |a| ensures |b| == |a| && a[i] == b[i] {
      assert KeysOf(a)[i] == KeysOf(b)[i];
    }
    assert |KeysOf(a)| == |KeysOf(b)|;
  }

  /** A transaction that sets records in order. */
  function SetAll(tree: Tree, records: seq<Record>): Tree {
    if records == [] then tree
    else SetAll(tree, records[..|records| - 1])[records[|records| - 1].key := records[|records| - 1].value]
  }

  /** The region replaced by the snapshot's records, with the snapshot's applied state. */
  function Installed(tree: Tree, shard: nat, records: seq<Record>, applied: Bytes): Tree {
    SetAll(Outside(tree, shard), records)[Encode(shard, AppliedState) := applied]
  }

  lemma {:induction false} SetAllKeys(tree: Tree, records: seq<Record>, k: Bytes)
    ensures k in SetAll(tree, records) <==> k in tree || exists i :: 0 <= i < |records| && records[i].key == k
    ensures k in SetAll(tree, records) ==>
              || (k in tree && SetAll(tree, records)[k] == tree[k] && forall i :: 0 <= i < |records| ==> records[i].key != k)
              || exists i :: 0 <= i < |records| && records[i].key == k && SetAll(tree, records)[k] == records[i].value
    decreases |records|
  {
    if records != [] {
      var front, last := records[..|records| - 1], records[|records| - 1];
      SetAllKeys(tree, front, k);
      assert records == front + [last];
      if last.key == k {
        assert records[|records| - 1].key == k;
      }
      if exists i :: 0 <= i < |front| && front[i].key == k {
        var i :| 0 <= i < |front| && front[i].key == k;
        assert records[i].key == k;
      }
    }
  }

  /** Setting an enumeration of a region overwrites with exactly that region. */
  lemma SetRegion(tree: Tree, records: seq<Record>, region: Tree)
    requires Enumerates(records, region)
    ensures SetAll(tree, records) == tree + region
  {
    var l, r := SetAll(tree, records), tree + region;
    hide SetAll, Enumerates;
    forall k ensures (k in l <==> k in r) && (k in l ==> l[k] == r[k]) {
      SetRegionAt(tree, records, region, k);
    }
  }

  lemma SetRegionAt(tree: Tree, records: seq<Record>, region: Tree, k: Bytes)
    requires Enumerates(records, region)
    ensures var l, r := SetAll(tree, records), tree + region;
            (k in l <==> k in r) && (k in l ==> l[k] == r[k])
  {
    hide SetAll, Sorted, KeysOf;
    EnumeratesAll(records, region, k);
    SetAllKeys(tree, records, k);
  }

  lemma AppliedInRegion(shard: nat)
    ensures RegionPrefix(TAG_SM, shard) <= Encode(shard, AppliedState)
  {
  }

  /**
   * Installing replaces the target's region by the source's, with the snapshot's applied state in it, and
   * touches no key outside: not the raft keys, not another shard's.
   */
  lemma InstallReplaces(tree: Tree, shard: nat, records: seq<Record>, applied: Bytes, region: Tree, source: Tree)
    requires region == Region(source, shard) && Enumerates(records, region)
    ensures Region(Installed(tree, shard, records, applied), shard) == region[Encode(shard, AppliedState) := applied]
    ensures Outside(Installed(tree, shard, records, applied), shard) == Outside(tree, shard)
  {
    hide SetAll, Enumerates, Encode, Sorted;
    SetRegion(Outside(tree, shard), records, region);
    ReplacedRegion(tree, source, shard, applied);
  }

  lemma ReplacedRegion(tree: Tree, source: Tree, shard: nat, applied: Bytes)
    ensures var after := (Outside(tree, shard) + Region(source, shard))[Encode(shard, AppliedState) := applied];
            && Region(after, shard) == Region(source, shard)[Encode(shard, AppliedState) := applied]
            && Outside(after, shard) == Outside(tree, shard)
  {
    AppliedInRegion(shard);
    hide Encode, RegionPrefix;
  }

  // ---------------------------------------------------------------- what the bytes mean

  type Codec = Value -> Bytes

  /** The region holds the store, key for key and value for value. */
  ghost predicate Holds(region: Tree, shard: nat, store: Store, encode: Codec) {
    && (forall k :: k in store ==> Encode(shard, k) in region && region[Encode(shard, k)] == encode(store[k]))
    && (forall b :: b in region ==> exists k :: k in store && Encode(shard, k) == b)
  }

  /** What a region holds determines it. */
  lemma HoldsUnique(a: Tree, b: Tree, shard: nat, store: Store, encode: Codec)
    requires Holds(a, shard, store, encode) && Holds(b, shard, store, encode)
    ensures a == b
  {
    hide Encode;
    HoldsWithin(a, b, shard, store, encode);
    HoldsWithin(b, a, shard, store, encode);
  }

  lemma HoldsWithin(a: Tree, b: Tree, shard: nat, store: Store, encode: Codec)
    requires Holds(a, shard, store, encode) && Holds(b, shard, store, encode)
    ensures forall k :: k in a ==> k in b && a[k] == b[k]
  {
    hide Encode;
    forall bytes | bytes in a ensures bytes in b && a[bytes] == b[bytes] {
      var k :| k in store && Encode(shard, k) == bytes;
    }
  }

  /** Writing one key's bytes puts that key, and no other, in the store the region holds. */
  lemma HoldsPut(region: Tree, shard: nat, store: Store, encode: Codec, key: Key, x: Value)
    requires Holds(region, shard, store, encode) && ValidKeys(store) && shard <= U64_MAX && key.Valid()
    ensures Holds(region[Encode(shard, key) := encode(x)], shard, store[key := x], encode)
  {
    var r, s := region[Encode(shard, key) := encode(x)], store[key := x];
    hide Encode, Key.Valid;
    forall k | k in s ensures Encode(shard, k) in r && r[Encode(shard, k)] == encode(s[k]) {
      if k != key && Encode(shard, k) == Encode(shard, key) {
        EncodeInjective(shard, k, shard, key);
      }
    }
    forall b | b in r ensures exists k :: k in s && Encode(shard, k) == b {
      if b in region {
        var k :| k in store && Encode(shard, k) == b;
        assert k in s;
      } else {
        assert key in s;
      }
    }
  }

  /** The node a replica becomes by installing another's snapshot: the other's state, its own broadcast history. */
  function AfterInstall(source: Node, target: Node): Node {
    target.(store := source.store[AppliedState := Applied(source.lastApplied, source.membership)],
            lastApplied := source.lastApplied, membership := source.membership)
  }

  /**
   * Snapshot transparency, on the bytes: whatever tree the target had, after the install its region holds the
   * source's state and every other key is as it was.
   */
  lemma InstallHolds(source: Tree, target: Tree, shard: nat, n: Node, records: seq<Record>, encode: Codec)
    requires shard <= U64_MAX && ValidKeys(n.store)
    requires Holds(Region(source, shard), shard, n.store, encode) && Enumerates(records, Region(source, shard))
    ensures var after := Installed(target, shard, records, encode(Applied(n.lastApplied, n.membership)));
            && Holds(Region(after, shard), shard, n.store[AppliedState := Applied(n.lastApplied, n.membership)], encode)
            && Outside(after, shard) == Outside(target, shard)
  {
    hide Holds, Enumerates, Installed, ValidKeys, Encode;
    InstallReplaces(target, shard, records, encode(Applied(n.lastApplied, n.membership)), Region(source, shard),
                    source);
    HoldsPut(Region(source, shard), shard, n.store, encode, AppliedState, Applied(n.lastApplied, n.membership));
  }

  /**
   * Snapshot transparency, on the state: a replica that installs a snapshot of another that stands after any prefix
   * of the log, and then applies the rest, stands where applying the whole log stands.
   */
  lemma SnapshotThenSuffix(hash: Catalogs.Hash, log: seq<Entry>, k: nat, source: Node, target: Node)
    requires k <= |log| && Refinement.StandsAt(source, hash, log, k)
    ensures var after := Refinement.AfterBatch(AfterInstall(source, target), hash, log[k..]);
            && Refinement.StandsAt(after, hash, log, |log|)
            && (log != [] ==> after.store == ApplyEntries(Refinement.FRESH, hash, log).store)
  {
    hide ApplyEntries, Refinement.AfterBatch, Refinement.StandsAt, AfterInstall;
    var start := AfterInstall(source, target);
    InstallStands(hash, log, k, source, target);
    Slices(log, k);
    Refinement.BatchStands(start, hash, log, k, |log| - k);
    if log != [] {
      Refinement.StandsExactly(Refinement.AfterBatch(start, hash, log[k..]), hash, log, |log|);
    }
  }

  lemma Slices(log: seq<Entry>, k: nat)
    requires k <= |log|
    ensures log[k..k + (|log| - k)] == log[k..] && log[..|log|] == log
  {
  }

  lemma InstallStands(hash: Catalogs.Hash, log: seq<Entry>, k: nat, source: Node, target: Node)
    requires k <= |log| && Refinement.StandsAt(source, hash, log, k)
    ensures Refinement.StandsAt(AfterInstall(source, target), hash, log, k)
  {
    hide ApplyEntries;
    assert Refinement.Data(source.store[AppliedState := Applied(source.lastApplied, source.membership)]) ==
      Refinement.Data(source.store);
  }

  // ---------------------------------------------------------------- as it runs

  lemma KeysNext(keys: seq<Bytes>, i: nat)
    requires i < |keys|
    ensures forall k :: k in keys[..i + 1] <==> k in keys[..i] || k == keys[i]
  {
    assert keys[..i + 1] == keys[..i] + [keys[i]];
  }

  class ShardStorage {
    const shard: nat
    var tree: Tree

    constructor (shard: nat, tree: Tree)
      ensures this.shard == shard && this.tree == tree
    {
      this.shard, this.tree := shard, tree;
    }

    /** The keys of the shard's region, in order. */
    method RegionKeys() returns (keys: seq<Bytes>)
      ensures keys == Sorted(Region(tree, shard).Keys)
    {
      hide SuccessorOf, RegionPrefix, Between, Region, Sorted, Less;
      RegionScan(tree, shard);
      var prefix := RegionPrefix(TAG_SM, shard);
      keys := ScanKeys(tree, prefix, SuccessorOf(prefix).value, false, 0);
    }

    /** Walks the region and copies out every entry. */
    method Collect() returns (records: seq<Record>)
      ensures Enumerates(records, Region(tree, shard))
    {
      hide Sorted, RegionPrefix;
      var keys := RegionKeys();
      records := [];
      for i := 0 to |keys|
        invariant |records| == i
        invariant forall j :: 0 <= j < i ==>
            records[j].key == keys[j] && keys[j] in Region(tree, shard) && records[j].value == tree[keys[j]]
      {
        assert keys[i] in keys;
        records := records + [Record.Record(keys[i], tree[keys[i]])];
      }
      assert KeysOf(records) == keys;
    }

    /**
     * Installs a snapshot stream whose header announced `length` bytes. Any defect of the stream leaves the tree
     * as it was; otherwise one commit replaces the region.
     */
    method Install(stream: Bytes, length: nat, applied: Bytes) returns (ok: bool)
      modifies `tree
      ensures ok <==> Parse(stream).Some? && |stream| - |Parse(stream).value.rest| == length
      ensures !ok ==> tree == old(tree)
      ensures ok ==> tree == Installed(old(tree), shard, Parse(stream).value.records, applied)
    {
      hide Parse, Encode, RegionPrefix;
      var txn := Clear();
      var records, read := ForEachRecord(stream);
      if records.None? {
        return false;
      }
      for i := 0 to |records.value|
        invariant tree == old(tree) && txn == SetAll(Outside(tree, shard), records.value[..i])
      {
        assert records.value[..i + 1][..i] == records.value[..i];
        txn := txn[records.value[i].key := records.value[i].value];
      }
      assert records.value[..|records.value|] == records.value;
      if read != length {
        return false;
      }
      tree := txn[Encode(shard, AppliedState) := applied];
      return true;
    }

    /** A transaction with every key of the region deleted. */
    method Clear() returns (txn: Tree)
      ensures txn == Outside(tree, shard)
    {
      hide Sorted, RegionPrefix;
      var keys := RegionKeys();
      txn := tree;
      for i := 0 to |keys|
        invariant forall k :: k in txn <==> k in tree && k !in keys[..i]
        invariant forall k :: k in txn ==> txn[k] == tree[k]
      {
        KeysNext(keys, i);
        txn := txn - {keys[i]};
      }
      assert keys[..|keys|] == keys;
    }
  }
}
