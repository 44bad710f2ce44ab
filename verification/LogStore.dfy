/**
 * The raft log of a shard inside the shared tree: index ranges as byte ranges, appends, truncation and the
 * two-step purge, with a crash between any two transactions.
 */
module LogStore {
  import opened Base
  import opened Lexicographic
  import opened Keys
  import opened StateMachine
  import Scan = RangeScan

  // ---------------------------------------------------------------- ranges

  datatype Bound = Included(index: nat) | Excluded(index: nat) | Unbounded {
    predicate Valid() {
      Unbounded? || index <= U64_MAX
    }
  }

  predicate InBounds(low: Bound, high: Bound, i: nat) {
    && (low.Included? ==> low.index <= i)
    && (low.Excluded? ==> low.index < i)
    && (high.Included? ==> i <= high.index)
    && (high.Excluded? ==> i < high.index)
  }

  function LogPrefix(shard: nat): Bytes {
    SubPrefix(TAG_RAFT, shard, 0x01)
  }

  /** The exclusive upper end of a shard's log. */
  function LogUpper(shard: nat): Bytes {
    var s := SuccessorOf(LogPrefix(shard));
    if s.Some? then s.value else []
  }

  /** An index range as a half-open byte range; `None` when it is empty. */
  function LogRangeKeys(shard: nat, low: Bound, high: Bound): Option<(Bytes, Bytes)> {
    var start :=
      match low
      case Included(i) => Some(i)
      case Excluded(i) => if i + 1 > U64_MAX then None else Some(i + 1)
      case Unbounded => Some(0);
    if start.None? then None
    else
      var from := Encode(shard, LogEntry(start.value));
      match high
      case Excluded(i) => if i <= start.value then None else Some((from, Encode(shard, LogEntry(i))))
      case Included(i) =>
        if i < start.value then None
        else if i + 1 > U64_MAX then Some((from, LogUpper(shard)))
        else Some((from, Encode(shard, LogEntry(i + 1))))
      case Unbounded => Some((from, LogUpper(shard)))
  }

  predicate Between(low: Bytes, high: Bytes, k: Bytes) {
    AtMost(low, k) && Less(k, high)
  }

  /** The upper end is where the vote is kept: the log's prefix, one further. */
  lemma LogUpperIsVote(shard: nat)
    ensures SuccessorOf(LogPrefix(shard)) == Some(LogUpper(shard)) && LogUpper(shard) == Encode(shard, Vote)
  {
    SuccessorOfSplit(RegionPrefix(TAG_RAFT, shard), 0x01, []);
    assert LogPrefix(shard) == RegionPrefix(TAG_RAFT, shard) + [0x01] + [];
    assert Encode(shard, Vote) == RegionPrefix(TAG_RAFT, shard) + [0x02];
  }

  lemma LogKeysByIndex(shard: nat, m: nat, n: nat)
    requires m <= U64_MAX && n <= U64_MAX
    ensures Less(Encode(shard, LogEntry(m)), Encode(shard, LogEntry(n))) <==> m < n
  {
    SuffixOrder(LogPrefix(shard), m, n);
  }

  /** A valid key starts with the log's prefix exactly when it is an entry of that shard's log. */
  lemma LogPrefixExact(shard: nat, shard': nat, k: Key)
    requires shard <= U64_MAX && shard' <= U64_MAX && k.Valid()
    ensures LogPrefix(shard) <= Encode(shard', k) <==> shard == shard' && k.LogEntry?
  {
    var e := Encode(shard', k);
    if LogPrefix(shard) <= e {
      var rest := e[10..];
      assert e == LogPrefix(shard) + rest;
      SubPrefixInjective(TAG_RAFT, shard, 0x01, rest, k.Tag(), shard', k.Sub(), k.Body());
    }
  }

  /** From an entry to the end of the log. */
  lemma UpperExact(shard: nat, from: nat, shard': nat, k: Key)
    requires shard <= U64_MAX && shard' <= U64_MAX && k.Valid() && from <= U64_MAX
    ensures Between(Encode(shard, LogEntry(from)), LogUpper(shard), Encode(shard', k)) <==>
            shard == shard' && k.LogEntry? && from <= k.index
  {
    var e := Encode(shard', k);
    LogUpperIsVote(shard);
    PrefixIsRange(LogPrefix(shard), e);
    LogPrefixExact(shard, shard', k);
    assert Encode(shard, LogEntry(from)) == LogPrefix(shard) + BE(from, 8);
    if AtMost(Encode(shard, LogEntry(from)), e) {
      StartsAtMost(LogPrefix(shard), BE(from, 8), e);
    }
    if shard == shard' && k.LogEntry? {
      LogKeysByIndex(shard, k.index, from);
    }
    hide Encode, SuccessorOf, Less;
  }

  lemma StartsAtMost(prefix: Bytes, x: Bytes, e: Bytes)
    requires AtMost(prefix + x, e)
    ensures AtMost(prefix, e)
  {
    PrefixIsRange(prefix, prefix + x);
    if Less(e, prefix) {
      LessAtMost(e, prefix, prefix + x);
    }
  }

  /** From an entry to another. */
  lemma EntriesExact(shard: nat, from: nat, to: nat, shard': nat, k: Key)
    requires shard <= U64_MAX && shard' <= U64_MAX && k.Valid() && from <= to <= U64_MAX
    ensures Between(Encode(shard, LogEntry(from)), Encode(shard, LogEntry(to)), Encode(shard', k)) <==>
            shard == shard' && k.LogEntry? && from <= k.index < to
  {
    var e := Encode(shard', k);
    UpperExact(shard, from, shard', k);
    UpperExact(shard, 0, shard, LogEntry(to));
    if Less(e, Encode(shard, LogEntry(to))) {
      LessTransitive(e, Encode(shard, LogEntry(to)), LogUpper(shard));
    }
    if shard == shard' && k.LogEntry? {
      LogKeysByIndex(shard, k.index, to);
    }
    hide Encode, LogUpper, Less;
  }

  /**
   * Log ranges are exact. For every combination of bounds, the top of `u64` included, a key of the tree lies in the
   * computed byte range exactly when it is an entry of this shard's log whose index lies in the index range.
   */
  lemma LogRangeExact(shard: nat, low: Bound, high: Bound, shard': nat, k: Key)
    requires shard <= U64_MAX && shard' <= U64_MAX && k.Valid() && low.Valid() && high.Valid()
    ensures var r := LogRangeKeys(shard, low, high);
            (r.Some? && Between(r.value.0, r.value.1, Encode(shard', k))) <==>
            shard == shard' && k.LogEntry? && InBounds(low, high, k.index)
  {
    hide Encode, LogUpper, Between;
    var start :=
      match low
      case Included(i) => i
      case Excluded(i) => i + 1
      case Unbounded => 0;
    if start <= U64_MAX {
      UpperExact(shard, start, shard', k);
      if high.Excluded? && start < high.index {
        EntriesExact(shard, start, high.index, shard', k);
      } else if high.Included? && start <= high.index < U64_MAX {
        EntriesExact(shard, start, high.index + 1, shard', k);
      }
    }
  }

  // ---------------------------------------------------------------- the shared tree

  datatype Cell = EntryCell(entry: Entry) | PurgedCell(purged: LogId) | OtherCell(bytes: Bytes)

  /** Every shard's keys, raft and state machine alike. */
  type Tree = map<(nat, Key), Cell>

  ghost predicate TreeOk(tree: Tree) {
    forall k :: k in tree ==> k.0 <= U64_MAX && k.1.Valid() && (k.1.LogEntry? ==> tree[k].EntryCell?)
  }

  predicate Stored(tree: Tree, shard: nat, i: nat) {
    (shard, LogEntry(i)) in tree
  }

  ghost predicate Greatest(tree: Tree, shard: nat, m: nat) {
    Stored(tree, shard, m) && forall i: nat :: Stored(tree, shard, i) ==> i <= m
  }

  function LastPurgedOf(tree: Tree, shard: nat): Option<LogId> {
    var k := (shard, LastPurged);
    if k in tree && tree[k].PurgedCell? then Some(tree[k].purged) else None
  }

  /** The tree without the entries of this shard's log whose index is in the bounds. */
  function Without(tree: Tree, shard: nat, low: Bound, high: Bound): Tree {
    map k | k in tree && !(k.0 == shard && k.1.LogEntry? && InBounds(low, high, k.1.index)) :: tree[k]
  }

  function WithEntries(tree: Tree, shard: nat, entries: seq<Entry>): Tree {
    if entries == [] then tree
    else
      var last := entries[|entries| - 1];
      WithEntries(tree, shard, entries[..|entries| - 1])[(shard, LogEntry(last.logId.index)) := EntryCell(last)]
  }

  function Marked(tree: Tree, shard: nat, logId: LogId): Tree {
    tree[(shard, LastPurged) := PurgedCell(logId)]
  }

  /** The whole log's byte range. */
  lemma WholeLogExact(shard: nat, shard': nat, k: Key)
    requires shard <= U64_MAX && shard' <= U64_MAX && k.Valid()
    ensures Between(LogPrefix(shard), LogUpper(shard), Encode(shard', k)) <==> shard == shard' && k.LogEntry?
  {
    LogUpperIsVote(shard);
    PrefixIsRange(LogPrefix(shard), Encode(shard', k));
    LogPrefixExact(shard, shard', k);
    hide Encode, SuccessorOf, Less, LogPrefix, LogUpper;
  }

  /** Some key of a set comes last in byte order. */
  lemma LastKeyExists(keys: set<(nat, Key)>)
    requires keys != {}
    ensures exists k :: k in keys && forall j :: j in keys ==> AtMost(Encode(j.0, j.1), Encode(k.0, k.1))
  {
    hide Encode, Less;
    var bytes := set k | k in keys :: Encode(k.0, k.1);
    var some :| some in keys;
    assert Encode(some.0, some.1) in bytes;
    Scan.ExtremesExist(bytes);
    var last :| Scan.IsGreatest(last, bytes);
    var k :| k in keys && Encode(k.0, k.1) == last;
    forall j | j in keys ensures AtMost(Encode(j.0, j.1), Encode(k.0, k.1)) {
      assert Encode(j.0, j.1) in bytes;
      LessIrreflexive(last);
      if Encode(j.0, j.1) != last {
        LessAsymmetric(Encode(j.0, j.1), last);
      }
    }
  }

  /** The indexes of this shard's log in the bounds. */
  function IndexesIn(tree: Tree, shard: nat, low: Bound, high: Bound): set<nat> {
    set k | k in tree && k.0 == shard && k.1.LogEntry? && InBounds(low, high, k.1.index) :: k.1.index
  }

  /** The entries at some indexes, in their order. */
  function EntriesAt(tree: Tree, shard: nat, indexes: seq<nat>): seq<Entry>
    requires forall i :: i in indexes ==> (shard, LogEntry(i)) in tree && tree[(shard, LogEntry(i))].EntryCell?
  {
    seq(|indexes|, j requires 0 <= j < |indexes| && indexes[j] in indexes => tree[(shard, LogEntry(indexes[j]))].entry)
  }

  function IndexesOf(keys: set<(nat, Key)>): set<nat> {
    set k | k in keys && k.1.LogEntry? :: k.1.index
  }

  lemma NoIndexes()
    ensures Ascending(IndexesOf({})) == []
  {
  }

  lemma EntriesCons(tree: Tree, shard: nat, i: nat, indexes: seq<nat>)
    requires forall j :: j in [i] + indexes ==> (shard, LogEntry(j)) in tree && tree[(shard, LogEntry(j))].EntryCell?
    ensures i in [i] + indexes
    ensures forall j :: j in indexes ==> (shard, LogEntry(j)) in tree && tree[(shard, LogEntry(j))].EntryCell?
    ensures EntriesAt(tree, shard, [i] + indexes) ==
            [tree[(shard, LogEntry(i))].entry] + EntriesAt(tree, shard, indexes)
  {
    assert ([i] + indexes)[0] == i;
    assert forall j :: j in indexes ==> j in [i] + indexes;
  }

  lemma AscendingFrom(m: nat, keys: set<nat>)
    requires Least(m, keys)
    ensures Ascending(keys) == [m] + Ascending(keys - {m})
  {
    var s := Smallest(keys);
    assert s <= m <= s;
  }

  /** Some key of a set comes first in byte order. */
  lemma FirstKeyExists(keys: set<(nat, Key)>)
    requires keys != {}
    ensures exists k :: k in keys && forall j :: j in keys ==> AtMost(Encode(k.0, k.1), Encode(j.0, j.1))
  {
    hide Encode, Less;
    var bytes := set k | k in keys :: Encode(k.0, k.1);
    var some :| some in keys;
    assert Encode(some.0, some.1) in bytes;
    Scan.ExtremesExist(bytes);
    var first :| Scan.IsLeast(first, bytes);
    var k :| k in keys && Encode(k.0, k.1) == first;
    forall j | j in keys ensures AtMost(Encode(k.0, k.1), Encode(j.0, j.1)) {
      assert Encode(j.0, j.1) in bytes;
      LessIrreflexive(first);
      if Encode(j.0, j.1) != first {
        LessAsymmetric(first, Encode(j.0, j.1));
      }
    }
  }

  class LogStorage {
    const shard: nat
    var tree: Tree

    ghost predicate Valid()
      reads this
    {
      shard <= U64_MAX && TreeOk(tree)
    }

    /** Every key between two byte strings. */
    method CollectKeys(low: Bytes, high: Bytes) returns (keys: set<(nat, Key)>)
      ensures forall k :: k in keys <==> k in tree && Between(low, high, Encode(k.0, k.1))
    {
      keys := {};
      var todo := tree.Keys;
      while todo != {}
        invariant todo <= tree.Keys
        invariant forall k :: k in keys <==> k in tree && k !in todo && Between(low, high, Encode(k.0, k.1))
        decreases |todo|
      {
        var k :| k in todo;
        todo := todo - {k};
        if Between(low, high, Encode(k.0, k.1)) {
          keys := keys + {k};
        }
      }
    }

    /** Deletes the entries in an index range in one transaction. */
    method DeleteRange(low: Bound, high: Bound)
      requires Valid() && low.Valid() && high.Valid()
      modifies `tree
      ensures Valid() && tree == Without(old(tree), shard, low, high)
    {
      hide Encode, Between;
      var range := LogRangeKeys(shard, low, high);
      forall k | k in tree
        ensures range.Some? && Between(range.value.0, range.value.1, Encode(k.0, k.1)) <==>
                k.0 == shard && k.1.LogEntry? && InBounds(low, high, k.1.index)
      {
        LogRangeExact(shard, low, high, k.0, k.1);
      }
      hide LogRangeKeys;
      if range.None? {
        assert Without(tree, shard, low, high) == tree;
        return;
      }
      var keys := CollectKeys(range.value.0, range.value.1);
      tree := tree - keys;
      assert tree == Without(old(tree), shard, low, high);
    }

    /** The first key of a set of log keys has the least index. */
    lemma FirstIndex(keys: set<(nat, Key)>, k: (nat, Key))
      requires Valid() && keys <= tree.Keys && forall j :: j in keys ==> j.0 == shard && j.1.LogEntry?
      requires k in keys && forall j :: j in keys ==> AtMost(Encode(k.0, k.1), Encode(j.0, j.1))
      ensures Least(k.1.index, IndexesOf(keys)) && IndexesOf(keys - {k}) == IndexesOf(keys) - {k.1.index}
    {
      hide Encode, Less;
      forall i | i in IndexesOf(keys) ensures k.1.index <= i {
        var j :| j in keys && j.1.LogEntry? && j.1.index == i;
        LogKeysByIndex(shard, i, k.1.index);
        assert j == (shard, LogEntry(i)) && k == (shard, LogEntry(k.1.index));
      }
      assert k.1.index in IndexesOf(keys);
      forall i ensures i in IndexesOf(keys - {k}) <==> i in IndexesOf(keys) && i != k.1.index {
        if i in IndexesOf(keys - {k}) {
          var j :| j in keys - {k} && j.1.LogEntry? && j.1.index == i;
          assert j == (shard, LogEntry(i)) && k == (shard, LogEntry(k.1.index));
        }
        if i in IndexesOf(keys) && i != k.1.index {
          var j :| j in keys && j.1.LogEntry? && j.1.index == i;
          assert j in keys - {k};
        }
      }
    }

    /** The entries of some log keys in index order. */
    ghost function InOrder(keys: set<(nat, Key)>): seq<Entry>
      requires Valid() && LogKeys(keys)
      reads this
    {
      KeysHeld(keys);
      EntriesAt(tree, shard, Ascending(IndexesOf(keys)))
    }

    ghost predicate LogKeys(keys: set<(nat, Key)>)
      reads this
    {
      keys <= tree.Keys && forall k :: k in keys ==> k.0 == shard && k.1.LogEntry?
    }

    lemma KeysHeld(keys: set<(nat, Key)>)
      requires Valid() && LogKeys(keys)
      ensures forall i :: i in IndexesOf(keys) ==> (shard, LogEntry(i)) in tree && tree[(shard, LogEntry(i))].EntryCell?
    {
      forall i | i in IndexesOf(keys) ensures (shard, LogEntry(i)) in tree && tree[(shard, LogEntry(i))].EntryCell? {
        var k :| k in keys && k.1.LogEntry? && k.1.index == i;
        assert k == (shard, LogEntry(i));
      }
    }

    /** The first key in byte order is the first entry, and the rest follow. */
    lemma FirstEntry(keys: set<(nat, Key)>, k: (nat, Key))
      requires Valid() && LogKeys(keys)
      requires k in keys && forall j :: j in keys ==> AtMost(Encode(k.0, k.1), Encode(j.0, j.1))
      ensures LogKeys(keys - {k}) && tree[k].EntryCell? && InOrder(keys) == [tree[k].entry] + InOrder(keys - {k})
    {
      hide Encode, Less, Ascending, EntriesAt, IndexesOf;
      FirstIndex(keys, k);
      KeysHeld(keys);
      assert k == (shard, LogEntry(k.1.index));
      AscendingFrom(k.1.index, IndexesOf(keys));
      EntriesCons(tree, shard, k.1.index, Ascending(IndexesOf(keys - {k})));
    }

    /** A walk over log keys in byte order. */
    method WalkEntries(keys: set<(nat, Key)>) returns (entries: seq<Entry>)
      requires Valid() && LogKeys(keys)
      ensures entries == InOrder(keys)
    {
      hide Encode, Less, InOrder, Valid, LogKeys;
      entries := [];
      var left := keys;
      while left != {}
        invariant LogKeys(left) && entries + InOrder(left) == InOrder(keys)
        decreases |left|
      {
        FirstKeyExists(left);
        var k :| k in left && forall j :: j in left ==> AtMost(Encode(k.0, k.1), Encode(j.0, j.1));
        InTree(left, k);
        FirstEntry(left, k);
        entries := entries + [tree[k].entry];
        left := left - {k};
      }
      NothingInOrder();
    }

    lemma InTree(keys: set<(nat, Key)>, k: (nat, Key))
      requires LogKeys(keys) && k in keys
      ensures k in tree
    {
    }

    lemma NothingInOrder()
      requires Valid()
      ensures LogKeys({}) && InOrder({}) == []
    {
      NoIndexes();
    }

    /** The entries in an index range, in index order. */
    method ReadEntries(low: Bound, high: Bound) returns (entries: seq<Entry>)
      requires Valid() && low.Valid() && high.Valid()
      ensures forall i :: i in IndexesIn(tree, shard, low, high) ==>
                (shard, LogEntry(i)) in tree && tree[(shard, LogEntry(i))].EntryCell?
      ensures entries == EntriesAt(tree, shard, Ascending(IndexesIn(tree, shard, low, high)))
    {
      hide Encode, Between, Ascending, EntriesAt;
      var range := LogRangeKeys(shard, low, high);
      forall k | k in tree
        ensures range.Some? && Between(range.value.0, range.value.1, Encode(k.0, k.1)) <==>
                k.0 == shard && k.1.LogEntry? && InBounds(low, high, k.1.index)
      {
        LogRangeExact(shard, low, high, k.0, k.1);
      }
      hide LogRangeKeys, InBounds;
      var keys := {};
      if range.Some? {
        keys := CollectKeys(range.value.0, range.value.1);
      }
      assert IndexesOf(keys) == IndexesIn(tree, shard, low, high);
      KeysHeld(keys);
      entries := WalkEntries(keys);
    }

    /** One transaction for the whole batch. */
    method Append(entries: seq<Entry>)
      requires Valid() && forall i :: 0 <= i < |entries| ==> entries[i].logId.index <= U64_MAX
      modifies `tree
      ensures Valid() && tree == WithEntries(old(tree), shard, entries)
    {
      var txn := tree;
      for i := 0 to |entries|
        invariant tree == old(tree) && TreeOk(txn) && txn == WithEntries(tree, shard, entries[..i])
      {
        assert entries[..i + 1][..i] == entries[..i];
        txn := txn[(shard, LogEntry(entries[i].logId.index)) := EntryCell(entries[i])];
      }
      assert entries[..|entries|] == entries;
      tree := txn;
    }

    /** Removes the entry and everything after it. */
    method Truncate(index: nat)
      requires Valid() && index <= U64_MAX
      modifies `tree
      ensures Valid() && tree == Without(old(tree), shard, Included(index), Unbounded)
    {
      DeleteRange(Included(index), Unbounded);
    }

    /** The first transaction of a purge: the mark. A crash may follow it. */
    method MarkPurged(logId: LogId)
      requires Valid()
      modifies `tree
      ensures Valid() && tree == Marked(old(tree), shard, logId)
    {
      tree := tree[(shard, LastPurged) := PurgedCell(logId)];
    }

    /** Marks, then removes the entry and everything before it. */
    method Purge(logId: LogId)
      requires Valid() && logId.index <= U64_MAX
      modifies `tree
      ensures Valid() && tree == Without(Marked(old(tree), shard, logId), shard, Unbounded, Included(logId.index))
    {
      MarkPurged(logId);
      DeleteRange(Unbounded, Included(logId.index));
    }

    /** What a restart sees: the purge mark, and the last entry's id or, when the log is empty, the mark again. */
    method GetLogState() returns (lastPurged: Option<LogId>, lastLogId: Option<LogId>)
      requires Valid()
      ensures lastPurged == LastPurgedOf(tree, shard)
      ensures forall m: nat :: Greatest(tree, shard, m) ==> lastLogId == Some(tree[(shard, LogEntry(m))].entry.logId)
      ensures (forall i: nat :: !Stored(tree, shard, i)) ==> lastLogId == lastPurged
    {
      lastPurged := LastPurgedOf(tree, shard);
      var last := LastIndex();
      lastLogId := if last.Some? then Some(tree[(shard, LogEntry(last.value))].entry.logId) else lastPurged;
    }

    /** The index of the last key of the log's byte range. */
    method LastIndex() returns (last: Option<nat>)
      requires Valid()
      ensures last.Some? ==> Greatest(tree, shard, last.value)
      ensures last.None? ==> forall i: nat :: !Stored(tree, shard, i)
    {
      hide Encode, Between, LogUpper;
      forall k | k in tree
        ensures Between(LogPrefix(shard), LogUpper(shard), Encode(k.0, k.1)) <==> k.0 == shard && k.1.LogEntry?
      {
        WholeLogExact(shard, k.0, k.1);
      }
      var keys := CollectKeys(LogPrefix(shard), LogUpper(shard));
      if keys == {} {
        forall i: nat ensures !Stored(tree, shard, i) {
          assert (shard, LogEntry(i)) !in keys;
        }
        return None;
      }
      LastKeyExists(keys);
      var k :| k in keys && forall j :: j in keys ==> AtMost(Encode(j.0, j.1), Encode(k.0, k.1));
      assert k == (shard, LogEntry(k.1.index));
      forall i: nat | Stored(tree, shard, i) ensures i <= k.1.index {
        assert (shard, LogEntry(i)) in keys;
        LogKeysByIndex(shard, k.1.index, i);
      }
      return Some(k.1.index);
    }
  }

  // ---------------------------------------------------------------- runs with crashes

  /** A purge may be cut by a crash after its mark. */
  datatype LogOp = AppendOp(entries: seq<Entry>) | TruncateOp(index: nat) | PurgeOp(logId: LogId, swept: bool)

  function AfterOp(tree: Tree, shard: nat, op: LogOp): Tree {
    match op
    case AppendOp(entries) => WithEntries(tree, shard, entries)
    case TruncateOp(index) => Without(tree, shard, Included(index), Unbounded)
    case PurgeOp(logId, swept) =>
      if swept then Without(Marked(tree, shard, logId), shard, Unbounded, Included(logId.index))
        else Marked(tree, shard, logId)
  }

  function Indexes(entries: seq<Entry>): set<nat> {
    set i | 0 <= i < |entries| :: entries[i].logId.index
  }

  /** The indexes that were appended and not truncated since. */
  function LiveAfter(live: set<nat>, op: LogOp): set<nat> {
    match op
    case AppendOp(entries) => live + Indexes(entries)
    case TruncateOp(index) => set i | i in live && i < index
    case PurgeOp(_, _) => live
  }

  /** Every live index is still stored or covered by the purge mark. */
  ghost predicate Covered(tree: Tree, shard: nat, live: set<nat>) {
    forall i :: i in live ==>
      Stored(tree, shard, i) || (LastPurgedOf(tree, shard).Some? && i <= LastPurgedOf(tree, shard).value.index)
  }

  /** Purges only move forward. */
  ghost predicate Forward(tree: Tree, shard: nat, op: LogOp) {
    op.PurgeOp? && LastPurgedOf(tree, shard).Some? ==> LastPurgedOf(tree, shard).value.index <= op.logId.index
  }

  lemma {:induction false} WithEntriesFacts(tree: Tree, shard: nat, entries: seq<Entry>, i: nat)
    ensures Stored(WithEntries(tree, shard, entries), shard, i) <==> Stored(tree, shard, i) || i in Indexes(entries)
    ensures LastPurgedOf(WithEntries(tree, shard, entries), shard) == LastPurgedOf(tree, shard)
    decreases |entries|
  {
    if entries != [] {
      var front, last := entries[..|entries| - 1], entries[|entries| - 1];
      WithEntriesFacts(tree, shard, front, i);
      assert entries == front + [last];
      assert i in Indexes(entries) <==> i in Indexes(front) || i == last.logId.index by {
        if i in Indexes(front) {
          var j :| 0 <= j < |front| && front[j].logId.index == i;
          assert entries[j].logId.index == i;
        }
        if i == last.logId.index {
          assert entries[|entries| - 1].logId.index == i;
        }
      }
    }
  }

  lemma OpCovers(tree: Tree, shard: nat, live: set<nat>, op: LogOp)
    requires Covered(tree, shard, live) && Forward(tree, shard, op)
    ensures Covered(AfterOp(tree, shard, op), shard, LiveAfter(live, op))
  {
    forall i | i in LiveAfter(live, op)
      ensures var t := AfterOp(tree, shard, op);
              Stored(t, shard, i) || (LastPurgedOf(t, shard).Some? && i <= LastPurgedOf(t, shard).value.index)
    {
      if op.AppendOp? {
        WithEntriesFacts(tree, shard, op.entries, i);
        hide WithEntries, Indexes;
      }
    }
  }

  function AfterOps(tree: Tree, shard: nat, ops: seq<LogOp>): Tree
    decreases |ops|
  {
    if ops == [] then tree else AfterOps(AfterOp(tree, shard, ops[0]), shard, ops[1..])
  }

  function LiveAfterAll(live: set<nat>, ops: seq<LogOp>): set<nat>
    decreases |ops|
  {
    if ops == [] then live else LiveAfterAll(LiveAfter(live, ops[0]), ops[1..])
  }

  ghost predicate AllForward(tree: Tree, shard: nat, ops: seq<LogOp>)
    decreases |ops|
  {
    ops == [] || (Forward(tree, shard, ops[0]) && AllForward(AfterOp(tree, shard, ops[0]), shard, ops[1..]))
  }

  /**
   * At every crash point of a run whose purges move forward, each appended and untruncated index is still stored
   * or covered by the purge mark: a restart never takes it for an entry that was never there.
   */
  lemma {:induction false} RunsCover(tree: Tree, shard: nat, live: set<nat>, ops: seq<LogOp>)
    requires Covered(tree, shard, live) && AllForward(tree, shard, ops)
    ensures Covered(AfterOps(tree, shard, ops), shard, LiveAfterAll(live, ops))
    decreases |ops|
  {
    hide Covered, AfterOp, LiveAfter, Forward;
    if ops != [] {
      OpCovers(tree, shard, live, ops[0]);
      RunsCover(AfterOp(tree, shard, ops[0]), shard, LiveAfter(live, ops[0]), ops[1..]);
    }
  }

  /** A purge keeps the cover exactly when no live index it leaves unmarked is already gone. */
  lemma PurgeCoversExactly(tree: Tree, shard: nat, live: set<nat>, logId: LogId, swept: bool)
    requires Covered(tree, shard, live)
    ensures Covered(AfterOp(tree, shard, PurgeOp(logId, swept)), shard, live) <==>
            forall i :: i in live && i > logId.index ==> Stored(tree, shard, i)
  {
    var t := AfterOp(tree, shard, PurgeOp(logId, swept));
    assert LastPurgedOf(t, shard) == Some(logId);
    forall i: nat ensures Stored(t, shard, i) <==> Stored(tree, shard, i) && (swept ==> i > logId.index) {
    }
  }

  /**
   * When the live indexes are a contiguous range that reaches past the mark, as raft keeps them, the tree alone
   * decides: a purge keeps the cover exactly when every index after it up to the old mark is still stored.
   */
  lemma PurgeCoversOnTree(tree: Tree, shard: nat, live: set<nat>, low: nat, high: nat, logId: LogId, swept: bool)
    requires Covered(tree, shard, live) && (forall i :: i in live <==> low <= i < high) && low <= logId.index + 1
    requires LastPurgedOf(tree, shard).Some? ==> LastPurgedOf(tree, shard).value.index < high
    ensures Covered(AfterOp(tree, shard, PurgeOp(logId, swept)), shard, live) <==>
            LastPurgedOf(tree, shard).None? ||
            forall i: nat :: logId.index < i <= LastPurgedOf(tree, shard).value.index ==> Stored(tree, shard, i)
  {
    PurgeCoversExactly(tree, shard, live, logId, swept);
    hide AfterOp, Stored, LastPurgedOf;
  }

  /** So a purge that moves back forgets: the mark no longer covers what an earlier purge removed. */
  lemma BackwardPurgeForgets(shard: nat, entry: Entry, far: LogId, near: LogId)
    requires near.index < entry.logId.index <= far.index
    ensures var ops := [AppendOp([entry]), PurgeOp(far, true), PurgeOp(near, true)];
            !Covered(AfterOps(map[], shard, ops), shard, LiveAfterAll({}, ops))
  {
    var i := entry.logId.index;
    var t1 := AfterOp(map[], shard, AppendOp([entry]));
    var t2 := AfterOp(t1, shard, PurgeOp(far, true));
    var t3 := AfterOp(t2, shard, PurgeOp(near, true));
    var ops := [AppendOp([entry]), PurgeOp(far, true), PurgeOp(near, true)];
    assert ops[1..] == [PurgeOp(far, true), PurgeOp(near, true)] && ops[1..][1..] == [PurgeOp(near, true)];
    assert [PurgeOp(near, true)][1..] == [];
    var live := LiveAfter({}, AppendOp([entry]));
    assert AfterOps(t2, shard, [PurgeOp(near, true)]) == t3 && LiveAfterAll(live, [PurgeOp(near, true)]) == live;
    assert AfterOps(t1, shard, ops[1..]) == t3 && LiveAfterAll(live, ops[1..]) == live;
    assert [entry][0].logId.index in live;
    assert !Stored(t3, shard, i) && LastPurgedOf(t3, shard) == Some(near);
  }
}
