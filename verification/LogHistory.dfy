/**
 * The raft log told by its history: which entry a log holds at an index, and how far it says it was purged, read off
 * the appends, truncations and purges so far, whole or cut by a crash.
 */
module LogHistory {
  import opened Base
  import opened Keys
  import opened StateMachine
  import opened LogStore

  /** The last of some entries at an index. */
  function LastAt(entries: seq<Entry>, i: nat): Option<Entry> {
    if entries == [] then None
    else
      var last := entries[|entries| - 1];
      if last.logId.index == i then Some(last) else LastAt(entries[..|entries| - 1], i)
  }

  /** What an operation leaves at an index. */
  function HeldAfter(before: Option<Entry>, op: LogOp, i: nat): Option<Entry> {
    match op
    case AppendOp(entries) => if LastAt(entries, i).Some? then LastAt(entries, i) else before
    case TruncateOp(index) => if index <= i then None else before
    case PurgeOp(logId, swept) => if swept && i <= logId.index then None else before
  }

  /** The entry appended last at an index, unless it was truncated or swept since. */
  function EntryIn(ops: seq<LogOp>, i: nat): Option<Entry> {
    if ops == [] then None else HeldAfter(EntryIn(ops[..|ops| - 1], i), ops[|ops| - 1], i)
  }

  /** The mark of the last purge, swept or not. */
  function MarkIn(ops: seq<LogOp>): Option<LogId> {
    if ops == [] then None
    else if ops[|ops| - 1].PurgeOp? then Some(ops[|ops| - 1].logId)
    else MarkIn(ops[..|ops| - 1])
  }

  function Held(tree: Tree, shard: nat, i: nat): Option<Entry> {
    var k := (shard, LogEntry(i));
    if k in tree && tree[k].EntryCell? then Some(tree[k].entry) else None
  }

  lemma {:induction false} AppendedHeld(tree: Tree, shard: nat, entries: seq<Entry>, i: nat)
    ensures Held(WithEntries(tree, shard, entries), shard, i) ==
            if LastAt(entries, i).Some? then LastAt(entries, i) else Held(tree, shard, i)
    ensures forall k: (nat, Key) :: k.0 != shard || !k.1.LogEntry? ==>
              (k in WithEntries(tree, shard, entries) <==> k in tree) &&
              (k in tree ==> WithEntries(tree, shard, entries)[k] == tree[k])
    decreases |entries|
  {
    if entries != [] { AppendedHeld(tree, shard, entries[..|entries| - 1], i); }
  }

  lemma OpHeld(tree: Tree, shard: nat, op: LogOp, i: nat)
    ensures Held(AfterOp(tree, shard, op), shard, i) == HeldAfter(Held(tree, shard, i), op, i)
    ensures LastPurgedOf(AfterOp(tree, shard, op), shard) ==
            if op.PurgeOp? then Some(op.logId) else LastPurgedOf(tree, shard)
  {
    if op.AppendOp? {
      AppendedHeld(tree, shard, op.entries, i);
      hide WithEntries;
    }
  }

  /** Nothing but this shard's log and its mark is touched. */
  lemma OpLeavesOthers(tree: Tree, shard: nat, op: LogOp, k: (nat, Key))
    requires k.0 != shard || !(k.1.LogEntry? || k.1.LastPurged?)
    ensures k in AfterOp(tree, shard, op) <==> k in tree
    ensures k in tree ==> AfterOp(tree, shard, op)[k] == tree[k]
  {
    if op.AppendOp? {
      AppendedHeld(tree, shard, op.entries, 0);
      hide WithEntries;
    }
  }

  lemma {:induction false} OpsSnoc(tree: Tree, shard: nat, ops: seq<LogOp>, op: LogOp)
    ensures AfterOps(tree, shard, ops + [op]) == AfterOp(AfterOps(tree, shard, ops), shard, op)
    decreases |ops|
  {
    hide AfterOp;
    var all := ops + [op];
    if ops == [] {
      assert all[1..] == [];
    } else {
      assert all[0] == ops[0] && all[1..] == ops[1..] + [op];
      OpsSnoc(AfterOp(tree, shard, ops[0]), shard, ops[1..], op);
    }
  }

  /**
   * A log is its history. After any run of appends, truncations and purges from an empty log, with purges cut by a
   * crash or not, the log holds at every index the entry appended there last, unless it was truncated or swept since,
   * and its mark is that of the last purge; and whatever other shards and other families keep in the tree is as it was.
   */
  lemma {:induction false} LogIsHistory(tree: Tree, shard: nat, ops: seq<LogOp>)
    requires forall i: nat :: (shard, LogEntry(i)) !in tree
    requires LastPurgedOf(tree, shard).None?
    ensures forall i: nat :: Held(AfterOps(tree, shard, ops), shard, i) == EntryIn(ops, i)
    ensures LastPurgedOf(AfterOps(tree, shard, ops), shard) == MarkIn(ops)
    ensures forall k: (nat, Key) :: k.0 != shard || !(k.1.LogEntry? || k.1.LastPurged?) ==>
              (k in AfterOps(tree, shard, ops) <==> k in tree) && (k in tree ==> AfterOps(tree, shard, ops)[k] == tree[k])
    decreases |ops|
  {
    hide AfterOp, LastPurgedOf;
    if ops != [] {
      var before, last := ops[..|ops| - 1], ops[|ops| - 1];
      assert ops == before + [last];
      LogIsHistory(tree, shard, before);
      OpsSnoc(tree, shard, before, last);
      var t := AfterOps(tree, shard, before);
      hide AfterOps, Held, HeldAfter;
      forall i: nat ensures Held(AfterOp(t, shard, last), shard, i) == EntryIn(ops, i) { OpHeld(t, shard, last, i); }
      OpHeld(t, shard, last, 0);
      forall k: (nat, Key) | k.0 != shard || !(k.1.LogEntry? || k.1.LastPurged?)
        ensures (k in AfterOp(t, shard, last) <==> k in tree) && (k in tree ==> AfterOp(t, shard, last)[k] == tree[k])
      {
        OpLeavesOthers(t, shard, last, k);
      }
    }
  }
}
