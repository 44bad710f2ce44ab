/**
 * What a channel of the follow pipeline says about one partition: a chain of effects that starts at one
 * position of the partition's log and ends at another, with nothing missing and nothing twice.
 */
module FeedChain {
  import opened Base
  import opened Aggregate
  import opened StoreReads

  /** What one element of a channel means for one partition. */
  datatype Effect =
    | Nothing
    | Emits(position: nat, event: StoredEvent)
    | Reaches(next: nat)
    | Broken

  /** Where a partition stands in a channel; nowhere yet while a follow from now has not learnt its head. */
  type Place = Option<nat>

  function After(e: Effect, from: Place): Place {
    match e
    case Nothing => from
    case Emits(position, _) => Some(position + 1)
    case Reaches(next) => Some(next)
    case Broken => from
  }

  /**
   * An effect in place: it emits the log's event there, reports that place, or says for the first time where that
   * is.
   */
  predicate InPlace(e: Effect, log: seq<StoredEvent>, from: Place) {
    match e
    case Nothing => true
    case Emits(position, event) => from == Some(position) && position < |log| && event == log[position]
    case Reaches(next) => if from.None? then next <= |log| else from == Some(next)
    case Broken => false
  }

  predicate Chain(es: seq<Effect>, log: seq<StoredEvent>, from: Place, to: Place)
    decreases |es|
  {
    if es == [] then from == to
    else InPlace(es[0], log, from) && Chain(es[1..], log, After(es[0], from), to)
  }

  lemma {:induction false} ChainConcat(a: seq<Effect>, b: seq<Effect>, log: seq<StoredEvent>, from: Place, mid: Place,
                                       to: Place)
    requires Chain(a, log, from, mid) && Chain(b, log, mid, to)
    ensures Chain(a + b, log, from, to)
    decreases |a|
  {
    if a == [] {
      assert a + b == b;
    } else {
      assert (a + b)[1..] == a[1..] + b;
      ChainConcat(a[1..], b, log, After(a[0], from), mid, to);
    }
  }

  lemma ChainSnoc(es: seq<Effect>, e: Effect, log: seq<StoredEvent>, from: Place, mid: Place)
    requires Chain(es, log, from, mid) && InPlace(e, log, mid)
    ensures Chain(es + [e], log, from, After(e, mid))
  {
    assert [e][1..] == [];
    assert Chain([e], log, mid, After(e, mid));
    ChainConcat(es, [e], log, from, mid, After(e, mid));
  }

  // ---------------------------------------------------------------- a shard's log

  /** A partition's log carries its own positions, from zero, below the last one. */
  ghost predicate InOrder(log: seq<StoredEvent>, p: nat) {
    forall q :: 0 <= q < |log| ==> log[q].position == q && log[q].partition == p && q < U64_MAX
  }

  /** A partition's part of a shard log numbers its events from zero. */
  ghost predicate Numbered(log: seq<StoredEvent>, ty: TypeId, p: nat) {
    InOrder(Announced(log, ty, p), p)
  }

  /** How many events of the partition the first `c` events of the shard hold. */
  function Head(log: seq<StoredEvent>, c: nat, ty: TypeId, p: nat): nat
    requires c <= |log|
  {
    |Announced(log[..c], ty, p)|
  }

  lemma AnnouncedNext(log: seq<StoredEvent>, c: nat, ty: TypeId, p: nat)
    requires c < |log|
    ensures Announced(log[..c + 1], ty, p) ==
            if log[c].aggregateType == ty && log[c].partition == p then Announced(log[..c], ty, p) + [log[c]]
            else Announced(log[..c], ty, p)
  {
    assert log[..c + 1] == log[..c] + [log[c]];
    AnnouncedSnoc(log[..c], log[c], ty, p);
  }

  lemma {:induction false} AnnouncedPrefix(log: seq<StoredEvent>, c: nat, d: nat, ty: TypeId, p: nat)
    requires c <= d <= |log|
    ensures Announced(log[..c], ty, p) <= Announced(log[..d], ty, p)
    decreases d - c
  {
    if c < d {
      AnnouncedPrefix(log, c, d - 1, ty, p);
      AnnouncedNext(log, d - 1, ty, p);
      hide Announced;
    }
  }

  lemma HeadMonotone(log: seq<StoredEvent>, c: nat, d: nat, ty: TypeId, p: nat)
    requires c <= d <= |log|
    ensures Head(log, c, ty, p) <= Head(log, d, ty, p) <= |Announced(log, ty, p)|
    ensures Announced(log[..d], ty, p) == Announced(log, ty, p)[..Head(log, d, ty, p)]
  {
    AnnouncedPrefix(log, c, d, ty, p);
    AnnouncedPrefix(log, d, |log|, ty, p);
    assert log[..|log|] == log;
    hide Announced;
  }

  /** The next event of a shard is its partition's event at that partition's head. */
  lemma EventAtHead(log: seq<StoredEvent>, c: nat, ty: TypeId, p: nat)
    requires c < |log| && log[c].aggregateType == ty && log[c].partition == p
    ensures Head(log, c, ty, p) < |Announced(log, ty, p)|
    ensures Announced(log, ty, p)[Head(log, c, ty, p)] == log[c]
    ensures Head(log, c + 1, ty, p) == Head(log, c, ty, p) + 1
  {
    AnnouncedNext(log, c, ty, p);
    HeadMonotone(log, c, c + 1, ty, p);
    hide Announced;
    var short := Announced(log[..c + 1], ty, p);
    assert short[|short| - 1] == log[c];
  }

  lemma OtherKeepsHead(log: seq<StoredEvent>, c: nat, ty: TypeId, p: nat)
    requires c < |log| && !(log[c].aggregateType == ty && log[c].partition == p)
    ensures Head(log, c + 1, ty, p) == Head(log, c, ty, p)
  {
    AnnouncedNext(log, c, ty, p);
  }
}
