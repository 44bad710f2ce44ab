/**
 * How a fetch builds the candidates of a claim, and why they are the window the consumer-group guarantees ask for:
 * the partition's log, read from the checkpoint, in order, as first deliveries.
 */
module GroupFetch {
  import opened Base
  import opened Aggregate
  import opened StateMachine
  import opened StoreInvariant
  import opened StoreReads
  import Group = AggregateGroup
  import Invariant = AggregateGroupInvariant

  /** How many events one fetch looks at. */
  function ScanLimit(maxEvents: nat): (n: nat)
    ensures 32 <= n <= 4096
    ensures 2 <= maxEvents <= 256 ==> n == 16 * maxEvents
  {
    var wanted := Group.SatMul64(Max(maxEvents, 1), 16);
    Max(32, Min(wanted, 4096))
  }

  function CandidateFor(e: StoredEvent, deliveryId: Uuid): Group.Candidate {
    Group.Candidate(deliveryId, e.position, e.aggregateId, e.version, e.eventId, |e.data| + |e.metadata|, false)
  }

  /** An event as a consumer group sees it. */
  function AsSeen(e: StoredEvent): Invariant.LogEvent {
    Invariant.LogEvent(e.aggregateId, e.version, e.eventId, |e.data| + |e.metadata|)
  }

  /** The partition's log as a consumer group sees it. */
  ghost function GroupLog(s: Store, ty: TypeId, p: nat): (log: Invariant.Log)
    requires Sound(s, ty, p)
    ensures |log| == NextOf(s, ty, p)
  {
    seq(NextOf(s, ty, p), q requires 0 <= q < NextOf(s, ty, p) && Resolves(s, ty, p, q) =>
      AsSeen(EventOf(s, ty, p, q)))
  }

  /** One candidate per event read, in the order read. */
  method BuildCandidates(events: seq<StoredEvent>, ids: seq<Uuid>) returns (candidates: seq<Group.Candidate>)
    requires |ids| == |events|
    ensures |candidates| == |events|
    ensures forall i :: 0 <= i < |events| ==> candidates[i] == CandidateFor(events[i], ids[i])
  {
    candidates := [];
    for i := 0 to |events|
      invariant |candidates| == i && forall j :: 0 <= j < i ==> candidates[j] == CandidateFor(events[j], ids[j])
    {
      candidates := candidates + [CandidateFor(events[i], ids[i])];
    }
  }

  /** Reading from the checkpoint and building candidates gives a contiguous window that starts at the checkpoint. */
  lemma CandidatesAreWindow(s: Store, ty: TypeId, p: nat, from: nat, limit: nat, events: seq<StoredEvent>,
                            ids: seq<Uuid>,
                            candidates: seq<Group.Candidate>)
    requires Sound(s, ty, p) && IsSlice(s, ty, p, from, limit, events)
    requires |ids| == |events| == |candidates|
    requires forall i :: 0 <= i < |events| ==> candidates[i] == CandidateFor(events[i], ids[i])
    ensures Invariant.Window(candidates, GroupLog(s, ty, p))
    ensures candidates != [] ==> candidates[0].position == from
    ensures candidates == [] <==> NextOf(s, ty, p) <= from
    ensures forall i :: 0 <= i < |candidates| ==>
              && Resolves(s, ty, p, from + i) && candidates[i].deliveryId == ids[i]
              && candidates[i].payloadBytes == |EventOf(s, ty, p, from + i).data| + |EventOf(s, ty, p, from + i).metadata|
  {
    hide Typed, VersionsDense, VersionsOrdered, RecordsExact, EventsIndexed, NextOf;
    var log := GroupLog(s, ty, p);
    forall i | 0 <= i < |candidates|
      ensures candidates[i].position == from + i < |log|
      ensures candidates[i].aggregateId == log[from + i].aggregateId && candidates[i].version == log[from + i].version
      ensures candidates[i].eventId == log[from + i].eventId && !candidates[i].replayed
    {
      assert Resolves(s, ty, p, from + i) && events[i] == EventOf(s, ty, p, from + i);
      assert EventOf(s, ty, p, from + i).position == from + i;
    }
  }

  /**
   * The window a fetch builds stays a window of the log by the time the claim is applied: the partition may have
   * grown in between, but nothing it already held has moved.
   */
  lemma WindowSurvivesGrowth(candidates: seq<Group.Candidate>, log: Invariant.Log, longer: Invariant.Log)
    requires Invariant.Window(candidates, log) && log <= longer
    ensures Invariant.Window(candidates, longer)
  {
    forall i | 0 <= i < |candidates|
      ensures var c := candidates[i];
              && c.position == candidates[0].position + i < |longer|
              && c.aggregateId == longer[c.position].aggregateId && c.version == longer[c.position].version
              && c.eventId == longer[c.position].eventId && !c.replayed
    {
      assert candidates[i].position < |log|;
    }
  }
}
