/**
 * Runs of a consumer-group partition: the log grows, requests arrive in any order, and a request with
 * a higher epoch resets the progress. Everything here holds after every admissible run.
 */
module AggregateGroupRuns {
  import opened Base
  import opened AggregateGroup
  import opened AggregateGroupInvariant

  /** One step of the system: an event reaches the partition log, or a request reaches the partition. */
  datatype Event =
    | Append(event: LogEvent)
    | Request(groupEpoch: nat, start: nat, settings: Settings, command: Command)

  /** The stored progress, the start of its epoch, the partition log, and the outcomes of this epoch. */
  datatype System = System(state: Partition, start: nat, log: Log, trace: seq<Outcome>)

  function Initial(epoch: nat, start: nat, log: Log): System {
    System(New(epoch, start), start, log, [])
  }

  /** A request of a newer epoch discards the old progress first. */
  function Enter(sys: System, groupEpoch: nat, start: nat): System {
    if sys.state.epoch < groupEpoch then Initial(groupEpoch, start, sys.log) else sys
  }

  function Step(sys: System, e: Event): System {
    match e
    case Append(event) => sys.(log := sys.log + [event])
    case Request(groupEpoch, start, settings, command) =>
      if !settings.Valid() || sys.state.epoch > groupEpoch then sys
      else
        var entered := Enter(sys, groupEpoch, start);
        var done := Execute(entered.state, groupEpoch, settings, command);
        entered.(state := done.state, trace := entered.trace + done.trace)
  }

  /** How the server builds a claim: a log window that begins at or before the checkpoint, with fresh ids. */
  ghost predicate WellBuilt(sys: System, command: Command) {
    command.ClaimCommand? ==>
      && Window(command.candidates, sys.log)
      && Fresh(command.candidates, sys.state)
      && (command.candidates != [] ==> command.candidates[0].position <= sys.state.next)
  }

  /** Appends stop before the last position, and a reset starts inside the log. */
  ghost predicate Admissible(sys: System, e: Event) {
    match e
    case Append(_) => |sys.log| < U64_MAX
    case Request(groupEpoch, start, settings, command) =>
      start <= |sys.log| && WellBuilt(Enter(sys, groupEpoch, start), command)
  }

  function Run(sys: System, events: seq<Event>): System
    decreases events
  {
    if events == [] then sys else Run(Step(sys, events[0]), events[1..])
  }

  ghost predicate AdmissibleRun(sys: System, events: seq<Event>)
    decreases events
  {
    events == [] || (Admissible(sys, events[0]) && AdmissibleRun(Step(sys, events[0]), events[1..]))
  }

  ghost predicate Good(sys: System) {
    Inv(sys.state, sys.start, sys.log, sys.trace)
  }

  // ---------------------------------------------------------------- commands keep the invariant

  lemma NewIsGood(epoch: nat, start: nat, log: Log)
    requires start <= |log| <= U64_MAX
    ensures Good(Initial(epoch, start, log))
  {
    var s := New(epoch, start);
    assert Out(s) == {};
    assert forall p: nat :: Resolved(s, p) <==> p < start;
  }

  lemma SettledStays(trace: seq<Outcome>, more: seq<Outcome>, p: nat)
    requires WasSettled(trace, p)
    ensures WasSettled(trace + more, p)
  {
    var i :| 0 <= i < |trace| && trace[i].Settles(p);
    assert (trace + more)[i].Settles(p);
  }

  /** The history pins the checkpoint from below: it never moves back. */
  lemma CheckpointMonotone(s: Partition, t: Partition, start: nat, log: Log, trace: seq<Outcome>, more: seq<Outcome>)
    requires Frontier(s, start, log) && Exact(s, start, trace)
    requires Frontier(t, start, log) && Exact(t, start, trace + more)
    ensures s.next <= t.next
  {
    forall p: nat | start <= p && Resolved(s, p) ensures Resolved(t, p) {
      SettledStays(trace, more, p);
    }
    assert !Resolved(t, t.next);
  }

  lemma {:induction false} ExpireAllShrinks(s: Partition, ids: seq<Uuid>, nowMs: nat, settings: Settings)
    ensures var m := ExpireAll(s, ids, nowMs, settings);
            && m.state.deliveries.Keys <= s.deliveries.Keys
            && (forall i :: i in m.state.deliveries ==> m.state.deliveries[i] == s.deliveries[i])
    decreases ids
  {
    if ids != [] {
      if ids[0] !in s.deliveries {
        ExpireAllShrinks(s, ids[1..], nowMs, settings);
      } else {
        var m := RetryOrPark(WithoutDelivery(s, ids[0]), s.deliveries[ids[0]], ACK_TIMEOUT, nowMs, settings);
        assert m.state.deliveries == s.deliveries - {ids[0]};
        ExpireAllShrinks(m.state, ids[1..], nowMs, settings);
      }
    }
  }

  lemma ExpireKeeps(s: Partition, nowMs: nat, settings: Settings, start: nat, log: Log, trace: seq<Outcome>)
    requires Inv(s, start, log, trace)
    ensures var r := Expire(s, nowMs, settings);
            && Inv(r.state, start, log, trace + r.trace)
            && s.next <= r.state.next
            && r.state.deliveries.Keys <= s.deliveries.Keys
  {
    var ids := Ascending(ExpiredIds(s, nowMs));
    var m := ExpireAll(s, ids, nowMs, settings);
    ExpireAllKeeps(s, ids, nowMs, settings, start, log, trace);
    ReleaseKeeps(m.state, start, log, trace + m.trace);
    ExpireAllShrinks(s, ids, nowMs, settings);
    CheckpointMonotone(s, Expire(s, nowMs, settings).state, start, log, trace, m.trace);
  }

  lemma ReadyToClaim(s: Partition, t: Partition, candidates: seq<Candidate>, log: Log)
    requires Window(candidates, log) && Fresh(candidates, s)
    requires candidates != [] ==> candidates[0].position <= t.next
    requires t.deliveries.Keys <= s.deliveries.Keys
    ensures Ready(t, candidates, log)
  {
  }

  lemma ClaimKeeps(s: Partition, consumer: Text, nowMs: nat, deadlineMs: nat, settings: Settings, maxClaim: nat,
                   maxBytes: nat,
                   candidates: seq<Candidate>, start: nat, log: Log, trace: seq<Outcome>)
    requires Inv(s, start, log, trace)
    requires Window(candidates, log) && Fresh(candidates, s)
    requires candidates != [] ==> candidates[0].position <= s.next
    ensures var r := Claim(s, consumer, nowMs, deadlineMs, settings, maxClaim, maxBytes, candidates);
            Inv(r.state, start, log, trace + r.trace)
  {
    hide Inv, ClaimFrom, Expire, AvailableCredit;
    assert trace + [] == trace;
    if Refused(consumer, nowMs, deadlineMs, settings, maxClaim, maxBytes) { return; }
    ExpireKeeps(s, nowMs, settings, start, log, trace);
    var e := Expire(s, nowMs, settings);
    ReadyToClaim(s, e.state, candidates, log);
    WalkKeeps(e, Call(consumer, nowMs, deadlineMs, maxBytes),
              Min(AvailableCredit(e.state, consumer, settings), maxClaim),
              candidates, start, log, trace);
  }

  lemma WalkKeeps(e: Expired, call: Call, credit: nat, candidates: seq<Candidate>, start: nat, log: Log,
                  trace: seq<Outcome>)
    requires Inv(e.state, start, log, trace + e.trace) && Ready(e.state, candidates, log)
    ensures var r := ClaimFrom(e.state, call, credit, 0, true, candidates);
            Inv(r.state, start, log, trace + (e.trace + r.trace))
  {
    hide Inv, Ready, ClaimFrom;
    ClaimFromKeeps(e.state, call, credit, 0, true, candidates, start, log, trace + e.trace);
    var r := ClaimFrom(e.state, call, credit, 0, true, candidates);
    assert trace + (e.trace + r.trace) == (trace + e.trace) + r.trace;
  }

  lemma ExecuteKeeps(s: Partition, groupEpoch: nat, settings: Settings, command: Command, start: nat, log: Log,
                     trace: seq<Outcome>)
    requires Inv(s, start, log, trace)
    requires WellBuilt(System(s, start, log, trace), command)
    ensures var r := Execute(s, groupEpoch, settings, command);
            Inv(r.state, start, log, trace + r.trace)
  {
    hide Shape, History, LeasesTight, Claim, SettleAll, RenewAll, Expire, ReleaseUnusedLeases, Window, Fresh;
    assert trace + [] == trace;
    match command
    case ClaimCommand(consumer, nowMs, deadlineMs, maxClaim, maxBytes, candidates) =>
      ClaimKeeps(s, consumer, nowMs, deadlineMs, settings, maxClaim, maxBytes, candidates, start, log, trace);
    case SettleCommand(consumer, nowMs, items) =>
      if groupEpoch == s.epoch {
        SettleAllKeeps(s, consumer, nowMs, settings, items, start, log, trace);
        var all := SettleAll(s, consumer, nowMs, settings, items);
        ReleaseKeeps(all.state, start, log, trace + all.trace);
      }
    case RenewCommand(consumer, deadlineMs, ids) =>
      if groupEpoch == s.epoch {
        RenewAllKeeps(s, consumer, deadlineMs, ids, start, log, trace);
      }
    case ExpireCommand(nowMs) =>
      ExpireKeeps(s, nowMs, settings, start, log, trace);
  }

  lemma AppendShape(s: Partition, start: nat, log: Log, event: LogEvent)
    requires Shape(s, start, log) && |log| < U64_MAX
    ensures Shape(s, start, log + [event])
  {
    OutInLog(s, log);
    AppendMirrors(s, log, event);
    hide Mirrors, Out, Separate, LeasesCover, Resolved;
  }

  lemma AppendMirrors(s: Partition, log: Log, event: LogEvent)
    requires Mirrors(s, log)
    ensures Mirrors(s, log + [event])
  {
  }

  lemma AppendInOrder(start: nat, log: Log, event: LogEvent, trace: seq<Outcome>)
    requires InOrder(start, log, trace) && WithinLog(start, log, trace)
    ensures InOrder(start, log + [event], trace)
  {
    hide WasSettled;
  }

  lemma AppendKeeps(sys: System, event: LogEvent)
    requires Good(sys) && |sys.log| < U64_MAX
    ensures Good(Step(sys, Append(event)))
  {
    AppendShape(sys.state, sys.start, sys.log, event);
    AppendInOrder(sys.start, sys.log, event, sys.trace);
    hide Shape, InOrder, Exact, Final;
  }

  lemma LogFits(sys: System)
    requires Good(sys)
    ensures |sys.log| <= U64_MAX
  {
  }

  lemma StepKeeps(sys: System, e: Event)
    requires Good(sys) && Admissible(sys, e)
    ensures Good(Step(sys, e))
  {
    hide Inv, WellBuilt, Execute;
    match e
    case Append(event) => AppendKeeps(sys, event);
    case Request(groupEpoch, start, settings, command) =>
      if settings.Valid() && sys.state.epoch <= groupEpoch {
        var entered := Enter(sys, groupEpoch, start);
        LogFits(sys);
        if sys.state.epoch < groupEpoch { NewIsGood(groupEpoch, start, sys.log); }
        assert entered == System(entered.state, entered.start, entered.log, entered.trace);
        ExecuteKeeps(entered.state, groupEpoch, settings, command, entered.start, entered.log, entered.trace);
      }
  }

  /** Every state of every admissible run satisfies the invariant. */
  lemma {:induction false} RunKeeps(sys: System, events: seq<Event>)
    requires Good(sys) && AdmissibleRun(sys, events)
    ensures Good(Run(sys, events))
    decreases events
  {
    hide Good, Admissible, Step;
    if events != [] {
      StepKeeps(sys, events[0]);
      RunKeeps(Step(sys, events[0]), events[1..]);
    }
  }

  /** A run from fresh progress. */
  ghost predicate Reachable(sys: System) {
    exists epoch: nat, start: nat, log: Log, events: seq<Event> {:trigger Run(Initial(epoch, start, log), events)} ::
      start <= |log| <= U64_MAX && AdmissibleRun(Initial(epoch, start, log),
                                                 events) && sys == Run(Initial(epoch, start, log), events)
  }

  lemma ReachableIsGood(sys: System)
    requires Reachable(sys)
    ensures Good(sys)
  {
    hide Good, AdmissibleRun, Run;
    var epoch: nat, start: nat, log: Log, events: seq<Event> :|
      start <= |log| <= U64_MAX && AdmissibleRun(Initial(epoch, start, log),
                                                 events) && sys == Run(Initial(epoch, start, log), events);
    NewIsGood(epoch, start, log);
    RunKeeps(Initial(epoch, start, log), events);
  }

  // ---------------------------------------------------------------- the properties, as a user would state them

  /**
   * Per-instance order. In every reachable state an outstanding position has all earlier events of its
   * instance resolved, and in the whole history of the epoch no event was handed out before all earlier
   * events of its instance had been acked, skipped or parked.
   */
  lemma PerInstanceOrder(sys: System)
    requires Reachable(sys)
    ensures forall p, q :: q in Out(sys.state) && sys.start <= p < q < |sys.log| && sys.log[p].aggregateId == sys.log[q].aggregateId
              ==> Resolved(sys.state, p)
    ensures forall i, p :: 0 <= i < |sys.trace| && sys.trace[i].HandedOut? && sys.start <= p < sys.trace[i].position < |sys.log|
                           && sys.log[p].aggregateId == sys.log[sys.trace[i].position].aggregateId
              ==> WasSettled(sys.trace[..i], p)
  {
    hide Reachable;
    ReachableIsGood(sys);
  }

  /**
   * Exact checkpoint. The positions below the checkpoint (from the epoch's start) and in the gap set are
   * exactly those ever acked, skipped or parked, each of them once and for good; none is outstanding, and
   * the checkpoint itself is unresolved.
   */
  lemma ExactCheckpoint(sys: System)
    requires Reachable(sys)
    ensures forall p: nat :: sys.start <= p ==> (WasSettled(sys.trace, p) <==>
            p < sys.state.next || p in sys.state.gaps)
    ensures forall g :: g in sys.state.gaps ==> sys.state.next < g < |sys.log|
    ensures forall q :: q in Out(sys.state) ==> sys.state.next <= q && q !in sys.state.gaps
    ensures forall i, j :: 0 <= i < j < |sys.trace| ==> !sys.trace[i].Settles(sys.trace[j].position)
  {
    hide Reachable;
    ReachableIsGood(sys);
    assert forall q :: q in Out(sys.state) ==> !Resolved(sys.state, q);
    forall p: nat | sys.start <= p ensures WasSettled(sys.trace, p) <==> p < sys.state.next || p in sys.state.gaps {
      assert WasSettled(sys.trace, p) <==> Resolved(sys.state, p);
    }
  }

  /** The checkpoint and gap set depend on which positions were settled, never on the order. */
  lemma CheckpointIgnoresOrder(a: System, b: System)
    requires Reachable(a) && Reachable(b) && a.start == b.start && a.log == b.log
    requires forall p: nat :: WasSettled(a.trace, p) <==> WasSettled(b.trace, p)
    ensures a.state.next == b.state.next && a.state.gaps == b.state.gaps
  {
    hide Reachable;
    ReachableIsGood(a);
    ReachableIsGood(b);
    forall p: nat | a.start <= p ensures Resolved(a.state, p) <==> Resolved(b.state, p) {
      assert WasSettled(a.trace, p) <==> WasSettled(b.trace, p);
    }
    CheckpointUnique(a.state, b.state, a.start, a.log);
  }

  /**
   * Lease safety. Deliveries and retries have pairwise distinct positions and instances, the leased
   * instances are exactly the outstanding ones, and a delivery's lease carries its consumer and deadline.
   */
  lemma LeaseSafety(sys: System)
    requires Reachable(sys)
    ensures sys.state.leases.Keys == Busy(sys.state) == InstancesAt(Out(sys.state), sys.log)
    ensures forall p, q :: p in Out(sys.state) && q in Out(sys.state) && p < |sys.log| && q < |sys.log|
                           && sys.log[p].aggregateId == sys.log[q].aggregateId
              ==> p == q
    ensures forall i, j :: i in sys.state.deliveries && j in sys.state.deliveries
                           && (sys.state.deliveries[i].position == sys.state.deliveries[j].position
                               || sys.state.deliveries[i].aggregateId == sys.state.deliveries[j].aggregateId)
              ==> i == j
    ensures forall i, p :: i in sys.state.deliveries && p in sys.state.pending
              ==> sys.state.deliveries[i].position != p && sys.state.deliveries[i].aggregateId != sys.state.pending[p].aggregateId
    ensures forall i :: i in sys.state.deliveries ==>
              var d := sys.state.deliveries[i];
              d.aggregateId in sys.state.leases &&
                sys.state.leases[d.aggregateId] == Lease(d.consumerId, sys.state.epoch, d.deadlineMs)
  {
    hide Reachable;
    ReachableIsGood(sys);
    var s := sys.state;
    BusyIsOut(s, sys.log);
    LeasedAreBusy(s);
    InstancesDistinct(s, sys.log);
  }

  lemma LeasedAreBusy(s: Partition)
    requires LeasesCover(s) && LeasesTight(s)
    ensures s.leases.Keys == Busy(s)
  {
  }

  lemma InstancesDistinct(s: Partition, log: Log)
    requires Mirrors(s, log) && Separate(s) && Exclusive(Out(s), log)
    ensures forall i, j :: i in s.deliveries && j in s.deliveries && s.deliveries[i].aggregateId == s.deliveries[j].aggregateId
              ==> i == j
    ensures forall i, p :: i in s.deliveries && p in s.pending ==> s.deliveries[i].aggregateId != s.pending[p].aggregateId
  {
    forall i, j | i in s.deliveries && j in s.deliveries && s.deliveries[i].aggregateId == s.deliveries[j].aggregateId
      ensures i == j
    {
      assert s.deliveries[i].position in Out(s) && s.deliveries[j].position in Out(s);
    }
    forall i, p | i in s.deliveries && p in s.pending ensures s.deliveries[i].aggregateId != s.pending[p].aggregateId {
      assert s.deliveries[i].position in Out(s) && p in Out(s);
    }
  }

  // ---------------------------------------------------------------- progress

  /** Nothing later of the checkpoint's instance can be outstanding. */
  lemma CheckpointUnblocked(s: Partition, start: nat, log: Log, aggregateId: Text)
    requires Shape(s, start, log) && s.next < |log| && aggregateId == log[s.next].aggregateId
    ensures !Blocked(s, aggregateId, s.next)
    ensures LeasesTight(s) && aggregateId in s.leases && s.next !in s.pending ==> Delivered(s, s.next)
  {
    assert !Resolved(s, s.next);
    forall o | o in Out(s) && log[o].aggregateId == aggregateId ensures o == s.next {
      assert !Resolved(s, o);
    }
    forall id | id in s.deliveries ensures s.deliveries[id].aggregateId == aggregateId ==> s.deliveries[id].position == s.next {
      assert s.deliveries[id].position in Out(s);
    }
    forall p | p in s.pending ensures s.pending[p].aggregateId == aggregateId ==> p == s.next {
      assert p in Out(s);
    }
  }

  ghost predicate AllFrom(deliveries: seq<Delivery>, low: nat) {
    forall i :: 0 <= i < |deliveries| ==> low <= deliveries[i].position
  }

  lemma {:induction false} ClaimedFromWindow(s: Partition, call: Call, credit: nat, bytes: nat, first: bool,
                                             candidates: seq<Candidate>, low: nat)
    requires forall i :: 0 <= i < |candidates| ==> low <= candidates[i].position
    ensures AllFrom(ClaimFrom(s, call, credit, bytes, first, candidates).deliveries, low)
    decreases candidates
  {
    if candidates == [] || credit == 0 || candidates[0].position < s.next { return; }
    var c, tail := candidates[0], candidates[1..];
    if PassedOver(s, call.consumer, call.nowMs, c) {
      ClaimedFromWindow(s, call, credit, bytes, first, tail, low);
      assert ClaimFrom(s, call, credit, bytes, first, candidates) == ClaimFrom(s, call, credit, bytes, first, tail);
    } else if first || SatAdd64(bytes, c.payloadBytes) <= call.maxBytes {
      var d := DeliveryFor(s, call.consumer, call.deadlineMs, c);
      ClaimedFromWindow(HandOut(s, d), call, credit - 1, SatAdd64(bytes, c.payloadBytes), false, tail, low);
      var rest := ClaimFrom(HandOut(s, d), call, credit - 1, SatAdd64(bytes, c.payloadBytes), false, tail);
      assert ClaimFrom(s, call, credit, bytes, first, candidates).deliveries == [d] + rest.deliveries;
    }
  }

  /** The checkpoint position can be handed to `consumer` at `nowMs`. */
  ghost predicate CheckpointFree(s: Partition, consumer: Text, nowMs: nat, aggregateId: Text) {
    && !Delivered(s, s.next)
    && (s.next in s.pending ==> s.pending[s.next].notBeforeMs <= nowMs && !LeasedElsewhere(s, aggregateId, consumer,
        nowMs))
  }

  lemma CheckpointPassedOver(s: Partition, consumer: Text, nowMs: nat, c: Candidate, start: nat, log: Log,
                             trace: seq<Outcome>)
    requires Inv(s, start, log, trace) && s.next < |log|
    requires c.position == s.next && c.aggregateId == log[s.next].aggregateId && c.eventId == log[s.next].eventId
    requires !c.replayed && c.deliveryId !in s.deliveries
    ensures PassedOver(s, consumer, nowMs, c) <==> !CheckpointFree(s, consumer, nowMs, c.aggregateId)
  {
    CheckpointUnblocked(s, start, log, c.aggregateId);
  }

  /**
   * After expiry, a claim whose window begins at the checkpoint hands the checkpoint position
   * out, first, exactly when the consumer has credit, the position is not delivered already, and a
   * pending retry of it is due and not leased to somebody else. No later event can be in the way.
   */
  lemma CheckpointHandedOut(sys: System, consumer: Text, nowMs: nat, deadlineMs: nat, settings: Settings,
                            maxClaim: nat, maxBytes: nat, candidates: seq<Candidate>)
    requires Reachable(sys)
    requires !Refused(consumer, nowMs, deadlineMs, settings, maxClaim, maxBytes)
    requires candidates != [] && Window(candidates, sys.log) && Fresh(candidates, sys.state)
    requires candidates[0].position == Expire(sys.state, nowMs, settings).state.next
    ensures var e := Expire(sys.state, nowMs, settings).state;
            var r := Claim(sys.state, consumer, nowMs, deadlineMs, settings, maxClaim, maxBytes, candidates);
            (r.deliveries != [] && r.deliveries[0].position == e.next)
            <==> (AvailableCredit(e, consumer, settings) > 0 &&
              CheckpointFree(e, consumer, nowMs, candidates[0].aggregateId))
  {
    hide Reachable, Inv, Expire, ClaimFrom, CheckpointFree, AvailableCredit;
    ReachableIsGood(sys);
    ExpireKeeps(sys.state, nowMs, settings, sys.start, sys.log, sys.trace);
    var e := Expire(sys.state, nowMs, settings);
    ProgressAfterExpiry(e.state, Call(consumer, nowMs, deadlineMs, maxBytes),
                        Min(AvailableCredit(e.state, consumer, settings),
                            maxClaim), candidates, sys.start, sys.log, sys.trace + e.trace);
  }

  lemma ProgressAfterExpiry(s: Partition, call: Call, credit: nat, candidates: seq<Candidate>, start: nat, log: Log,
                            trace: seq<Outcome>)
    requires Inv(s, start, log, trace)
    requires candidates != [] && Window(candidates, log) && candidates[0].deliveryId !in s.deliveries
    requires candidates[0].position == s.next
    ensures var r := ClaimFrom(s, call, credit, 0, true, candidates);
            (r.deliveries != [] && r.deliveries[0].position == s.next)
            <==> (credit > 0 && CheckpointFree(s, call.consumer, call.nowMs, candidates[0].aggregateId))
  {
    CheckpointPassedOver(s, call.consumer, call.nowMs, candidates[0], start, log, trace);
    HeadDecides(s, call, credit, candidates, log);
  }

  /** The first candidate is the first delivery exactly when there is credit and it is not passed over. */
  lemma HeadDecides(s: Partition, call: Call, credit: nat, candidates: seq<Candidate>, log: Log)
    requires candidates != [] && Window(candidates, log) && s.next <= candidates[0].position
    ensures var r := ClaimFrom(s, call, credit, 0, true, candidates);
            (r.deliveries != [] && r.deliveries[0].position == candidates[0].position)
            <==> (credit > 0 && !PassedOver(s, call.consumer, call.nowMs, candidates[0]))
  {
    if credit > 0 && PassedOver(s, call.consumer, call.nowMs, candidates[0]) {
      var tail := candidates[1..];
      assert forall i :: 0 <= i < |tail| ==> tail[i] == candidates[i + 1];
      ClaimedFromWindow(s, call, credit, 0, true, tail, candidates[0].position + 1);
      assert ClaimFrom(s, call, credit, 0, true, candidates) == ClaimFrom(s, call, credit, 0, true, tail);
    }
  }

  /**
   * Renewing never shortens a deadline or drops a delivery, and reaches the requested one wherever it reports
   * success.
   */
  lemma {:induction false} RenewNeverShortens(s: Partition, consumer: Text, deadlineMs: nat, ids: seq<Uuid>, id: Uuid)
    requires id in s.deliveries
    ensures var r := RenewAll(s, consumer, deadlineMs, ids);
            && id in r.state.deliveries && s.deliveries[id].deadlineMs <= r.state.deliveries[id].deadlineMs
            && r.state.deliveries[id].consumerId == s.deliveries[id].consumerId
            && |r.results| == |ids|
            && (id in ids && s.deliveries[id].consumerId == consumer ==> deadlineMs <= r.state.deliveries[id].deadlineMs)
            && (s.deliveries[id].consumerId != consumer ==> r.state.deliveries[id] == s.deliveries[id])
    decreases |ids|
  {
    if ids != [] {
      var (t, _) := RenewOne(s, consumer, deadlineMs, ids[0]);
      RenewNeverShortens(t, consumer, deadlineMs, ids[1..], id);
    }
  }
}
