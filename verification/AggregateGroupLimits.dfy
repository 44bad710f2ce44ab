/**
 * The limits a group's settings promise under fixed settings: unacknowledged deliveries stay within the
 * consumer and group allowance, a position is handed out at most `maxRetries + 1` times, and the retry
 * backoff grows within its bounds.
 */
module AggregateGroupLimits {
  import opened Base
  import opened AggregateGroup
  import opened AggregateGroupInvariant
  import opened AggregateGroupRuns

  // ---------------------------------------------------------------- credit

  ghost predicate Within(s: Partition, settings: Settings) {
    && |s.deliveries| <= settings.maxUnackedPerGroup
    && (forall c :: |Held(s, c)| <= settings.maxUnackedPerConsumer)
  }

  lemma SubsetSize(a: set<Uuid>, b: set<Uuid>)
    requires a <= b
    ensures |a| <= |b|
  {
    assert b == a + (b - a);
  }

  lemma ShrinkWithin(s: Partition, t: Partition, settings: Settings)
    requires Within(s, settings)
    requires t.deliveries.Keys <= s.deliveries.Keys
    requires forall i :: i in t.deliveries ==> t.deliveries[i].consumerId == s.deliveries[i].consumerId
    ensures Within(t, settings)
  {
    SubsetSize(t.deliveries.Keys, s.deliveries.Keys);
    forall c ensures |Held(t, c)| <= settings.maxUnackedPerConsumer {
      SubsetSize(Held(t, c), Held(s, c));
    }
  }

  /** Walking candidates spends at most the credit, and only on the calling consumer. */
  lemma {:induction false} ClaimFromSpends(s: Partition, call: Call, credit: nat, bytes: nat, first: bool,
                                           candidates: seq<Candidate>)
    ensures var r := ClaimFrom(s, call, credit, bytes, first, candidates);
            && |r.state.deliveries| <= |s.deliveries| + credit
            && |Held(r.state, call.consumer)| <= |Held(s, call.consumer)| + credit
            && (forall c :: c != call.consumer ==> Held(r.state, c) == Held(s, c))
    decreases candidates
  {
    hide PassedOver, HandOut, Held;
    if candidates == [] || credit == 0 || candidates[0].position < s.next { return; }
    var c, tail := candidates[0], candidates[1..];
    if PassedOver(s, call.consumer, call.nowMs, c) {
      ClaimFromSpends(s, call, credit, bytes, first, tail);
      assert ClaimFrom(s, call, credit, bytes, first, candidates) == ClaimFrom(s, call, credit, bytes, first, tail);
    } else if first || SatAdd64(bytes, c.payloadBytes) <= call.maxBytes {
      var d := DeliveryFor(s, call.consumer, call.deadlineMs, c);
      NotPassedIsNew(s, call, c);
      HandOutSpends(s, d);
      ClaimFromSpends(HandOut(s, d), call, credit - 1, SatAdd64(bytes, c.payloadBytes), false, tail);
    }
  }

  lemma NotPassedIsNew(s: Partition, call: Call, c: Candidate)
    requires !PassedOver(s, call.consumer, call.nowMs, c)
    ensures c.deliveryId !in s.deliveries
  {
  }

  lemma HandOutHeld(s: Partition, d: Delivery, c: Text)
    requires d.deliveryId !in s.deliveries
    ensures Held(HandOut(s, d), c) == if c == d.consumerId then Held(s, c) + {d.deliveryId} else Held(s, c)
  {
    var t := HandOut(s, d);
    forall i ensures i in Held(t, c) <==> i in Held(s, c) || (i == d.deliveryId && c == d.consumerId) {
    }
  }

  lemma HandOutGrows(s: Partition, d: Delivery)
    requires d.deliveryId !in s.deliveries
    ensures |HandOut(s, d).deliveries| == |s.deliveries| + 1
  {
    assert HandOut(s, d).deliveries.Keys == s.deliveries.Keys + {d.deliveryId};
  }

  lemma HandOutSpends(s: Partition, d: Delivery)
    requires d.deliveryId !in s.deliveries
    ensures var t := HandOut(s, d);
            && |t.deliveries| == |s.deliveries| + 1
            && |Held(t, d.consumerId)| == |Held(s, d.consumerId)| + 1
            && (forall c :: c != d.consumerId ==> Held(t, c) == Held(s, c))
  {
    HandOutGrows(s, d);
    assert d.deliveryId !in Held(s, d.consumerId);
    hide HandOut, Held;
    forall c ensures Held(HandOut(s, d), c) == if c == d.consumerId then Held(s, c) + {d.deliveryId} else Held(s, c) {
      HandOutHeld(s, d, c);
    }
  }

  lemma ExpireShrinks(s: Partition, nowMs: nat, settings: Settings)
    ensures var t := Expire(s, nowMs, settings).state;
            && t.deliveries.Keys <= s.deliveries.Keys
            && (forall i :: i in t.deliveries ==> t.deliveries[i] == s.deliveries[i])
  {
    ExpireAllShrinks(s, Ascending(ExpiredIds(s, nowMs)), nowMs, settings);
  }

  lemma ClaimWithin(s: Partition, consumer: Text, nowMs: nat, deadlineMs: nat, settings: Settings, maxClaim: nat,
                    maxBytes: nat,
                    candidates: seq<Candidate>)
    requires Within(s, settings) && settings.Fits()
    ensures Within(Claim(s, consumer, nowMs, deadlineMs, settings, maxClaim, maxBytes, candidates).state, settings)
  {
    hide ClaimFrom, Expire, Within;
    if Refused(consumer, nowMs, deadlineMs, settings, maxClaim, maxBytes) { return; }
    var e := Expire(s, nowMs, settings).state;
    ExpireShrinks(s, nowMs, settings);
    ShrinkWithin(s, e, settings);
    WalkWithin(e, Call(consumer, nowMs, deadlineMs, maxBytes), Min(AvailableCredit(e, consumer, settings), maxClaim),
               candidates, settings);
  }

  lemma WalkWithin(s: Partition, call: Call, credit: nat, candidates: seq<Candidate>, settings: Settings)
    requires Within(s, settings) && settings.Fits() && credit <= AvailableCredit(s, call.consumer, settings)
    ensures Within(ClaimFrom(s, call, credit, 0, true, candidates).state, settings)
  {
    assert |Held(s, call.consumer)| <= settings.maxUnackedPerConsumer;
    ClaimFromSpends(s, call, credit, 0, true, candidates);
    hide ClaimFrom, Held;
  }

  lemma {:induction false} SettleAllShrinks(s: Partition, consumer: Text, nowMs: nat, settings: Settings,
                                            items: seq<Settlement>)
    ensures var t := SettleAll(s, consumer, nowMs, settings, items).state;
            && t.deliveries.Keys <= s.deliveries.Keys
            && (forall i :: i in t.deliveries ==> t.deliveries[i] == s.deliveries[i])
    decreases items
  {
    if items != [] {
      var m := SettleOne(s, consumer, nowMs, settings, items[0]).0;
      assert m.state.deliveries == s.deliveries || m.state.deliveries == s.deliveries - {items[0].deliveryId};
      SettleAllShrinks(m.state, consumer, nowMs, settings, items[1..]);
    }
  }

  lemma {:induction false} RenewAllSameOwners(s: Partition, consumer: Text, deadlineMs: nat, ids: seq<Uuid>)
    ensures var t := RenewAll(s, consumer, deadlineMs, ids).state;
            && t.deliveries.Keys == s.deliveries.Keys
            && (forall i :: i in t.deliveries ==> t.deliveries[i].consumerId == s.deliveries[i].consumerId)
    decreases ids
  {
    if ids != [] {
      RenewAllSameOwners(RenewOne(s, consumer, deadlineMs, ids[0]).0, consumer, deadlineMs, ids[1..]);
    }
  }

  lemma ExecuteWithin(s: Partition, groupEpoch: nat, settings: Settings, command: Command)
    requires Within(s, settings) && settings.Fits()
    ensures Within(Execute(s, groupEpoch, settings, command).state, settings)
  {
    hide Within, Claim;
    var t := Execute(s, groupEpoch, settings, command).state;
    match command
    case ClaimCommand(consumer, nowMs, deadlineMs, maxClaim, maxBytes, candidates) =>
      ClaimWithin(s, consumer, nowMs, deadlineMs, settings, maxClaim, maxBytes, candidates);
    case SettleCommand(consumer, nowMs, items) =>
      SettleAllShrinks(s, consumer, nowMs, settings, items);
      ShrinkWithin(s, t, settings);
    case RenewCommand(consumer, deadlineMs, ids) =>
      RenewAllSameOwners(s, consumer, deadlineMs, ids);
      ShrinkWithin(s, t, settings);
    case ExpireCommand(nowMs) =>
      ExpireShrinks(s, nowMs, settings);
      ShrinkWithin(s, t, settings);
  }

  // ---------------------------------------------------------------- redelivery

  /** Attempt counters count hand-outs: `attempt + 1` for a delivery, `attempt` for a pending retry. */
  ghost predicate Budgeted(s: Partition, trace: seq<Outcome>, maxRetries: nat) {
    && (forall id :: id in s.deliveries ==>
          Handouts(trace, s.deliveries[id].position) == s.deliveries[id].attempt + 1 && s.deliveries[id].attempt <= maxRetries)
    && (forall p :: p in s.pending ==> Handouts(trace, p) == s.pending[p].attempt <= maxRetries)
    && (forall p: nat :: p !in Out(s) && !Resolved(s, p) ==> Handouts(trace, p) == 0)
    && (forall p: nat :: Handouts(trace, p) <= maxRetries + 1)
  }

  lemma SameHandouts(trace: seq<Outcome>, o: Outcome)
    requires !o.HandedOut?
    ensures forall p: nat :: Handouts(trace + [o], p) == Handouts(trace, p)
  {
    forall p: nat ensures Handouts(trace + [o], p) == Handouts(trace, p) { HandoutsSnoc(trace, o, p); }
  }

  lemma SettleBudget(s: Partition, id: Uuid, t: Partition, o: Outcome, start: nat, log: Log, trace: seq<Outcome>,
                     maxRetries: nat)
    requires Separate(s) && SettleStep(s, id, t, start, log) && Budgeted(s, trace, maxRetries) && !o.HandedOut?
    ensures Budgeted(t, trace + [o], maxRetries)
  {
    hide Handouts;
    SameHandouts(trace, o);
    SettleOut(s, id, t, start, log);
  }

  lemma DeferBudget(s: Partition, id: Uuid, nowMs: nat, settings: Settings, trace: seq<Outcome>)
    requires Separate(s) && id in s.deliveries && Budgeted(s, trace, settings.maxRetries)
    requires s.deliveries[id].attempt + 1 <= settings.maxRetries
    ensures var d := s.deliveries[id];
            Budgeted(Defer(WithoutDelivery(s, id), d, d.attempt + 1, nowMs, settings), trace + [Deferred(d.position)],
                     settings.maxRetries)
  {
    var d := s.deliveries[id];
    SameHandouts(trace, Deferred(d.position));
    DeferOut(s, id, d.attempt + 1, nowMs, settings);
    DeferEntries(s, id, d.attempt + 1, nowMs, settings);
    assert Handouts(trace, d.position) == d.attempt + 1;
    hide Handouts, Defer, WithoutDelivery, Out, Budgeted, Separate;
    BudgetTransfer(s, Defer(WithoutDelivery(s, id), d, d.attempt + 1, nowMs, settings), d.position, d.attempt + 1,
                   trace, trace + [Deferred(d.position)], settings.maxRetries);
  }

  lemma BudgetTransfer(s: Partition, t: Partition, q: nat, attempt: nat, trace: seq<Outcome>, longer: seq<Outcome>,
                       maxRetries: nat)
    requires Budgeted(s, trace, maxRetries)
    requires t.next == s.next && t.gaps == s.gaps && Out(t) == Out(s)
    requires forall i :: i in t.deliveries ==> i in s.deliveries && t.deliveries[i] == s.deliveries[i]
    requires forall p :: p in t.pending ==>
               if p == q then t.pending[p].attempt == attempt else p in s.pending && t.pending[p] == s.pending[p]
    requires Handouts(trace, q) == attempt <= maxRetries
    requires forall p: nat :: Handouts(longer, p) == Handouts(trace, p)
    ensures Budgeted(t, longer, maxRetries)
  {
    hide Handouts, Out;
    assert forall p: nat :: Resolved(t, p) <==> Resolved(s, p);
  }

  lemma DeferEntries(s: Partition, id: Uuid, attempt: nat, nowMs: nat, settings: Settings)
    requires id in s.deliveries
    ensures var t := Defer(WithoutDelivery(s, id), s.deliveries[id], attempt, nowMs, settings);
            && t.next == s.next && t.gaps == s.gaps
            && (forall i :: i in t.deliveries ==> i in s.deliveries && t.deliveries[i] == s.deliveries[i])
            && (forall p :: p in t.pending ==>
                  if p == s.deliveries[id].position then t.pending[p].attempt == attempt
                  else p in s.pending && t.pending[p] == s.pending[p])
  {
  }

  lemma AttemptWithin(s: Partition, id: Uuid, trace: seq<Outcome>, maxRetries: nat)
    requires id in s.deliveries && Budgeted(s, trace, maxRetries)
    ensures s.deliveries[id].attempt <= maxRetries
  {
  }

  lemma RetryOrParkBudget(s: Partition, id: Uuid, reason: Text, nowMs: nat, settings: Settings, start: nat, log: Log,
                          trace: seq<Outcome>)
    requires Mid(s, start, log, trace) && id in s.deliveries && Budgeted(s, trace, settings.maxRetries) &&
             settings.maxRetries < U32_MAX
    ensures var m := RetryOrPark(WithoutDelivery(s, id), s.deliveries[id], reason, nowMs, settings);
            Budgeted(m.state, trace + m.trace, settings.maxRetries)
  {
    hide Budgeted, Exclusive, Ordered, Mirrors, History, Frontier, LeasesCover;
    var d := s.deliveries[id];
    AttemptWithin(s, id, trace, settings.maxRetries);
    if d.attempt + 1 > settings.maxRetries {
      ParkBudget(s, id, reason, nowMs, start, log, trace, settings.maxRetries);
    } else {
      DeferBudget(s, id, nowMs, settings, trace);
    }
  }

  lemma ParkBudget(s: Partition, id: Uuid, reason: Text, nowMs: nat, start: nat, log: Log, trace: seq<Outcome>,
                   maxRetries: nat)
    requires Mid(s, start, log, trace) && id in s.deliveries && Budgeted(s, trace, maxRetries)
    ensures var d := s.deliveries[id];
            Budgeted(ParkDelivery(WithoutDelivery(s, id), d, reason, nowMs), trace + [ParkedAt(d.position)], maxRetries)
  {
    hide Budgeted;
    var d := s.deliveries[id];
    ResolveIsSettleStep(s, id, start, log);
    var t := Resolve(WithoutDelivery(s, id), d.position);
    var u := ParkDelivery(WithoutDelivery(s, id), d, reason, nowMs);
    assert forall p: nat :: Resolved(u, p) <==> Resolved(t, p);
    SettleBudget(s, id, u, ParkedAt(d.position), start, log, trace, maxRetries);
  }

  lemma SettleOneBudget(s: Partition, consumer: Text, nowMs: nat, settings: Settings, item: Settlement, start: nat,
                        log: Log, trace: seq<Outcome>)
    requires Mid(s, start, log, trace) && Budgeted(s, trace, settings.maxRetries) && settings.maxRetries < U32_MAX
    ensures var m := SettleOne(s, consumer, nowMs, settings, item).0;
            Budgeted(m.state, trace + m.trace, settings.maxRetries)
  {
    hide Budgeted, Resolve, RetryOrPark, ParkDelivery, History;
    var id := item.deliveryId;
    assert trace + [] == trace;
    if id in s.deliveries && s.deliveries[id].consumerId == consumer {
      var q := s.deliveries[id].position;
      match item.action
      case Ack =>
        ResolveIsSettleStep(s, id, start, log);
        SettleBudget(s, id, Resolve(WithoutDelivery(s, id), q), Acked(q), start, log, trace, settings.maxRetries);
      case Skip =>
        ResolveIsSettleStep(s, id, start, log);
        SettleBudget(s, id, Resolve(WithoutDelivery(s, id), q), Skipped(q), start, log, trace, settings.maxRetries);
      case RetryLater => RetryOrParkBudget(s, id, item.reason, nowMs, settings, start, log, trace);
      case Park => ParkBudget(s, id, item.reason, nowMs, start, log, trace, settings.maxRetries);
    }
  }

  lemma {:induction false} SettleAllBudget(s: Partition, consumer: Text, nowMs: nat, settings: Settings,
                                           items: seq<Settlement>,
                                           start: nat, log: Log, trace: seq<Outcome>)
    requires Mid(s, start, log, trace) && Budgeted(s, trace, settings.maxRetries) && settings.maxRetries < U32_MAX
    ensures var r := SettleAll(s, consumer, nowMs, settings, items);
            Budgeted(r.state, trace + r.trace, settings.maxRetries)
    decreases items
  {
    hide Mid, Budgeted, SettleOne;
    if items == [] {
      assert trace + [] == trace;
    } else {
      SettleOneKeeps(s, consumer, nowMs, settings, items[0], start, log, trace);
      SettleOneBudget(s, consumer, nowMs, settings, items[0], start, log, trace);
      var (m, _) := SettleOne(s, consumer, nowMs, settings, items[0]);
      SettleAllBudget(m.state, consumer, nowMs, settings, items[1..], start, log, trace + m.trace);
      var rest := SettleAll(m.state, consumer, nowMs, settings, items[1..]);
      assert trace + (m.trace + rest.trace) == (trace + m.trace) + rest.trace;
    }
  }

  lemma {:induction false} ExpireAllBudget(s: Partition, ids: seq<Uuid>, nowMs: nat, settings: Settings, start: nat,
                                           log: Log, trace: seq<Outcome>)
    requires Mid(s, start, log, trace) && Budgeted(s, trace, settings.maxRetries) && settings.maxRetries < U32_MAX
    ensures var m := ExpireAll(s, ids, nowMs, settings);
            Budgeted(m.state, trace + m.trace, settings.maxRetries)
    decreases ids
  {
    hide Mid, Budgeted, RetryOrPark, WithoutDelivery;
    if ids == [] {
      assert trace + [] == trace;
    } else if ids[0] !in s.deliveries {
      ExpireAllBudget(s, ids[1..], nowMs, settings, start, log, trace);
    } else {
      RetryOrParkKeeps(s, ids[0], ACK_TIMEOUT, nowMs, settings, start, log, trace);
      RetryOrParkBudget(s, ids[0], ACK_TIMEOUT, nowMs, settings, start, log, trace);
      var m := RetryOrPark(WithoutDelivery(s, ids[0]), s.deliveries[ids[0]], ACK_TIMEOUT, nowMs, settings);
      ExpireAllBudget(m.state, ids[1..], nowMs, settings, start, log, trace + m.trace);
      var rest := ExpireAll(m.state, ids[1..], nowMs, settings);
      assert trace + (m.trace + rest.trace) == (trace + m.trace) + rest.trace;
    }
  }

  lemma ReleaseBudget(s: Partition, trace: seq<Outcome>, maxRetries: nat)
    requires Budgeted(s, trace, maxRetries)
    ensures Budgeted(ReleaseUnusedLeases(s), trace, maxRetries)
  {
    var t := ReleaseUnusedLeases(s);
    assert Out(t) == Out(s);
    assert forall p: nat :: Resolved(t, p) <==> Resolved(s, p);
  }

  lemma ExpireBudget(s: Partition, nowMs: nat, settings: Settings, start: nat, log: Log, trace: seq<Outcome>)
    requires Inv(s, start, log, trace) && Budgeted(s, trace, settings.maxRetries) && settings.maxRetries < U32_MAX
    ensures var r := Expire(s, nowMs, settings);
            Budgeted(r.state, trace + r.trace, settings.maxRetries)
  {
    hide Shape, History, Budgeted, ExpireAll, ReleaseUnusedLeases;
    var ids := Ascending(ExpiredIds(s, nowMs));
    ExpireAllBudget(s, ids, nowMs, settings, start, log, trace);
    var m := ExpireAll(s, ids, nowMs, settings);
    ReleaseBudget(m.state, trace + m.trace, settings.maxRetries);
  }

  lemma RenewOneBudget(s: Partition, consumer: Text, deadlineMs: nat, id: Uuid, trace: seq<Outcome>, maxRetries: nat)
    requires Budgeted(s, trace, maxRetries)
    ensures Budgeted(RenewOne(s, consumer, deadlineMs, id).0, trace, maxRetries)
  {
    var t := RenewOne(s, consumer, deadlineMs, id).0;
    RenewOnlyDeadlines(s, consumer, deadlineMs, id);
    DeadlinesOut(s, t);
    assert forall p: nat :: Resolved(t, p) <==> Resolved(s, p);
    assert forall i :: i in t.deliveries ==> i in s.deliveries;
  }

  lemma {:induction false} RenewAllBudget(s: Partition, consumer: Text, deadlineMs: nat, ids: seq<Uuid>,
                                          trace: seq<Outcome>, maxRetries: nat)
    requires Budgeted(s, trace, maxRetries)
    ensures Budgeted(RenewAll(s, consumer, deadlineMs, ids).state, trace, maxRetries)
    decreases ids
  {
    hide Budgeted, RenewOne;
    if ids != [] {
      RenewOneBudget(s, consumer, deadlineMs, ids[0], trace, maxRetries);
      RenewAllBudget(RenewOne(s, consumer, deadlineMs, ids[0]).0, consumer, deadlineMs, ids[1..], trace, maxRetries);
    }
  }

  lemma HandOutCounts(s: Partition, d: Delivery, trace: seq<Outcome>, longer: seq<Outcome>, maxRetries: nat)
    requires Budgeted(s, trace, maxRetries) && d.deliveryId !in s.deliveries && !Resolved(s, d.position)
    requires forall id :: id in s.deliveries ==> s.deliveries[id].position != d.position
    requires d.attempt == if d.position in s.pending then s.pending[d.position].attempt else 0
    requires forall p: nat :: Handouts(longer, p) == Handouts(trace, p) + (if p == d.position then 1 else 0)
    ensures Budgeted(HandOut(s, d), longer, maxRetries)
  {
    hide Handouts;
    var t := HandOut(s, d);
    HandOutOut(s, d);
    assert forall p: nat :: Resolved(t, p) <==> Resolved(s, p);
    assert Handouts(trace, d.position) == d.attempt <= maxRetries by {
      if d.position !in s.pending { assert d.position !in Out(s); }
    }
  }

  lemma HandOutBudget(s: Partition, consumer: Text, nowMs: nat, deadlineMs: nat, c: Candidate, log: Log,
                      trace: seq<Outcome>, maxRetries: nat)
    requires Eligible(s, consumer, nowMs, c, log) && Budgeted(s, trace, maxRetries)
    ensures Budgeted(HandOut(s, DeliveryFor(s, consumer, deadlineMs, c)), trace + [HandedOut(c.position)], maxRetries)
  {
    hide Handouts, Budgeted, Covered;
    forall p: nat ensures Handouts(trace + [HandedOut(c.position)], p) ==
      Handouts(trace, p) + (if p == c.position then 1 else 0) {
      HandoutsSnoc(trace, HandedOut(c.position), p);
    }
    HandOutCounts(s, DeliveryFor(s, consumer, deadlineMs, c), trace, trace + [HandedOut(c.position)], maxRetries);
  }

  lemma {:induction false} ClaimFromBudget(s: Partition, call: Call, credit: nat, bytes: nat, first: bool,
                                           candidates: seq<Candidate>,
                                           start: nat, log: Log, trace: seq<Outcome>, maxRetries: nat)
    requires Inv(s, start, log, trace) && Ready(s, candidates, log) && Budgeted(s, trace, maxRetries)
    ensures var r := ClaimFrom(s, call, credit, bytes, first, candidates);
            Budgeted(r.state, trace + r.trace, maxRetries)
    decreases candidates
  {
    hide Inv, Ready, PassedOver, Eligible, Budgeted, HandOut, DeliveryFor;
    assert trace + [] == trace;
    if candidates == [] || credit == 0 || candidates[0].position < s.next { return; }
    var c := candidates[0];
    if PassedOver(s, call.consumer, call.nowMs, c) {
      PassOverReady(s, call, candidates, start, log, trace);
      ClaimFromBudget(s, call, credit, bytes, first, candidates[1..], start, log, trace, maxRetries);
    } else if first || SatAdd64(bytes, c.payloadBytes) <= call.maxBytes {
      var d := DeliveryFor(s, call.consumer, call.deadlineMs, c);
      HeadEligible(s, call, candidates, log);
      HandOutKeeps(s, call.consumer, call.nowMs, call.deadlineMs, c, start, log, trace);
      HandOutBudget(s, call.consumer, call.nowMs, call.deadlineMs, c, log, trace, maxRetries);
      HandOutReady(s, call, candidates, log);
      DeliveryAt(s, call, c);
      ClaimFromBudget(HandOut(s, d), call, credit - 1, SatAdd64(bytes, c.payloadBytes), false, candidates[1..],
                      start, log, trace + [HandedOut(c.position)], maxRetries);
      var rest := ClaimFrom(HandOut(s, d), call, credit - 1, SatAdd64(bytes, c.payloadBytes), false, candidates[1..]);
      assert trace + ([HandedOut(c.position)] + rest.trace) == (trace + [HandedOut(c.position)]) + rest.trace;
    }
  }

  lemma WalkBudget(e: Expired, call: Call, credit: nat, candidates: seq<Candidate>, start: nat, log: Log,
                   trace: seq<Outcome>, maxRetries: nat)
    requires Inv(e.state, start, log, trace + e.trace) && Ready(e.state, candidates, log) &&
             Budgeted(e.state, trace + e.trace, maxRetries)
    ensures var r := ClaimFrom(e.state, call, credit, 0, true, candidates);
            Budgeted(r.state, trace + (e.trace + r.trace), maxRetries)
  {
    hide Inv, Ready, Budgeted, ClaimFrom;
    ClaimFromBudget(e.state, call, credit, 0, true, candidates, start, log, trace + e.trace, maxRetries);
    var r := ClaimFrom(e.state, call, credit, 0, true, candidates);
    assert trace + (e.trace + r.trace) == (trace + e.trace) + r.trace;
  }

  lemma ClaimBudget(s: Partition, consumer: Text, nowMs: nat, deadlineMs: nat, settings: Settings, maxClaim: nat,
                    maxBytes: nat,
                    candidates: seq<Candidate>, start: nat, log: Log, trace: seq<Outcome>)
    requires Inv(s, start, log, trace) && Budgeted(s, trace, settings.maxRetries) && settings.maxRetries < U32_MAX
    requires Window(candidates, log) && Fresh(candidates, s)
    requires candidates != [] ==> candidates[0].position <= s.next
    ensures var r := Claim(s, consumer, nowMs, deadlineMs, settings, maxClaim, maxBytes, candidates);
            Budgeted(r.state, trace + r.trace, settings.maxRetries)
  {
    hide Inv, Budgeted, ClaimFrom, Expire, AvailableCredit;
    assert trace + [] == trace;
    if Refused(consumer, nowMs, deadlineMs, settings, maxClaim, maxBytes) { return; }
    ExpireKeeps(s, nowMs, settings, start, log, trace);
    ExpireBudget(s, nowMs, settings, start, log, trace);
    var e := Expire(s, nowMs, settings);
    ReadyToClaim(s, e.state, candidates, log);
    WalkBudget(e, Call(consumer, nowMs, deadlineMs, maxBytes),
               Min(AvailableCredit(e.state, consumer, settings), maxClaim),
               candidates, start, log, trace, settings.maxRetries);
  }

  lemma ExecuteBudget(s: Partition, groupEpoch: nat, settings: Settings, command: Command, start: nat, log: Log,
                      trace: seq<Outcome>)
    requires Inv(s, start, log, trace) && Budgeted(s, trace, settings.maxRetries) && settings.maxRetries < U32_MAX
    requires WellBuilt(System(s, start, log, trace), command)
    ensures var r := Execute(s, groupEpoch, settings, command);
            Budgeted(r.state, trace + r.trace, settings.maxRetries)
  {
    hide Shape, History, LeasesTight, Budgeted, Claim, SettleAll, RenewAll, Expire, ReleaseUnusedLeases, Window, Fresh;
    assert trace + [] == trace;
    match command
    case ClaimCommand(consumer, nowMs, deadlineMs, maxClaim, maxBytes, candidates) =>
      ClaimBudget(s, consumer, nowMs, deadlineMs, settings, maxClaim, maxBytes, candidates, start, log, trace);
    case SettleCommand(consumer, nowMs, items) =>
      if groupEpoch == s.epoch {
        SettleAllBudget(s, consumer, nowMs, settings, items, start, log, trace);
        var all := SettleAll(s, consumer, nowMs, settings, items);
        ReleaseBudget(all.state, trace + all.trace, settings.maxRetries);
      }
    case RenewCommand(consumer, deadlineMs, ids) =>
      if groupEpoch == s.epoch {
        RenewAllBudget(s, consumer, deadlineMs, ids, trace, settings.maxRetries);
      }
    case ExpireCommand(nowMs) =>
      ExpireBudget(s, nowMs, settings, start, log, trace);
  }

  // ---------------------------------------------------------------- over runs with fixed settings

  /** Every request of the run carries these settings. */
  predicate FixedSettings(events: seq<Event>, settings: Settings) {
    forall i :: 0 <= i < |events| && events[i].Request? ==> events[i].settings == settings
  }

  ghost predicate InLimits(sys: System, settings: Settings) {
    Within(sys.state, settings) &&
      (settings.maxRetries < U32_MAX ==> Budgeted(sys.state, sys.trace, settings.maxRetries))
  }

  lemma NewInLimits(epoch: nat, start: nat, log: Log, settings: Settings)
    ensures InLimits(Initial(epoch, start, log), settings)
  {
    assert forall c :: Held(New(epoch, start), c) == {};
  }

  lemma StepInLimits(sys: System, e: Event, settings: Settings)
    requires Good(sys) && Admissible(sys, e) && InLimits(sys, settings) && settings.Fits()
    requires e.Request? ==> e.settings == settings
    ensures InLimits(Step(sys, e), settings)
  {
    hide Inv, Within, Budgeted, Execute, WellBuilt;
    if e.Request? && settings.Valid() && sys.state.epoch <= e.groupEpoch {
      var entered := Enter(sys, e.groupEpoch, e.start);
      if sys.state.epoch < e.groupEpoch {
        LogFits(sys);
        NewIsGood(e.groupEpoch, e.start, sys.log);
        NewInLimits(e.groupEpoch, e.start, sys.log, settings);
      }
      assert entered == System(entered.state, entered.start, entered.log, entered.trace);
      ExecuteWithin(entered.state, e.groupEpoch, settings, e.command);
      if settings.maxRetries < U32_MAX {
        ExecuteBudget(entered.state, e.groupEpoch, settings, e.command, entered.start, entered.log, entered.trace);
      }
    }
  }

  lemma {:induction false} RunInLimits(sys: System, events: seq<Event>, settings: Settings)
    requires Good(sys) && AdmissibleRun(sys, events) && InLimits(sys, settings) && settings.Fits()
    requires FixedSettings(events, settings)
    ensures InLimits(Run(sys, events), settings)
    decreases events
  {
    hide Good, InLimits, Step, Admissible;
    if events != [] {
      StepKeeps(sys, events[0]);
      StepInLimits(sys, events[0], settings);
      RunInLimits(Step(sys, events[0]), events[1..], settings);
    }
  }

  /**
   * Credit safety: under fixed settings no consumer and no partition ever holds more unacked deliveries than
   * allowed.
   */
  lemma CreditSafety(epoch: nat, start: nat, log: Log, events: seq<Event>, settings: Settings)
    requires start <= |log| <= U64_MAX && AdmissibleRun(Initial(epoch, start, log), events)
    requires FixedSettings(events, settings) && settings.Fits()
    ensures var s := Run(Initial(epoch, start, log), events).state;
            && |s.deliveries| <= settings.maxUnackedPerGroup
            && forall c :: |Held(s, c)| <= settings.maxUnackedPerConsumer
  {
    hide Good, AdmissibleRun, Run;
    NewIsGood(epoch, start, log);
    NewInLimits(epoch, start, log, settings);
    RunInLimits(Initial(epoch, start, log), events, settings);
  }

  /** Bounded redelivery: an epoch hands a position out at most `maxRetries + 1` times. */
  lemma BoundedRedelivery(epoch: nat, start: nat, log: Log, events: seq<Event>, settings: Settings, p: nat)
    requires start <= |log| <= U64_MAX && AdmissibleRun(Initial(epoch, start, log), events)
    requires FixedSettings(events, settings) && settings.Fits() && settings.maxRetries < U32_MAX
    ensures Handouts(Run(Initial(epoch, start, log), events).trace, p) <= settings.maxRetries + 1
  {
    hide Good, AdmissibleRun, Run;
    NewIsGood(epoch, start, log);
    NewInLimits(epoch, start, log, settings);
    RunInLimits(Initial(epoch, start, log), events, settings);
  }

  /**
   * The bound needs `maxRetries < U32_MAX`: at the top of `u32` the saturated counter never exceeds it, so nothing
   * is ever parked for its attempts.
   */
  lemma SaturatedRetriesNeverPark(s: Partition, d: Delivery, reason: Text, nowMs: nat, settings: Settings)
    requires d.attempt <= U32_MAX && settings.Fits()
    ensures RetryOrPark(s, d, reason, nowMs, settings).trace == [ParkedAt(d.position)]
            <==> (d.attempt >= settings.maxRetries && settings.maxRetries < U32_MAX)
  {
  }

  // ---------------------------------------------------------------- backoff

  lemma Pow2Monotone(a: nat, b: nat)
    requires a <= b
    ensures Pow2(a) <= Pow2(b)
  {
  }

  lemma ScaleMonotone(a: nat, x: nat, y: nat)
    requires 0 < x <= y
    ensures a <= a * x <= a * y
  {
  }

  /** Backoff never shrinks from one attempt to the next and stays within the configured bounds. */
  lemma BackoffMonotoneAndBounded(settings: Settings, a: nat, b: nat)
    requires settings.Valid() && settings.Fits() && a <= b
    ensures settings.retryMinMs <= settings.RetryDelayMs(a) <= settings.RetryDelayMs(b) <= settings.retryMaxMs
  {
    var i, j := Min(SatSub(a, 1), 62), Min(SatSub(b, 1), 62);
    Pow2Monotone(i, j);
    ScaleMonotone(settings.retryMinMs, Pow2(i), Pow2(j));
    hide Pow2;
  }

  lemma Pow2Steps(a: nat, b: nat)
    requires a < b
    ensures 2 * Pow2(a) <= Pow2(b)
  {
    Pow2Monotone(a + 1, b);
  }

  /**
   * Backoff doubles with every attempt up to the ceiling, exactly: what the program computes with a capped shift and a
   * saturating product is the doubled minimum cut at the maximum if and only if the attempt is at most 63 or the
   * ceiling is reached by then.
   */
  lemma BackoffDoubles(settings: Settings, attempt: nat)
    requires settings.Valid() && settings.Fits()
    ensures settings.RetryDelayMs(attempt) == Min(settings.retryMinMs * Pow2(SatSub(attempt, 1)), settings.retryMaxMs)
            <==> attempt <= 63 || settings.retryMaxMs <= settings.retryMinMs * Pow2(62)
  {
    hide Pow2;
    var shift := Min(SatSub(attempt, 1), 62);
    var doubled, cut := Scaled(settings.retryMinMs, SatSub(attempt, 1)), Scaled(settings.retryMinMs, shift);
    CutTwice(cut, settings.retryMaxMs);
    if attempt > 63 {
      ScaledSteps(settings.retryMinMs, 62, attempt - 1);
      CutApart(cut, doubled, settings.retryMaxMs);
    }
  }

  function Scaled(base: nat, n: nat): nat {
    base * Pow2(n)
  }

  lemma ScaledSteps(base: nat, a: nat, b: nat)
    requires a < b && base > 0
    ensures 0 < Scaled(base, a) && 2 * Scaled(base, a) <= Scaled(base, b)
  {
    Pow2Steps(a, b);
    var x, y := Pow2(a), Pow2(b);
    hide Pow2;
    ScaleMonotone(base, 2 * x, y);
    assert base * (2 * x) == 2 * (base * x);
    ScaleMonotone(base, 1, x);
  }

  lemma CutTwice(x: nat, max: nat)
    requires max <= U64_MAX
    ensures Min(Min(x, U64_MAX), max) == Min(x, max)
  {
  }

  lemma CutApart(x: nat, y: nat, max: nat)
    requires 0 < x && 2 * x <= y
    ensures Min(x, max) == Min(y, max) <==> max <= x
  {
  }
}
