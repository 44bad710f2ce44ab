/** The consumer-group partition as the object the state machine loads, mutates in place and stores back. */
module AggregateGroupObject {
  import opened Base
  import opened AggregateGroup

  // ---------------------------------------------------------------- one turn of each loop

  lemma SettleStep(s: Partition, consumer: Text, nowMs: nat, settings: Settings, items: seq<Settlement>, i: nat,
                   done: seq<SettlementResult>)
    requires i < |items|
    ensures var (moved, r) := SettleOne(s, consumer, nowMs, settings, items[i]);
            var all := SettleAll(s, consumer, nowMs, settings, items[i..]);
            var rest := SettleAll(moved.state, consumer, nowMs, settings, items[i + 1..]);
            all.state == rest.state && done + all.results == (done + [r]) + rest.results
  {
    hide SettleOne;
    assert items[i..][0] == items[i] && items[i..][1..] == items[i + 1..];
  }

  lemma SettleEnd(s: Partition, consumer: Text, nowMs: nat, settings: Settings, items: seq<Settlement>,
                  done: seq<SettlementResult>)
    ensures var rest := SettleAll(s, consumer, nowMs, settings, items[|items|..]);
            rest.state == s && done + rest.results == done
  {
    assert items[|items|..] == [];
  }

  lemma RenewStep(s: Partition, consumer: Text, deadlineMs: nat, ids: seq<Uuid>, i: nat, done: seq<SettlementResult>)
    requires i < |ids|
    ensures var (t, r) := RenewOne(s, consumer, deadlineMs, ids[i]);
            var all := RenewAll(s, consumer, deadlineMs, ids[i..]);
            var rest := RenewAll(t, consumer, deadlineMs, ids[i + 1..]);
            all.state == rest.state && done + all.results == (done + [r]) + rest.results
  {
    hide RenewOne;
    assert ids[i..][0] == ids[i] && ids[i..][1..] == ids[i + 1..];
  }

  lemma RenewEnd(s: Partition, consumer: Text, deadlineMs: nat, ids: seq<Uuid>, done: seq<SettlementResult>)
    ensures var rest := RenewAll(s, consumer, deadlineMs, ids[|ids|..]);
            rest.state == s && done + rest.results == done
  {
    assert ids[|ids|..] == [];
  }

  lemma ExpireStep(s: Partition, ids: seq<Uuid>, i: nat, nowMs: nat, settings: Settings)
    requires i < |ids|
    ensures ids[i] !in s.deliveries ==>
              ExpireAll(s, ids[i..], nowMs, settings).state == ExpireAll(s, ids[i + 1..], nowMs, settings).state
    ensures ids[i] in s.deliveries ==>
              var moved := RetryOrPark(WithoutDelivery(s, ids[i]), s.deliveries[ids[i]], ACK_TIMEOUT, nowMs, settings);
              ExpireAll(s, ids[i..], nowMs, settings).state ==
                ExpireAll(moved.state, ids[i + 1..], nowMs, settings).state
  {
    hide RetryOrPark, WithoutDelivery;
    assert ids[i..][0] == ids[i] && ids[i..][1..] == ids[i + 1..];
  }

  lemma ExpireEnd(s: Partition, ids: seq<Uuid>, nowMs: nat, settings: Settings)
    ensures ExpireAll(s, ids[|ids|..], nowMs, settings).state == s
  {
    assert ids[|ids|..] == [];
  }

  lemma ClaimStep(s: Partition, call: Call, credit: nat, bytes: nat, done: seq<Delivery>, candidates: seq<Candidate>,
                  i: nat)
    requires i < |candidates|
    ensures var c := candidates[i];
            var all := ClaimFrom(s, call, credit, bytes, done == [], candidates[i..]);
            if credit == 0 || c.position < s.next then
              all.state == s && done + all.deliveries == done
            else if PassedOver(s, call.consumer, call.nowMs, c) then
              all == ClaimFrom(s, call, credit, bytes, done == [], candidates[i + 1..])
            else if done != [] && SatAdd64(bytes, c.payloadBytes) > call.maxBytes then
              all.state == s && done + all.deliveries == done
            else
              var d := DeliveryFor(s, call.consumer, call.deadlineMs, c);
              var rest := ClaimFrom(HandOut(s, d), call, credit - 1, SatAdd64(bytes, c.payloadBytes), false,
                                    candidates[i + 1..]);
              all.state == rest.state && done + all.deliveries == (done + [d]) + rest.deliveries
  {
    hide PassedOver, HandOut, DeliveryFor;
    assert candidates[i..][0] == candidates[i] && candidates[i..][1..] == candidates[i + 1..];
  }

  lemma ClaimEnd(s: Partition, call: Call, credit: nat, bytes: nat, done: seq<Delivery>, candidates: seq<Candidate>)
    ensures var rest := ClaimFrom(s, call, credit, bytes, done == [], candidates[|candidates|..]);
            rest.state == s && done + rest.deliveries == done
  {
    assert candidates[|candidates|..] == [];
  }

  class AggregateGroupPartition {
    var epoch: nat
    var nextPosition: nat
    var resolvedGaps: set<nat>
    var leases: map<Text, Lease>
    var deliveries: map<Uuid, Delivery>
    var pendingRetries: map<nat, Retry>
    var parked: map<Uuid, ParkedItem>

    /** The value the object stands for. */
    function View(): Partition
      reads this
    {
      Partition(epoch, nextPosition, resolvedGaps, leases, deliveries, pendingRetries, parked)
    }

    constructor (epoch: nat, start: nat)
      ensures View() == New(epoch, start)
    {
      this.epoch := epoch;
      nextPosition := start;
      resolvedGaps := {};
      leases := map[];
      deliveries := map[];
      pendingRetries := map[];
      parked := map[];
    }

    /** Stored progress, read back. */
    constructor Load(s: Partition)
      ensures View() == s
    {
      epoch, nextPosition, resolvedGaps, leases := s.epoch, s.next, s.gaps, s.leases;
      deliveries, pendingRetries, parked := s.deliveries, s.pending, s.parked;
    }

    /** Discard all progress and start over at a newer epoch. */
    method Reset(epoch: nat, start: nat)
      modifies this
      ensures View() == New(epoch, start)
    {
      this.epoch := epoch;
      nextPosition := start;
      resolvedGaps := {};
      leases := map[];
      deliveries := map[];
      pendingRetries := map[];
      parked := map[];
    }

    method ResolvePosition(position: nat)
      modifies this`nextPosition, this`resolvedGaps
      ensures View() == Resolve(old(View()), position)
    {
      if position < nextPosition { return; }
      resolvedGaps := resolvedGaps + {position};
      while nextPosition in resolvedGaps
        invariant Absorb(nextPosition, resolvedGaps) == Absorb(old(nextPosition), old(resolvedGaps) + {position})
        decreases resolvedGaps
      {
        resolvedGaps := resolvedGaps - {nextPosition};
        nextPosition := SatAdd64(nextPosition, 1);
      }
    }

    method ParkOne(d: Delivery, reason: Text, nowMs: nat)
      modifies this`nextPosition, this`resolvedGaps, this`parked
      ensures View() == ParkDelivery(old(View()), d, reason, nowMs)
    {
      ResolvePosition(d.position);
      parked := parked[d.deliveryId :=
        ParkedItem(d.position, d.aggregateId, d.version, d.eventId, d.attempt, reason, nowMs)];
    }

    method RetryOrParkOne(d: Delivery, reason: Text, nowMs: nat, settings: Settings)
      modifies this`nextPosition, this`resolvedGaps, this`parked, this`pendingRetries
      ensures View() == RetryOrPark(old(View()), d, reason, nowMs, settings).state
    {
      var attempt := SatAdd32(d.attempt, 1);
      if attempt > settings.maxRetries {
        ParkOne(d, reason, nowMs);
        return;
      }
      pendingRetries := pendingRetries[d.position :=
        Retry(d.position, d.aggregateId, d.version, d.eventId, attempt,
              SatAdd64(nowMs, settings.RetryDelayMs(attempt)), d.replayed)];
    }

    method ReleaseUnused()
      modifies this`leases
      ensures View() == ReleaseUnusedLeases(old(View()))
    {
      var active := Busy(View());
      leases := map a | a in leases && a in active :: leases[a];
    }

    method SettleItem(consumer: Text, nowMs: nat, settings: Settings,
                      item: Settlement) returns (result: SettlementResult)
      modifies this
      ensures var (moved, r) := SettleOne(old(View()), consumer, nowMs, settings, item);
              View() == moved.state && result == r
    {
      var id := item.deliveryId;
      if id !in deliveries { return AlreadySettled; }
      var d := deliveries[id];
      if d.consumerId != consumer { return WrongConsumer; }
      deliveries := deliveries - {id};
      match item.action {
        case Ack => ResolvePosition(d.position);
        case Skip => ResolvePosition(d.position);
        case RetryLater => RetryOrParkOne(d, item.reason, nowMs, settings);
        case Park => ParkOne(d, item.reason, nowMs);
      }
      result := Applied;
    }

    /** Settle deliveries in input order; one bad item does not stop the others. */
    method SettleItems(consumer: Text, epoch: nat, nowMs: nat, settings: Settings,
                       items: seq<Settlement>) returns (results: seq<SettlementResult>)
      modifies this
      ensures var r := Settle(old(View()), consumer, epoch, nowMs, settings, items);
              View() == r.state && results == r.results
    {
      if epoch != this.epoch {
        return seq(|items|, i => StaleLease);
      }
      hide SettleOne, SettleAll, ReleaseUnusedLeases;
      results := [];
      assert items[0..] == items;
      ghost var before := View();
      var i := 0;
      while i < |items|
        invariant 0 <= i <= |items|
        invariant var rest := SettleAll(View(), consumer, nowMs, settings, items[i..]);
                  var all := SettleAll(before, consumer, nowMs, settings, items);
                  all.state == rest.state && all.results == results + rest.results
      {
        SettleStep(View(), consumer, nowMs, settings, items, i, results);
        var result := SettleItem(consumer, nowMs, settings, items[i]);
        results := results + [result];
        i := i + 1;
      }
      SettleEnd(View(), consumer, nowMs, settings, items, results);
      ReleaseUnused();
    }

    /** Extend deliveries of the caller and their leases; a deadline never moves back. */
    method RenewDeliveries(consumer: Text, epoch: nat, deadlineMs: nat,
                           ids: seq<Uuid>) returns (results: seq<SettlementResult>)
      modifies this`deliveries, this`leases
      ensures var r := Renew(old(View()), consumer, epoch, deadlineMs, ids);
              View() == r.state && results == r.results
    {
      if epoch != this.epoch {
        return seq(|ids|, i => StaleLease);
      }
      hide RenewOne, RenewAll;
      results := [];
      ghost var before := View();
      assert ids[0..] == ids;
      var i := 0;
      while i < |ids|
        invariant 0 <= i <= |ids|
        invariant var rest := RenewAll(View(), consumer, deadlineMs, ids[i..]);
                  var all := RenewAll(before, consumer, deadlineMs, ids);
                  all.state == rest.state && all.results == results + rest.results
      {
        RenewStep(View(), consumer, deadlineMs, ids, i, results);
        var result := RenewDelivery(consumer, deadlineMs, ids[i]);
        results := results + [result];
        i := i + 1;
      }
      RenewEnd(View(), consumer, deadlineMs, ids, results);
    }

    method RenewDelivery(consumer: Text, deadlineMs: nat, id: Uuid) returns (result: SettlementResult)
      modifies this`deliveries, this`leases
      ensures (View(), result) == RenewOne(old(View()), consumer, deadlineMs, id)
    {
      if id !in deliveries { return AlreadySettled; }
      var d := deliveries[id];
      if d.consumerId != consumer { return WrongConsumer; }
      deliveries := deliveries[id := d.(deadlineMs := Max(d.deadlineMs, deadlineMs))];
      if d.aggregateId in leases {
        var lease := leases[d.aggregateId];
        leases := leases[d.aggregateId := lease.(deadlineMs := Max(lease.deadlineMs, deadlineMs))];
      }
      result := Applied;
    }

    /** Take back deliveries past their deadline, in ascending id order. */
    method ExpireDeliveries(nowMs: nat, settings: Settings) returns (count: nat)
      modifies this
      ensures var r := Expire(old(View()), nowMs, settings);
              View() == r.state && count == r.count
    {
      var expired := Ascending(ExpiredIds(View(), nowMs));
      hide Ascending, ExpireAll, ReleaseUnusedLeases, RetryOrPark, ExpiredIds;
      ghost var before := View();
      assert expired[0..] == expired;
      var i := 0;
      while i < |expired|
        invariant 0 <= i <= |expired|
        invariant ExpireAll(View(), expired[i..], nowMs, settings).state ==
                  ExpireAll(before, expired, nowMs, settings).state
      {
        var id := expired[i];
        ExpireStep(View(), expired, i, nowMs, settings);
        if id in deliveries {
          var d := deliveries[id];
          deliveries := deliveries - {id};
          RetryOrParkOne(d, ACK_TIMEOUT, nowMs, settings);
        }
        i := i + 1;
      }
      ExpireEnd(View(), expired, nowMs, settings);
      ReleaseUnused();
      count := |expired|;
    }

    method HandOutDelivery(d: Delivery)
      modifies this`pendingRetries, this`leases, this`deliveries
      ensures View() == HandOut(old(View()), d)
    {
      pendingRetries := pendingRetries - {d.position};
      leases := leases[d.aggregateId := Lease(d.consumerId, epoch, d.deadlineMs)];
      deliveries := deliveries[d.deliveryId := d];
    }

    /** Hand candidates to a consumer, at most one outstanding event per instance. */
    method ClaimCandidates(consumer: Text, nowMs: nat, deadlineMs: nat, settings: Settings, maxClaim: nat,
                           maxBytes: nat,
                           candidates: seq<Candidate>) returns (claimed: seq<Delivery>)
      modifies this
      ensures var r := Claim(old(View()), consumer, nowMs, deadlineMs, settings, maxClaim, maxBytes, candidates);
              View() == r.state && claimed == r.deliveries
    {
      claimed := [];
      if Refused(consumer, nowMs, deadlineMs, settings, maxClaim, maxBytes) { return; }
      hide PassedOver, HandOut, Expire, AvailableCredit, DeliveryFor, ClaimFrom;
      var _ := ExpireDeliveries(nowMs, settings);
      ghost var call := Call(consumer, nowMs, deadlineMs, maxBytes);
      ghost var start := View();
      var credit := Min(AvailableCredit(View(), consumer, settings), maxClaim);
      ghost var credit0 := credit;
      var bytes := 0;
      assert candidates[0..] == candidates;
      var i := 0;
      while i < |candidates|
        invariant 0 <= i <= |candidates|
        invariant var rest := ClaimFrom(View(), call, credit, bytes, claimed == [], candidates[i..]);
                  var all := ClaimFrom(start, call, credit0, 0, true, candidates);
                  all.state == rest.state && all.deliveries == claimed + rest.deliveries
        decreases |candidates| - i
      {
        var c := candidates[i];
        ClaimStep(View(), call, credit, bytes, claimed, candidates, i);
        if credit == 0 || c.position < nextPosition { return; }
        if PassedOver(View(), consumer, nowMs, c) {
          i := i + 1;
          continue;
        }
        if claimed != [] && SatAdd64(bytes, c.payloadBytes) > maxBytes { return; }
        var d := DeliveryFor(View(), consumer, deadlineMs, c);
        HandOutDelivery(d);
        bytes := SatAdd64(bytes, c.payloadBytes);
        claimed := claimed + [d];
        credit := credit - 1;
        i := i + 1;
      }
      ClaimEnd(View(), call, credit, bytes, claimed, candidates);
    }

    /** One command of the replicated log. */
    method ExecuteCommand(groupEpoch: nat, settings: Settings, command: Command) returns (reply: Reply)
      modifies this
      ensures var done := Execute(old(View()), groupEpoch, settings, command);
              View() == done.state && reply == done.reply
    {
      hide Claim, Settle, Renew, Expire;
      match command
      case ClaimCommand(consumer, nowMs, deadlineMs, maxClaim, maxBytes, candidates) =>
        var claimed := ClaimCandidates(consumer, nowMs, deadlineMs, settings, maxClaim, maxBytes, candidates);
        reply := ClaimedReply(claimed);
      case SettleCommand(consumer, nowMs, items) =>
        var results := SettleItems(consumer, groupEpoch, nowMs, settings, items);
        reply := SettledReply(results);
      case RenewCommand(consumer, deadlineMs, ids) =>
        var results := RenewDeliveries(consumer, groupEpoch, deadlineMs, ids);
        reply := RenewedReply(results);
      case ExpireCommand(nowMs) =>
        var count := ExpireDeliveries(nowMs, settings);
        reply := ExpiredReply(count);
    }
  }
}
