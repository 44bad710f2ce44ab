/**
 * The consumer-group partition as a value: one `(aggregate type, group, partition)` checkpoint with
 * its leases, deliveries, pending retries and parked items, and the commands that move it.
 *
 * Every command returns, beside the new state and its response, the trace of outcomes it produced.
 * The trace is what the properties over runs are stated about; it is not part of the stored state.
 */
module AggregateGroup {
  import opened Base

  datatype Settings = Settings(
    maxUnackedPerConsumer: nat,
    maxUnackedPerGroup: nat,
    ackTimeoutMs: nat,
    maxRetries: nat,
    retryMinMs: nat,
    retryMaxMs: nat)
  {
    predicate Valid() {
      && 0 < maxUnackedPerConsumer <= maxUnackedPerGroup
      && 0 < ackTimeoutMs
      && 0 < retryMinMs <= retryMaxMs
    }

    /** The fields fit their machine widths. */
    predicate Fits() {
      && maxUnackedPerConsumer <= U32_MAX
      && maxUnackedPerGroup <= U32_MAX
      && maxRetries <= U32_MAX
      && ackTimeoutMs <= U64_MAX
      && retryMinMs <= U64_MAX
      && retryMaxMs <= U64_MAX
    }

    /** Exponential backoff, saturating at the ceiling. */
    function RetryDelayMs(attempt: nat): nat {
      var shift := Min(SatSub(attempt, 1), 62);
      Min(SatMul64(retryMinMs, Pow2(shift)), retryMaxMs)
    }
  }

  function Pow2(n: nat): (r: nat)
    ensures r > 0
  {
    if n == 0 then 1 else 2 * Pow2(n - 1)
  }

  /** `u64::saturating_mul`. */
  function SatMul64(a: nat, b: nat): nat {
    Min(a * b, U64_MAX)
  }

  datatype Candidate = Candidate(
    deliveryId: Uuid,
    position: nat,
    aggregateId: Text,
    version: nat,
    eventId: Uuid,
    payloadBytes: nat,
    replayed: bool)

  datatype Delivery = Delivery(
    deliveryId: Uuid,
    consumerId: Text,
    position: nat,
    aggregateId: Text,
    version: nat,
    eventId: Uuid,
    attempt: nat,
    deadlineMs: nat,
    epoch: nat,
    replayed: bool)

  datatype Retry = Retry(
    position: nat,
    aggregateId: Text,
    version: nat,
    eventId: Uuid,
    attempt: nat,
    notBeforeMs: nat,
    replayed: bool)

  datatype ParkedItem = ParkedItem(
    position: nat,
    aggregateId: Text,
    version: nat,
    eventId: Uuid,
    attempts: nat,
    reason: Text,
    parkedAtMs: nat)

  datatype Lease = Lease(consumerId: Text, epoch: nat, deadlineMs: nat)

  datatype Partition = Partition(
    epoch: nat,
    next: nat,
    gaps: set<nat>,
    leases: map<Text, Lease>,
    deliveries: map<Uuid, Delivery>,
    pending: map<nat, Retry>,
    parked: map<Uuid, ParkedItem>)

  datatype Action = Ack | RetryLater | Park | Skip

  datatype Settlement = Settlement(deliveryId: Uuid, action: Action, reason: Text)

  datatype SettlementResult = Applied | AlreadySettled | StaleLease | WrongConsumer

  /** What one command did to one log position. */
  datatype Outcome =
    | HandedOut(position: nat)
    | Acked(position: nat)
    | Skipped(position: nat)
    | ParkedAt(position: nat)
    | Deferred(position: nat)
  {
    predicate Settles(p: nat) {
      (Acked? || Skipped? || ParkedAt?) && position == p
    }
  }

  datatype Settled = Settled(state: Partition, results: seq<SettlementResult>, trace: seq<Outcome>)
  datatype Claimed = Claimed(state: Partition, deliveries: seq<Delivery>, trace: seq<Outcome>)
  datatype Renewed = Renewed(state: Partition, results: seq<SettlementResult>)
  datatype Expired = Expired(state: Partition, count: nat, trace: seq<Outcome>)
  datatype Moved = Moved(state: Partition, trace: seq<Outcome>)

  /** Fresh progress at an epoch and an inclusive start. */
  function New(epoch: nat, start: nat): Partition {
    Partition(epoch, start, {}, map[], map[], map[], map[])
  }

  // ---------------------------------------------------------------- credit

  function Held(s: Partition, consumer: Text): set<Uuid> {
    set id | id in s.deliveries && s.deliveries[id].consumerId == consumer
  }

  function AvailableCredit(s: Partition, consumer: Text, settings: Settings): nat {
    Min(SatSub(settings.maxUnackedPerConsumer, AsU32(|Held(s, consumer)|)),
        SatSub(settings.maxUnackedPerGroup, AsU32(|s.deliveries|)))
  }

  // ---------------------------------------------------------------- checkpoint

  /** Absorb resolved positions into the checkpoint while the one it stands on is resolved. */
  function Absorb(next: nat, gaps: set<nat>): (nat, set<nat>)
    decreases gaps
  {
    if next in gaps then Absorb(SatAdd64(next, 1), gaps - {next}) else (next, gaps)
  }

  function Resolve(s: Partition, position: nat): Partition {
    if position < s.next then s
    else
      var (next, gaps) := Absorb(s.next, s.gaps + {position});
      s.(next := next, gaps := gaps)
  }

  // ---------------------------------------------------------------- retry and park

  function ParkDelivery(s: Partition, d: Delivery, reason: Text, nowMs: nat): Partition {
    var t := Resolve(s, d.position);
    t.(parked := t.parked[d.deliveryId :=
         ParkedItem(d.position, d.aggregateId, d.version, d.eventId, d.attempt, reason, nowMs)])
  }

  function Defer(s: Partition, d: Delivery, attempt: nat, nowMs: nat, settings: Settings): Partition {
    s.(pending := s.pending[d.position :=
         Retry(d.position, d.aggregateId, d.version, d.eventId, attempt,
               SatAdd64(nowMs, settings.RetryDelayMs(attempt)), d.replayed)])
  }

  function RetryOrPark(s: Partition, d: Delivery, reason: Text, nowMs: nat, settings: Settings): Moved {
    var attempt := SatAdd32(d.attempt, 1);
    if attempt > settings.maxRetries then
      Moved(ParkDelivery(s, d, reason, nowMs), [ParkedAt(d.position)])
    else
      Moved(Defer(s, d, attempt, nowMs, settings), [Deferred(d.position)])
  }

  // ---------------------------------------------------------------- leases

  /** Instances with an unsettled delivery or a pending retry. */
  function Busy(s: Partition): set<Text> {
    (set id | id in s.deliveries :: s.deliveries[id].aggregateId) +
    (set p | p in s.pending :: s.pending[p].aggregateId)
  }

  function ReleaseUnusedLeases(s: Partition): Partition {
    s.(leases := map a | a in s.leases && a in Busy(s) :: s.leases[a])
  }

  // ---------------------------------------------------------------- settle

  function WithoutDelivery(s: Partition, id: Uuid): Partition {
    s.(deliveries := s.deliveries - {id})
  }

  /** Settle a delivery that exists and belongs to the caller. */
  function SettleOwned(s: Partition, id: Uuid, nowMs: nat, settings: Settings, action: Action, reason: Text): Moved
    requires id in s.deliveries
  {
    var d := s.deliveries[id];
    var t := WithoutDelivery(s, id);
    match action
    case Ack => Moved(Resolve(t, d.position), [Acked(d.position)])
    case Skip => Moved(Resolve(t, d.position), [Skipped(d.position)])
    case RetryLater => RetryOrPark(t, d, reason, nowMs, settings)
    case Park => Moved(ParkDelivery(t, d, reason, nowMs), [ParkedAt(d.position)])
  }

  function SettleOne(s: Partition, consumer: Text, nowMs: nat, settings: Settings, item: Settlement): (Moved,
                     SettlementResult) {
    if item.deliveryId !in s.deliveries then (Moved(s, []), AlreadySettled)
    else
      if s.deliveries[item.deliveryId].consumerId != consumer then (Moved(s, []), WrongConsumer)
      else (SettleOwned(s, item.deliveryId, nowMs, settings, item.action, item.reason), Applied)
  }

  function SettleAll(s: Partition, consumer: Text, nowMs: nat, settings: Settings, items: seq<Settlement>): Settled
    decreases items
  {
    if items == [] then Settled(s, [], [])
    else
      var (moved, result) := SettleOne(s, consumer, nowMs, settings, items[0]);
      var rest := SettleAll(moved.state, consumer, nowMs, settings, items[1..]);
      Settled(rest.state, [result] + rest.results, moved.trace + rest.trace)
  }

  function Settle(s: Partition, consumer: Text, epoch: nat, nowMs: nat, settings: Settings,
                  items: seq<Settlement>): Settled {
    if epoch != s.epoch then Settled(s, seq(|items|, i => StaleLease), [])
    else
      var all := SettleAll(s, consumer, nowMs, settings, items);
      all.(state := ReleaseUnusedLeases(all.state))
  }

  // ---------------------------------------------------------------- renew

  function RenewOne(s: Partition, consumer: Text, deadlineMs: nat, id: Uuid): (Partition, SettlementResult) {
    if id !in s.deliveries then (s, AlreadySettled)
    else
      var d := s.deliveries[id];
      if d.consumerId != consumer then (s, WrongConsumer)
      else
        var leases := if d.aggregateId !in s.leases then s.leases
                      else var l := s.leases[d.aggregateId];
                           s.leases[d.aggregateId := l.(deadlineMs := Max(l.deadlineMs, deadlineMs))];
        (s.(deliveries := s.deliveries[id := d.(deadlineMs := Max(d.deadlineMs, deadlineMs))], leases := leases),
         Applied)
  }

  function RenewAll(s: Partition, consumer: Text, deadlineMs: nat, ids: seq<Uuid>): Renewed
    decreases ids
  {
    if ids == [] then Renewed(s, [])
    else
      var (t, result) := RenewOne(s, consumer, deadlineMs, ids[0]);
      var rest := RenewAll(t, consumer, deadlineMs, ids[1..]);
      Renewed(rest.state, [result] + rest.results)
  }

  function Renew(s: Partition, consumer: Text, epoch: nat, deadlineMs: nat, ids: seq<Uuid>): Renewed {
    if epoch != s.epoch then Renewed(s, seq(|ids|, i => StaleLease))
    else RenewAll(s, consumer, deadlineMs, ids)
  }

  // ---------------------------------------------------------------- expire

  function ExpiredIds(s: Partition, nowMs: nat): set<Uuid> {
    set id | id in s.deliveries && s.deliveries[id].deadlineMs <= nowMs
  }

  const ACK_TIMEOUT: Text := [97, 99, 107, 32, 116, 105, 109, 101, 111, 117, 116]

  function ExpireAll(s: Partition, ids: seq<Uuid>, nowMs: nat, settings: Settings): Moved
    decreases ids
  {
    if ids == [] then Moved(s, [])
    else if ids[0] !in s.deliveries then ExpireAll(s, ids[1..], nowMs, settings)
    else
      var d := s.deliveries[ids[0]];
      var moved := RetryOrPark(WithoutDelivery(s, ids[0]), d, ACK_TIMEOUT, nowMs, settings);
      var rest := ExpireAll(moved.state, ids[1..], nowMs, settings);
      Moved(rest.state, moved.trace + rest.trace)
  }

  function Expire(s: Partition, nowMs: nat, settings: Settings): Expired {
    var ids := Ascending(ExpiredIds(s, nowMs));
    var all := ExpireAll(s, ids, nowMs, settings);
    Expired(ReleaseUnusedLeases(all.state), |ids|, all.trace)
  }

  // ---------------------------------------------------------------- claim

  predicate Delivered(s: Partition, position: nat) {
    exists id :: id in s.deliveries && s.deliveries[id].position == position
  }

  /** Another position of the same instance is still outstanding. */
  predicate Blocked(s: Partition, aggregateId: Text, position: nat) {
    || (exists id :: id in s.deliveries && s.deliveries[id].aggregateId == aggregateId && s.deliveries[id].position != position)
    || (exists p :: p in s.pending && s.pending[p].aggregateId == aggregateId && s.pending[p].position != position)
  }

  predicate LeasedElsewhere(s: Partition, aggregateId: Text, consumer: Text, nowMs: nat) {
    && aggregateId in s.leases
    && s.leases[aggregateId].consumerId != consumer
    && s.leases[aggregateId].deadlineMs > nowMs
  }

  /** The retry that blocks a candidate on its own position, or the replay flag that bars a first delivery. */
  predicate NotYet(s: Partition, nowMs: nat, c: Candidate) {
    if c.position in s.pending then
      s.pending[c.position].notBeforeMs > nowMs || s.pending[c.position].eventId != c.eventId
    else
      c.replayed
  }

  /** A candidate `claim` passes over without spending credit. */
  predicate PassedOver(s: Partition, consumer: Text, nowMs: nat, c: Candidate) {
    || c.position in s.gaps
    || c.deliveryId in s.deliveries
    || Delivered(s, c.position)
    || NotYet(s, nowMs, c)
    || Blocked(s, c.aggregateId, c.position)
    || LeasedElsewhere(s, c.aggregateId, consumer, nowMs)
  }

  function DeliveryFor(s: Partition, consumer: Text, deadlineMs: nat, c: Candidate): Delivery {
    var retry := if c.position in s.pending then Some(s.pending[c.position]) else None;
    Delivery(c.deliveryId, consumer, c.position, c.aggregateId, c.version, c.eventId,
             if retry.Some? then retry.value.attempt else 0,
             deadlineMs, s.epoch,
             if retry.Some? then retry.value.replayed else c.replayed)
  }

  function HandOut(s: Partition, d: Delivery): Partition {
    s.(pending := s.pending - {d.position},
       leases := s.leases[d.aggregateId := Lease(d.consumerId, s.epoch, d.deadlineMs)],
       deliveries := s.deliveries[d.deliveryId := d])
  }

  /** The part of a claim call that does not change while it walks its candidates. */
  datatype Call = Call(consumer: Text, nowMs: nat, deadlineMs: nat, maxBytes: nat)

  /** Walk candidates; `first` says nothing was claimed yet, so the next one may exceed the byte budget. */
  function ClaimFrom(s: Partition, call: Call, credit: nat, bytes: nat, first: bool,
                     candidates: seq<Candidate>): Claimed
    decreases candidates
  {
    if candidates == [] || credit == 0 || candidates[0].position < s.next then Claimed(s, [], [])
    else
      var c := candidates[0];
      if PassedOver(s, call.consumer, call.nowMs, c) then
        ClaimFrom(s, call, credit, bytes, first, candidates[1..])
      else if !first && SatAdd64(bytes, c.payloadBytes) > call.maxBytes then Claimed(s, [], [])
      else
        var d := DeliveryFor(s, call.consumer, call.deadlineMs, c);
        var rest := ClaimFrom(HandOut(s, d), call, credit - 1, SatAdd64(bytes, c.payloadBytes), false, candidates[1..]);
        Claimed(rest.state, [d] + rest.deliveries, [HandedOut(d.position)] + rest.trace)
  }

  predicate Refused(consumer: Text, nowMs: nat, deadlineMs: nat, settings: Settings, maxClaim: nat, maxBytes: nat) {
    consumer == [] || deadlineMs <= nowMs || maxClaim == 0 || maxBytes == 0 || !settings.Valid()
  }

  function Claim(s: Partition, consumer: Text, nowMs: nat, deadlineMs: nat, settings: Settings,
                 maxClaim: nat, maxBytes: nat, candidates: seq<Candidate>): Claimed
  {
    if Refused(consumer, nowMs, deadlineMs, settings, maxClaim, maxBytes) then Claimed(s, [], [])
    else
      var expired := Expire(s, nowMs, settings);
      var credit := Min(AvailableCredit(expired.state, consumer, settings), maxClaim);
      var claimed := ClaimFrom(expired.state, Call(consumer, nowMs, deadlineMs, maxBytes), credit, 0, true, candidates);
      claimed.(trace := expired.trace + claimed.trace)
  }

  // ---------------------------------------------------------------- commands

  datatype Command =
    | ClaimCommand(consumer: Text, nowMs: nat, deadlineMs: nat, maxClaim: nat, maxBytes: nat,
                   candidates: seq<Candidate>)
    | SettleCommand(consumer: Text, nowMs: nat, items: seq<Settlement>)
    | RenewCommand(consumer: Text, deadlineMs: nat, ids: seq<Uuid>)
    | ExpireCommand(nowMs: nat)

  datatype Reply =
    | ClaimedReply(deliveries: seq<Delivery>)
    | SettledReply(results: seq<SettlementResult>)
    | RenewedReply(results: seq<SettlementResult>)
    | ExpiredReply(count: nat)

  datatype Executed = Executed(state: Partition, reply: Reply, trace: seq<Outcome>)

  function Execute(s: Partition, groupEpoch: nat, settings: Settings, command: Command): Executed {
    match command
    case ClaimCommand(consumer, nowMs, deadlineMs, maxClaim, maxBytes, candidates) =>
      var r := Claim(s, consumer, nowMs, deadlineMs, settings, maxClaim, maxBytes, candidates);
      Executed(r.state, ClaimedReply(r.deliveries), r.trace)
    case SettleCommand(consumer, nowMs, items) =>
      var r := Settle(s, consumer, groupEpoch, nowMs, settings, items);
      Executed(r.state, SettledReply(r.results), r.trace)
    case RenewCommand(consumer, deadlineMs, ids) =>
      var r := Renew(s, consumer, groupEpoch, deadlineMs, ids);
      Executed(r.state, RenewedReply(r.results), [])
    case ExpireCommand(nowMs) =>
      var r := Expire(s, nowMs, settings);
      Executed(r.state, ExpiredReply(r.count), r.trace)
  }
}
