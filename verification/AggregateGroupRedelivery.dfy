/**
 * Redelivery without end. When `maxRetries` is the top of `u32` the attempt counter can never pass it, and a position
 * that is always sent back is handed out as often as one likes: the bound on redelivery holds below the top and only there.
 */
module AggregateGroupRedelivery {
  import opened Base
  import opened AggregateGroup
  import opened AggregateGroupInvariant
  import opened AggregateGroupRuns
  import opened AggregateGroupLimits

  // ---------------------------------------------------------------- one candidate

  /** Nothing is out and no lease is idle: expiry finds nothing to do. */
  ghost predicate Idle(s: Partition) {
    s.deliveries == map[] && s.leases.Keys <= Busy(s)
  }

  lemma IdleExpires(s: Partition, nowMs: nat, settings: Settings)
    requires Idle(s)
    ensures Expire(s, nowMs, settings).state == s && Expire(s, nowMs, settings).trace == []
  {
    assert ExpiredIds(s, nowMs) == {};
    assert Ascending({}) == [];
    IdleKeepsLeases(s);
  }

  lemma IdleKeepsLeases(s: Partition)
    requires Idle(s)
    ensures ReleaseUnusedLeases(s) == s
  {
    assert ReleaseUnusedLeases(s).leases == s.leases;
  }

  lemma IdleCredit(s: Partition, consumer: Text, settings: Settings)
    requires Idle(s) && settings.Valid()
    ensures AvailableCredit(s, consumer, settings) >= 1
  {
    assert Held(s, consumer) == {};
  }

  /** A claim of one candidate that nothing stands in the way of. */
  lemma ClaimOne(s: Partition, consumer: Text, nowMs: nat, deadlineMs: nat, settings: Settings, c: Candidate)
    requires Idle(s) && !Refused(consumer, nowMs, deadlineMs, settings, 1, 1)
    requires s.next <= c.position && !PassedOver(s, consumer, nowMs, c)
    ensures var d := DeliveryFor(s, consumer, deadlineMs, c);
            Claim(s, consumer, nowMs, deadlineMs, settings, 1, 1, [c]) == Claimed(HandOut(s, d), [d],
                [HandedOut(c.position)])
  {
    hide Idle, Expire, AvailableCredit, PassedOver, DeliveryFor, HandOut, ClaimFrom;
    IdleExpires(s, nowMs, settings);
    IdleCredit(s, consumer, settings);
    WalkOne(s, Call(consumer, nowMs, deadlineMs, 1), c);
    Prepended(HandedOut(c.position));
  }

  lemma Prepended<T>(x: T)
    ensures [] + [x] == [x] && [x] + [] == [x] && [x][1..] == []
  {
  }

  lemma WalkOne(s: Partition, call: Call, c: Candidate)
    requires s.next <= c.position && !PassedOver(s, call.consumer, call.nowMs, c)
    ensures var d := DeliveryFor(s, call.consumer, call.deadlineMs, c);
            ClaimFrom(s, call, 1, 0, true, [c]) == Claimed(HandOut(s, d), [d], [HandedOut(c.position)])
  {
    hide PassedOver, HandOut;
    var d := DeliveryFor(s, call.consumer, call.deadlineMs, c);
    Prepended(c);
    Prepended(d);
    Prepended(HandedOut(c.position));
    assert ClaimFrom(HandOut(s, d), call, 0, SatAdd64(0, c.payloadBytes), false, []) == Claimed(HandOut(s, d), [], []);
  }

  // ---------------------------------------------------------------- one round

  const CONSUMER: Text := [97]

  /** Each round takes place as late as the longest delay asks for. */
  function Clock(k: nat, settings: Settings): nat {
    if k == 0 then 0 else Clock(k - 1, settings) + settings.retryMaxMs
  }

  function Again(k: nat, e: LogEvent): Candidate {
    Candidate(k, 0, e.aggregateId, e.version, e.eventId, e.payloadBytes, false)
  }

  /** The event is claimed and at once sent back. */
  function ClaimIt(k: nat, e: LogEvent, settings: Settings): Event {
    Request(1, 0, settings, ClaimCommand(CONSUMER, Clock(k, settings), Clock(k, settings) + 1, 1, 1, [Again(k, e)]))
  }

  function SendBack(k: nat, settings: Settings): Event {
    Request(1, 0, settings, SettleCommand(CONSUMER, Clock(k, settings), [Settlement(k, RetryLater, [])]))
  }

  function RetryOf(k: nat, e: LogEvent, settings: Settings): Retry
    requires k > 0
  {
    var attempt := Min(k, U32_MAX);
    Retry(0, e.aggregateId, e.version, e.eventId, attempt, SatAdd64(Clock(k - 1, settings),
                                                                    settings.RetryDelayMs(attempt)), false)
  }

  /** The progress after `k` rounds: the event waits for its next delivery. */
  function Waiting(k: nat, e: LogEvent, settings: Settings): Partition {
    if k == 0 then New(1, 0)
    else Partition(1, 0, {}, map[e.aggregateId := Lease(CONSUMER, 1, Clock(k - 1, settings) + 1)], map[],
                   map[0 := RetryOf(k, e, settings)], map[])
  }

  /** By the next round the retry is due. */
  lemma RetryIsDue(k: nat, e: LogEvent, settings: Settings)
    requires k > 0
    ensures RetryOf(k, e, settings).notBeforeMs <= Clock(k, settings)
  {
    hide Pow2;
  }

  function DeliveryOf(k: nat, e: LogEvent, settings: Settings): Delivery {
    Delivery(k, CONSUMER, 0, e.aggregateId, e.version, e.eventId, Min(k, U32_MAX), Clock(k, settings) + 1, 1, false)
  }

  /** The progress in round `k` while the event is out. */
  function Delivering(k: nat, e: LogEvent, settings: Settings): Partition {
    Partition(1, 0, {}, map[e.aggregateId := Lease(CONSUMER, 1, Clock(k, settings) + 1)],
              map[k := DeliveryOf(k, e, settings)], map[], map[])
  }

  lemma WaitingIsIdle(k: nat, e: LogEvent, settings: Settings)
    ensures Idle(Waiting(k, e, settings))
  {
    hide Clock, Settings.RetryDelayMs;
    var s := Waiting(k, e, settings);
    if k > 0 {
      assert 0 in s.pending && s.pending[0].aggregateId == e.aggregateId;
    }
  }

  /** Progress that knows of nothing but one position and one instance, and has nothing out. */
  ghost predicate Lone(s: Partition, position: nat, aggregateId: Text) {
    && s.pending.Keys <= {position} && s.leases.Keys <= {aggregateId}
    && s.deliveries == map[] && s.parked == map[] && s.gaps == {}
  }

  lemma WaitingIsLone(k: nat, e: LogEvent, settings: Settings)
    ensures var s := Waiting(k, e, settings);
            Lone(s, 0, e.aggregateId) && s.epoch == 1 && s.next == 0
  {
    hide Clock, RetryOf;
  }

  lemma NothingInTheWay(s: Partition, c: Candidate, nowMs: nat)
    requires Lone(s, c.position, c.aggregateId) && !c.replayed
    requires c.aggregateId in s.leases ==> s.leases[c.aggregateId].consumerId == CONSUMER
    requires c.position in s.pending ==>
               var r := s.pending[c.position];
               r.notBeforeMs <= nowMs && r.eventId == c.eventId && r.position == c.position
    ensures !PassedOver(s, CONSUMER, nowMs, c)
  {
  }

  lemma Due(k: nat, e: LogEvent, settings: Settings)
    ensures !PassedOver(Waiting(k, e, settings), CONSUMER, Clock(k, settings), Again(k, e))
  {
    hide PassedOver, Lone, Clock, Settings.RetryDelayMs;
    WaitingIsLone(k, e, settings);
    if k > 0 {
      RetryIsDue(k, e, settings);
    }
    NothingInTheWay(Waiting(k, e, settings), Again(k, e), Clock(k, settings));
  }

  /** The delivery of a round, whether the event is new or waiting. */
  lemma NextDelivery(k: nat, e: LogEvent, settings: Settings)
    ensures DeliveryFor(Waiting(k, e, settings), CONSUMER, Clock(k, settings) + 1, Again(k, e)) ==
            DeliveryOf(k, e, settings)
  {
    hide Settings.RetryDelayMs, Clock;
    var s := Waiting(k, e, settings);
    assert s.epoch == 1;
    if k > 0 {
      var retry := RetryOf(k, e, settings);
      assert s.pending[0] == retry && retry.attempt == Min(k, U32_MAX) && !retry.replayed;
    } else {
      assert 0 !in s.pending;
    }
    hide Waiting, RetryOf;
  }

  lemma HandedOver(s: Partition, d: Delivery)
    requires Lone(s, d.position, d.aggregateId)
    ensures HandOut(s, d) ==
            Partition(s.epoch, s.next, {}, map[d.aggregateId := Lease(d.consumerId, s.epoch, d.deadlineMs)],
                                       map[d.deliveryId := d], map[], map[])
  {
    var r := HandOut(s, d);
    assert r.pending == map[];
    assert r.leases == map[d.aggregateId := Lease(d.consumerId, s.epoch, d.deadlineMs)];
    assert r.deliveries == map[d.deliveryId := d];
  }

  lemma HandsOut(k: nat, e: LogEvent, settings: Settings)
    ensures var s := Waiting(k, e, settings);
            HandOut(s, DeliveryFor(s, CONSUMER, Clock(k, settings) + 1, Again(k, e))) == Delivering(k, e, settings)
  {
    hide Clock, HandOut, DeliveryFor, Waiting, Lone;
    WaitingIsLone(k, e, settings);
    NextDelivery(k, e, settings);
    HandedOver(Waiting(k, e, settings), DeliveryOf(k, e, settings));
  }

  lemma ClaimRound(k: nat, e: LogEvent, settings: Settings)
    requires settings.Valid()
    ensures var r := Execute(Waiting(k, e, settings), 1, settings, ClaimIt(k, e, settings).command);
            r.state == Delivering(k, e, settings) && r.trace == [HandedOut(0)]
  {
    WaitingIsIdle(k, e, settings);
    Due(k, e, settings);
    HandsOut(k, e, settings);
    hide Delivering, HandOut, DeliveryFor, PassedOver, Idle, Clock, Claim;
    assert Waiting(k, e, settings).next == 0;
    hide Waiting;
    ClaimOne(Waiting(k, e, settings), CONSUMER, Clock(k, settings), Clock(k, settings) + 1, settings, Again(k, e));
  }

  lemma BackRound(k: nat, e: LogEvent, settings: Settings)
    requires settings.maxRetries == U32_MAX
    ensures var r := Execute(Delivering(k, e, settings), 1, settings, SendBack(k, settings).command);
            r.state == Waiting(k + 1, e, settings) && r.trace == [Deferred(0)]
  {
    hide Clock, Settings.RetryDelayMs;
    var s, now := Delivering(k, e, settings), Clock(k, settings);
    var d := s.deliveries[k];
    var t := WithoutDelivery(s, k);
    assert t.deliveries == map[];
    assert SatAdd32(d.attempt, 1) == Min(k + 1, U32_MAX);
    var m := RetryOrPark(t, d, [], now, settings);
    assert m.state.pending == Waiting(k + 1, e, settings).pending;
    assert m.state == Waiting(k + 1, e, settings) && m.trace == [Deferred(0)];
    WaitingIsIdle(k + 1, e, settings);
    IdleKeepsLeases(m.state);
    var items := [Settlement(k, RetryLater, [])];
    assert items[1..] == [];
    hide RetryOrPark, ReleaseUnusedLeases, Waiting, WithoutDelivery;
    assert SettleAll(m.state, CONSUMER, now, settings, []) == Settled(m.state, [], []);
    assert m.trace + [] == m.trace;
  }

  // ---------------------------------------------------------------- as many rounds as one likes

  function Rounds(n: nat, e: LogEvent, settings: Settings): seq<Event> {
    if n == 0 then [] else Rounds(n - 1, e, settings) + [ClaimIt(n - 1, e, settings)] + [SendBack(n - 1, settings)]
  }

  function Told(n: nat): seq<Outcome> {
    if n == 0 then [] else Told(n - 1) + [HandedOut(0)] + [Deferred(0)]
  }

  lemma {:induction false} RunSnoc(sys: System, events: seq<Event>, e: Event)
    ensures Run(sys, events + [e]) == Step(Run(sys, events), e)
    ensures AdmissibleRun(sys, events) && Admissible(Run(sys, events), e) ==> AdmissibleRun(sys, events + [e])
    decreases events
  {
    hide Step, Admissible;
    if events == [] {
      assert [] + [e] == [e] && [e][1..] == [];
    } else {
      assert (events + [e])[0] == events[0] && (events + [e])[1..] == events[1..] + [e];
      RunSnoc(Step(sys, events[0]), events[1..], e);
    }
  }

  lemma ClaimIsBuilt(n: nat, e: LogEvent, settings: Settings, trace: seq<Outcome>)
    ensures Admissible(System(Waiting(n, e, settings), 0, [e], trace), ClaimIt(n, e, settings))
    ensures Admissible(System(Delivering(n, e, settings), 0, [e], trace), SendBack(n, settings))
  {
    hide Clock, Settings.RetryDelayMs;
    var c := Again(n, e);
    assert Window([c], [e]);
    assert Fresh([c], Waiting(n, e, settings));
  }

  lemma OneRound(n: nat, e: LogEvent, settings: Settings, trace: seq<Outcome>)
    requires settings.Valid() && settings.maxRetries == U32_MAX
    ensures var sys := System(Waiting(n, e, settings), 0, [e], trace);
            var claimed := System(Delivering(n, e, settings), 0, [e], trace + [HandedOut(0)]);
            && Step(sys, ClaimIt(n, e, settings)) == claimed
            && Step(claimed, SendBack(n, settings)) == System(Waiting(n + 1, e, settings), 0, [e],
                                                              trace + [HandedOut(0)] + [Deferred(0)])
  {
    ClaimRound(n, e, settings);
    BackRound(n, e, settings);
    EpochsOne(n, e, settings);
    hide Waiting, Delivering, Execute, Clock;
  }

  lemma EpochsOne(n: nat, e: LogEvent, settings: Settings)
    ensures Waiting(n, e, settings).epoch == Delivering(n, e, settings).epoch == 1
  {
  }

  lemma RoundsNext(n: nat, e: LogEvent, settings: Settings)
    requires n > 0
    ensures Rounds(n, e, settings) == Rounds(n - 1, e, settings) + [ClaimIt(n - 1, e, settings)] + [SendBack(n - 1,
        settings)]
    ensures Told(n) == Told(n - 1) + [HandedOut(0)] + [Deferred(0)]
  {
  }

  lemma {:induction false} RoundsRun(n: nat, e: LogEvent, settings: Settings)
    requires settings.Valid() && settings.maxRetries == U32_MAX
    ensures AdmissibleRun(Initial(1, 0, [e]), Rounds(n, e, settings))
    ensures Run(Initial(1, 0, [e]), Rounds(n, e, settings)) == System(Waiting(n, e, settings), 0, [e], Told(n))
  {
    if n > 0 {
      RoundsRun(n - 1, e, settings);
      hide Waiting, Delivering, Step, Admissible, Run, AdmissibleRun, ClaimIt, SendBack;
      var before, claim, back := Rounds(n - 1, e, settings), ClaimIt(n - 1, e, settings), SendBack(n - 1, settings);
      hide Rounds, Told;
      RoundsNext(n, e, settings);
      OneRound(n - 1, e, settings, Told(n - 1));
      ClaimIsBuilt(n - 1, e, settings, Told(n - 1));
      ClaimIsBuilt(n - 1, e, settings, Told(n - 1) + [HandedOut(0)]);
      RunSnoc(Initial(1, 0, [e]), before, claim);
      RunSnoc(Initial(1, 0, [e]), before + [claim], back);
    }
  }

  lemma {:induction false} RoundsFixed(n: nat, e: LogEvent, settings: Settings)
    ensures FixedSettings(Rounds(n, e, settings), settings)
  {
    if n > 0 {
      RoundsFixed(n - 1, e, settings);
    }
  }

  lemma {:induction false} ToldHandouts(n: nat)
    ensures Handouts(Told(n), 0) == n
  {
    if n > 0 {
      ToldHandouts(n - 1);
      HandoutsSnoc(Told(n - 1), HandedOut(0), 0);
      HandoutsSnoc(Told(n - 1) + [HandedOut(0)], Deferred(0), 0);
      hide Handouts;
    }
  }

  /**
   * Whatever bound one names, at the top of `u32` some admissible run hands a position out more often. The clock of the
   * run moves on by the longest delay in every round.
   */
  lemma RedeliveryUnbounded(settings: Settings, e: LogEvent, bound: nat)
    requires settings.Valid() && settings.maxRetries == U32_MAX
    ensures var events := Rounds(bound + 1, e, settings);
            && AdmissibleRun(Initial(1, 0, [e]), events) && FixedSettings(events, settings)
            && Handouts(Run(Initial(1, 0, [e]), events).trace, 0) > bound
  {
    hide Rounds, Run, AdmissibleRun, FixedSettings, Handouts, Told;
    RoundsRun(bound + 1, e, settings);
    RoundsFixed(bound + 1, e, settings);
    ToldHandouts(bound + 1);
  }

  /** A number of hand-outs that no admissible run under these settings exceeds. */
  ghost predicate Bounds(settings: Settings, bound: nat) {
    forall epoch: nat, start: nat, log: Log, events: seq<Event>, p: nat ::
      start <= |log| <= U64_MAX && AdmissibleRun(Initial(epoch, start, log), events) && FixedSettings(events, settings)
      ==> Handouts(Run(Initial(epoch, start, log), events).trace, p) <= bound
  }

  /**
   * Redelivery is bounded exactly when the limit on retries is below the top of `u32`, and then by one more than
   * it.
   */
  lemma RedeliveryBoundedExactly(settings: Settings)
    requires settings.Valid() && settings.Fits()
    ensures (exists bound: nat :: Bounds(settings, bound)) <==> settings.maxRetries < U32_MAX
    ensures settings.maxRetries < U32_MAX ==> Bounds(settings, settings.maxRetries + 1)
  {
    hide Run, AdmissibleRun, FixedSettings, Handouts, Rounds;
    if settings.maxRetries < U32_MAX {
      forall epoch: nat, start: nat, log: Log, events: seq<Event>, p: nat
        | start <= |log| <= U64_MAX && AdmissibleRun(Initial(epoch, start, log), events) &&
          FixedSettings(events, settings)
        ensures Handouts(Run(Initial(epoch, start, log), events).trace, p) <= settings.maxRetries + 1
      {
        BoundedRedelivery(epoch, start, log, events, settings, p);
      }
      assert Bounds(settings, settings.maxRetries + 1);
    } else {
      forall bound: nat ensures !Bounds(settings, bound) {
        RedeliveryUnbounded(settings, LogEvent([], 0, 0, 0), bound);
      }
    }
  }
}
