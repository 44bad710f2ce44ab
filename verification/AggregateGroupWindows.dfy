/**
 * When a claim looks at its window at all. A claim first takes back what has run out; if that moves the checkpoint past
 * the window's first position, the claim hands out nothing, however many candidates are free.
 */
module AggregateGroupWindows {
  import opened Base
  import opened AggregateGroup
  import opened AggregateGroupInvariant
  import opened AggregateGroupRuns
  import opened AggregateGroupFates
  import opened AggregateGroupClaims
  import Redelivery = AggregateGroupRedelivery

  /** The checkpoint position is out with a delivery that has run out and has no attempt left. */
  ghost predicate CheckpointLost(s: Partition, nowMs: nat, settings: Settings) {
    exists id :: Lost(s, id, nowMs, settings)
  }

  predicate Lost(s: Partition, id: Uuid, nowMs: nat, settings: Settings) {
    && id in s.deliveries && s.deliveries[id].position == s.next && s.deliveries[id].deadlineMs <= nowMs
    && settings.maxRetries < Min(s.deliveries[id].attempt + 1, U32_MAX)
  }

  lemma CheckpointMoves(s: Partition, e: Partition, nowMs: nat, settings: Settings)
    requires Left(s, e, LateFates(s, nowMs, settings), nowMs) && !Resolved(s, s.next)
    ensures Resolved(e, s.next) <==> CheckpointLost(s, nowMs, settings)
  {
    var fates := LateFates(s, nowMs, settings);
    hide Retried, Kept, Settings.RetryDelayMs;
    forall id ensures Ends(s, fates, id, s.next) <==> Lost(s, id, nowMs, settings) {
    }
  }

  /**
   * A claim looks at its window exactly when the window begins at the checkpoint and the checkpoint position is not out
   * with a delivery that has run out and has no attempt left. Then, and only then, is a free candidate left out for
   * want of room alone.
   */
  lemma WindowIsLookedAt(sys: System, groupEpoch: nat, settings: Settings, command: Command)
    requires Good(sys) && command.ClaimCommand? && WellBuilt(sys, command) && command.candidates != []
    ensures var s := sys.state;
            var e := Execute(s, groupEpoch, settings, ExpireCommand(command.nowMs)).state;
            e.next <= command.candidates[0].position <==>
            command.candidates[0].position == s.next && !CheckpointLost(s, command.nowMs, settings)
  {
    hide Inv, Expire, Left, Released, LateFates, CheckpointLost, Window, Fresh;
    var s := sys.state;
    var e := Execute(s, groupEpoch, settings, ExpireCommand(command.nowMs)).state;
    ExpireMeans(sys, groupEpoch, settings, command.nowMs);
    ExpireKeeps(s, command.nowMs, settings, sys.start, sys.log, sys.trace);
    var more := Expire(s, command.nowMs, settings).trace;
    NextUnresolved(s, sys.start, sys.log, sys.trace);
    NextUnresolved(e, sys.start, sys.log, sys.trace + more);
    CheckpointMoves(s, e, command.nowMs, settings);
  }

  // ---------------------------------------------------------------- a run that does it

  function Of(id: Uuid, position: nat, e: LogEvent): Candidate {
    Candidate(id, position, e.aggregateId, e.version, e.eventId, e.payloadBytes, false)
  }

  /** The first of two events is claimed with a deadline of one. */
  function FirstClaim(a: LogEvent, settings: Settings): Event {
    Request(1, 0, settings, ClaimCommand(Redelivery.CONSUMER, 0, 1, 1, 1, [Of(0, 0, a)]))
  }

  /** Both are claimed when that deadline has come. */
  function SecondClaim(a: LogEvent, b: LogEvent): Command {
    ClaimCommand(Redelivery.CONSUMER, 1, 2, 1, 1, [Of(1, 0, a), Of(2, 1, b)])
  }

  function TheDelivery(a: LogEvent): Delivery {
    Delivery(0, Redelivery.CONSUMER, 0, a.aggregateId, a.version, a.eventId, 0, 1, 1, false)
  }

  function AfterFirst(a: LogEvent, b: LogEvent): System {
    System(HandOut(New(1, 0), TheDelivery(a)), 0, [a, b], [HandedOut(0)])
  }

  lemma FirstHandsOut(a: LogEvent, settings: Settings)
    requires settings.Valid()
    ensures var r := Claim(New(1, 0), Redelivery.CONSUMER, 0, 1, settings, 1, 1, [Of(0, 0, a)]);
            r.state == HandOut(New(1, 0), TheDelivery(a)) && r.trace == [HandedOut(0)]
  {
    var s, c := New(1, 0), Of(0, 0, a);
    assert Busy(s) == {};
    Redelivery.NothingInTheWay(s, c, 0);
    hide Claim, PassedOver, Busy, HandOut;
    Redelivery.ClaimOne(s, Redelivery.CONSUMER, 0, 1, settings, c);
  }

  lemma FirstClaimRuns(a: LogEvent, b: LogEvent, settings: Settings)
    requires settings.Valid()
    ensures Step(Initial(1, 0, [a, b]), FirstClaim(a, settings)) == AfterFirst(a, b)
    ensures Admissible(Initial(1, 0, [a, b]), FirstClaim(a, settings))
  {
    hide Claim, HandOut, Settings.Valid;
    FirstHandsOut(a, settings);
    assert [Of(0, 0, a)][0] == Of(0, 0, a) && [a, b][0] == a;
  }

  lemma AfterFirstIsReachable(a: LogEvent, b: LogEvent, settings: Settings)
    requires settings.Valid()
    ensures Reachable(AfterFirst(a, b))
  {
    hide Admissible, Step;
    FirstClaimRuns(a, b, settings);
    var events := [FirstClaim(a, settings)];
    assert events[1..] == [];
    assert Run(AfterFirst(a, b), []) == AfterFirst(a, b) && AdmissibleRun(AfterFirst(a, b), []);
    assert Run(Initial(1, 0, [a, b]), events) == AfterFirst(a, b);
  }

  /**
   * A run that leaves a free candidate out for no want of room. Under settings without retries the first of two events
   * is claimed and runs out; the claim that finds it so parks it, and hands out nothing, though the second event is
   * free and there is credit.
   */
  lemma FreeIsLeftOut(a: LogEvent, b: LogEvent, settings: Settings)
    requires settings.Valid() && settings.maxRetries == 0
    ensures var sys, command := AfterFirst(a, b), SecondClaim(a, b);
            var e := Execute(sys.state, 1, settings, ExpireCommand(1)).state;
            && Reachable(sys) && WellBuilt(sys, command) && !Empty(command, settings)
            && Free(e, Redelivery.CONSUMER, 1, command.candidates[1]) && Credit(e, Redelivery.CONSUMER, settings) > 0
            && Execute(sys.state, 1, settings, command).reply == ClaimedReply([])
  {
    var sys, command := AfterFirst(a, b), SecondClaim(a, b);
    AfterFirstIsReachable(a, b, settings);
    ReachableIsGood(sys);
    SecondIsWellBuilt(a, b);
    var s := sys.state;
    assert s.deliveries == map[0 := TheDelivery(a)] && s.next == 0 && s.pending == map[] && s.gaps == {};
    hide Reachable, Good, HandOut, Execute, WellBuilt;
    var e := Execute(s, 1, settings, ExpireCommand(1)).state;
    assert Lost(s, 0, 1, settings);
    WindowIsLookedAt(sys, 1, settings, command);
    ClaimMeans(sys, 1, settings, command);
    ExpireMeans(sys, 1, settings, 1);
    AllGone(s, e, settings, a);
    NothingChosen(e, Execute(s, 1, settings, command).state, Execute(s, 1, settings, command).reply.deliveries,
                  settings, command);
  }

  lemma SecondIsWellBuilt(a: LogEvent, b: LogEvent)
    ensures WellBuilt(AfterFirst(a, b), SecondClaim(a, b))
  {
    var candidates, log := SecondClaim(a, b).candidates, [a, b];
    assert candidates[0] == Of(1, 0, a) && candidates[1] == Of(2, 1, b) && log[0] == a && log[1] == b;
  }

  lemma NothingChosen(e: Partition, t: Partition, ds: seq<Delivery>, settings: Settings, command: Command)
    requires command.ClaimCommand? && Granted(e, t, ds, settings, command)
    requires command.candidates != [] && command.candidates[0].position < e.next
    ensures ds == []
  {
    hide HandedOver, FreeOnes, Credit;
  }

  /** After the expiry nothing is out and only the first position is resolved. */
  lemma AllGone(s: Partition, e: Partition, settings: Settings, a: LogEvent)
    requires settings.Valid() && settings.maxRetries == 0
    requires s.deliveries == map[0 := TheDelivery(a)] && s.next == 0 && s.pending == map[] && s.gaps == {}
    requires Left(s, e, LateFates(s, 1, settings), 1) && Released(s, e)
    ensures forall c: Candidate :: c.position == 1 ==> Free(e, Redelivery.CONSUMER, 1, c)
    ensures Credit(e, Redelivery.CONSUMER, settings) > 0
  {
    OnlyFate(s, settings, a);
    var fates := LateFates(s, 1, settings);
    hide LateFates;
    NothingOut(s, e, fates, a);
    hide Left, Kept;
    assert forall c: Candidate :: c.position == 1 ==> Free(e, Redelivery.CONSUMER, 1, c);
    CreditIsAvailable(e, Redelivery.CONSUMER, settings);
    hide Credit, AvailableCredit;
    Redelivery.IdleCredit(e, Redelivery.CONSUMER, settings);
  }

  lemma OnlyFate(s: Partition, settings: Settings, a: LogEvent)
    requires settings.maxRetries == 0 && s.deliveries == map[0 := TheDelivery(a)]
    ensures LateFates(s, 1, settings) == map[0 := SetAside(ACK_TIMEOUT)]
  {
    hide Settings.RetryDelayMs;
  }

  lemma NothingOut(s: Partition, e: Partition, fates: map<Uuid, Fate>, a: LogEvent)
    requires s.deliveries == map[0 := TheDelivery(a)] && s.next == 0 && s.pending == map[] && s.gaps == {}
    requires fates == map[0 := SetAside(ACK_TIMEOUT)] && Left(s, e, fates, 1)
    ensures e.deliveries == map[] && Busy(e) == {} && !Resolved(e, 1)
  {
    hide Kept;
    assert forall id, p :: !TriesAgain(s, fates, id, p);
    assert e.pending == map[];
    assert forall id :: !Ends(s, fates, id, 1);
  }
}
