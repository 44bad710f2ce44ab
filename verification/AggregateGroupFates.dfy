/**
 * What settling, expiring and renewing mean, said of the state before, the state after and the answers alone: whose
 * deliveries leave, what becomes of each, and what each request is told.
 */
module AggregateGroupFates {
  import opened Base
  import opened AggregateGroup
  import opened AggregateGroupInvariant
  import opened AggregateGroupRuns

  // ---------------------------------------------------------------- fates

  /** What becomes of a delivery that leaves: its position is finished, set aside for good, or tried again later. */
  datatype Fate = Finished | SetAside(reason: Text) | TriedAgain(attempt: nat, dueMs: nat)

  /** A failed attempt is tried again until the retries are used up. */
  function Failed(d: Delivery, reason: Text, nowMs: nat, settings: Settings): Fate {
    var attempt := Min(d.attempt + 1, U32_MAX);
    if settings.maxRetries < attempt then SetAside(reason)
    else TriedAgain(attempt, Min(nowMs + settings.RetryDelayMs(attempt), U64_MAX))
  }

  function FateOf(d: Delivery, item: Settlement, nowMs: nat, settings: Settings): Fate {
    match item.action
    case Ack => Finished
    case Skip => Finished
    case Park => SetAside(item.reason)
    case RetryLater => Failed(d, item.reason, nowMs, settings)
  }

  /** The retry a delivery leaves behind. */
  function RetryOf(d: Delivery, attempt: nat, dueMs: nat): Retry {
    Retry(d.position, d.aggregateId, d.version, d.eventId, attempt, dueMs, d.replayed)
  }

  function ItemOf(d: Delivery, reason: Text, nowMs: nat): ParkedItem {
    ParkedItem(d.position, d.aggregateId, d.version, d.eventId, d.attempt, reason, nowMs)
  }

  // ---------------------------------------------------------------- the state after, collection by collection

  /** Exactly the deliveries with a fate are gone; the others are as they were. */
  ghost predicate Gone(s: Partition, t: Partition, fates: map<Uuid, Fate>) {
    fates.Keys <= s.deliveries.Keys && t.deliveries == s.deliveries - fates.Keys && t.epoch == s.epoch
  }

  ghost predicate TriesAgain(s: Partition, fates: map<Uuid, Fate>, id: Uuid, p: nat) {
    id in fates && id in s.deliveries && fates[id].TriedAgain? && s.deliveries[id].position == p
  }

  /** The retries are those before and one for each delivery tried again. */
  ghost predicate Retried(s: Partition, t: Partition, fates: map<Uuid, Fate>) {
    && (forall p :: p in s.pending ==> p in t.pending && t.pending[p] == s.pending[p])
    && (forall p :: p in t.pending ==> p in s.pending || exists id :: TriesAgain(s, fates, id, p))
    && (forall id, p :: TriesAgain(s, fates, id, p) ==>
          p in t.pending && t.pending[p] == RetryOf(s.deliveries[id], fates[id].attempt, fates[id].dueMs))
  }

  predicate IsSetAside(fates: map<Uuid, Fate>, id: Uuid) {
    id in fates && fates[id].SetAside?
  }

  /** The parked items are those before and one for each delivery set aside, with its reason and the time. */
  ghost predicate Kept(s: Partition, t: Partition, fates: map<Uuid, Fate>, nowMs: nat) {
    && (forall id :: id in t.parked <==> id in s.parked || (id in s.deliveries && IsSetAside(fates, id)))
    && (forall id :: id in s.deliveries && IsSetAside(fates, id) ==>
          t.parked[id] == ItemOf(s.deliveries[id], fates[id].reason, nowMs))
    && (forall id :: id in s.parked && !IsSetAside(fates, id) ==> t.parked[id] == s.parked[id])
  }

  ghost predicate Ends(s: Partition, fates: map<Uuid, Fate>, id: Uuid, p: nat) {
    id in fates && id in s.deliveries && !fates[id].TriedAgain? && s.deliveries[id].position == p
  }

  /** The resolved positions are those before and those of the deliveries finished or set aside. */
  ghost predicate Advanced(s: Partition, t: Partition, fates: map<Uuid, Fate>) {
    forall p: nat :: Resolved(t, p) <==> Resolved(s, p) || exists id :: Ends(s, fates, id, p)
  }

  ghost predicate Left(s: Partition, t: Partition, fates: map<Uuid, Fate>, nowMs: nat) {
    Gone(s, t, fates) && Retried(s, t, fates) && Kept(s, t, fates, nowMs) && Advanced(s, t, fates)
  }

  /** An instance keeps its lease, unchanged, exactly as long as something of it is outstanding. */
  ghost predicate Released(s: Partition, t: Partition) {
    && (forall a :: a in t.leases <==> a in s.leases && a in Busy(t))
    && (forall a :: a in t.leases ==> t.leases[a] == s.leases[a])
  }

  // ---------------------------------------------------------------- one delivery, then the rest

  /** Positions outstanding twice are what the invariant rules out. */
  lemma NotPendingToo(s: Partition, id: Uuid)
    requires Separate(s) && id in s.deliveries
    ensures s.deliveries[id].position !in s.pending
  {
  }

  lemma OneGone(s: Partition, id: Uuid, fate: Fate, nowMs: nat, t: Partition)
    requires id in s.deliveries && Separate(s)
    requires t.deliveries == s.deliveries - {id} && t.epoch == s.epoch
    requires var d := s.deliveries[id];
             t.pending == (if !fate.TriedAgain? then s.pending
                           else s.pending[d.position := RetryOf(d, fate.attempt, fate.dueMs)])
    requires var d := s.deliveries[id];
             t.parked == if fate.SetAside? then s.parked[id := ItemOf(d, fate.reason, nowMs)] else s.parked
    requires forall p: nat :: Resolved(t, p) <==>
               Resolved(s, p) || (!fate.TriedAgain? && p == s.deliveries[id].position)
    ensures Left(s, t, map[id := fate], nowMs)
  {
    var fates := map[id := fate];
    assert fates.Keys == {id};
    OneRetried(s, id, fate, t);
    OneKept(s, id, fate, nowMs, t);
    OneAdvanced(s, id, fate, t);
    hide Retried, Kept, Advanced;
  }

  lemma OneRetried(s: Partition, id: Uuid, fate: Fate, t: Partition)
    requires id in s.deliveries && Separate(s)
    requires var d := s.deliveries[id];
             t.pending == (if !fate.TriedAgain? then s.pending
                           else s.pending[d.position := RetryOf(d, fate.attempt, fate.dueMs)])
    ensures Retried(s, t, map[id := fate])
  {
    var q := s.deliveries[id].position;
    NotPendingToo(s, id);
    hide Separate;
    if fate.TriedAgain? { assert TriesAgain(s, map[id := fate], id, q); }
    assert forall i, p :: TriesAgain(s, map[id := fate], i, p) ==> i == id && p == q;
  }

  lemma OneKept(s: Partition, id: Uuid, fate: Fate, nowMs: nat, t: Partition)
    requires id in s.deliveries
    requires var d := s.deliveries[id];
             t.parked == if fate.SetAside? then s.parked[id := ItemOf(d, fate.reason, nowMs)] else s.parked
    ensures Kept(s, t, map[id := fate], nowMs)
  {
  }

  lemma OneAdvanced(s: Partition, id: Uuid, fate: Fate, t: Partition)
    requires id in s.deliveries
    requires forall p: nat :: Resolved(t, p) <==>
               Resolved(s, p) || (!fate.TriedAgain? && p == s.deliveries[id].position)
    ensures Advanced(s, t, map[id := fate])
  {
    var q := s.deliveries[id].position;
    hide Resolved;
    if !fate.TriedAgain? { assert Ends(s, map[id := fate], id, q); }
    assert forall i, p :: Ends(s, map[id := fate], i, p) ==> i == id && p == q;
  }

  lemma ThenGone(s: Partition, t: Partition, u: Partition, first: map<Uuid, Fate>, rest: map<Uuid, Fate>)
    requires Gone(s, t, first) && Gone(t, u, rest)
    ensures Gone(s, u, first + rest) && first.Keys !! rest.Keys
    ensures forall id :: id in rest ==> t.deliveries[id] == s.deliveries[id]
  {
    assert (first + rest).Keys == first.Keys + rest.Keys;
  }

  lemma ThenRetried(s: Partition, t: Partition, u: Partition, first: map<Uuid, Fate>, rest: map<Uuid, Fate>)
    requires Gone(s, t, first) && Gone(t, u, rest) && Retried(s, t, first) && Retried(t, u, rest)
    ensures Retried(s, u, first + rest)
  {
    var fates := first + rest;
    ThenGone(s, t, u, first, rest);
    forall id, p ensures TriesAgain(s, fates, id, p) <==> TriesAgain(s, first, id, p) || TriesAgain(t, rest, id, p) {
    }
    forall p | p in u.pending ensures p in s.pending || exists id :: TriesAgain(s, fates, id, p) {
      if p !in t.pending {
        var id :| TriesAgain(t, rest, id, p);
        assert TriesAgain(s, fates, id, p);
      } else if p !in s.pending {
        var id :| TriesAgain(s, first, id, p);
        assert TriesAgain(s, fates, id, p);
      }
    }
  }

  lemma ThenKept(s: Partition, t: Partition, u: Partition, first: map<Uuid, Fate>, rest: map<Uuid, Fate>, nowMs: nat)
    requires Gone(s, t, first) && Gone(t, u, rest) && Kept(s, t, first, nowMs) && Kept(t, u, rest, nowMs)
    ensures Kept(s, u, first + rest, nowMs)
  {
    ThenGone(s, t, u, first, rest);
    forall id ensures IsSetAside(first + rest, id) <==> IsSetAside(first, id) || IsSetAside(rest, id) {
    }
  }

  lemma ThenAdvanced(s: Partition, t: Partition, u: Partition, first: map<Uuid, Fate>, rest: map<Uuid, Fate>)
    requires Gone(s, t, first) && Gone(t, u, rest) && Advanced(s, t, first) && Advanced(t, u, rest)
    ensures Advanced(s, u, first + rest)
  {
    var fates := first + rest;
    ThenGone(s, t, u, first, rest);
    forall id, p ensures Ends(s, fates, id, p) <==> Ends(s, first, id, p) || Ends(t, rest, id, p) {
    }
    hide Ends, Resolved;
    forall p: nat ensures Resolved(u, p) <==> Resolved(s, p) || exists id :: Ends(s, fates, id, p) {
      if id :| Ends(s, first, id, p) { assert Ends(s, fates, id, p); }
      if id :| Ends(t, rest, id, p) { assert Ends(s, fates, id, p); }
    }
  }

  lemma ThenLeft(s: Partition, t: Partition, u: Partition, first: map<Uuid, Fate>, rest: map<Uuid, Fate>, nowMs: nat)
    requires Left(s, t, first, nowMs) && Left(t, u, rest, nowMs)
    ensures Left(s, u, first + rest, nowMs)
  {
    hide Gone, Retried, Kept, Advanced;
    ThenRetried(s, t, u, first, rest);
    ThenKept(s, t, u, first, rest, nowMs);
    ThenAdvanced(s, t, u, first, rest);
    ThenGone(s, t, u, first, rest);
  }

  lemma NobodyLeft(s: Partition, nowMs: nat)
    ensures Left(s, s, map[], nowMs)
  {
    var none: map<Uuid, Fate> := map[];
    assert s.deliveries - none.Keys == s.deliveries;
  }

  // ---------------------------------------------------------------- how each action ends one delivery

  lemma FinishedOne(s: Partition, id: Uuid, nowMs: nat, start: nat, log: Log)
    requires Shape(s, start, log) && id in s.deliveries
    ensures Left(s, Resolve(WithoutDelivery(s, id), s.deliveries[id].position), map[id := Finished], nowMs)
  {
    var t := Resolve(WithoutDelivery(s, id), s.deliveries[id].position);
    ResolveIsSettleStep(s, id, start, log);
    hide Shape, Left, Absorb;
    SameParked(WithoutDelivery(s, id), s.deliveries[id].position);
    ShapeSeparate(s, start, log);
    OneGone(s, id, Finished, nowMs, t);
  }

  lemma SameParked(s: Partition, position: nat)
    ensures Resolve(s, position).parked == s.parked
  {
  }

  lemma ShapeSeparate(s: Partition, start: nat, log: Log)
    requires Shape(s, start, log)
    ensures Separate(s) && forall id :: id in s.deliveries ==> s.deliveries[id].deliveryId == id
  {
  }

  lemma SetAsideOne(s: Partition, id: Uuid, reason: Text, nowMs: nat, start: nat, log: Log)
    requires Shape(s, start, log) && id in s.deliveries
    ensures Left(s, ParkDelivery(WithoutDelivery(s, id), s.deliveries[id], reason, nowMs), map[id := SetAside(reason)],
                 nowMs)
  {
    var d := s.deliveries[id];
    var t := Resolve(WithoutDelivery(s, id), d.position);
    var u := ParkDelivery(WithoutDelivery(s, id), d, reason, nowMs);
    ResolveIsSettleStep(s, id, start, log);
    ShapeSeparate(s, start, log);
    hide Shape, Left, Absorb;
    SameParked(WithoutDelivery(s, id), d.position);
    assert u == t.(parked := s.parked[id := ItemOf(d, reason, nowMs)]);
    hide Resolve, ParkDelivery;
    assert forall p: nat :: Resolved(u, p) <==> Resolved(t, p);
    OneGone(s, id, SetAside(reason), nowMs, u);
  }

  lemma FailedOne(s: Partition, id: Uuid, reason: Text, nowMs: nat, settings: Settings, start: nat, log: Log)
    requires Shape(s, start, log) && id in s.deliveries
    ensures Left(s, RetryOrPark(WithoutDelivery(s, id), s.deliveries[id], reason, nowMs, settings).state,
                 map[id := Failed(s.deliveries[id], reason, nowMs, settings)], nowMs)
  {
    var d := s.deliveries[id];
    var fate := Failed(d, reason, nowMs, settings);
    if fate.SetAside? {
      SetAsideOne(s, id, reason, nowMs, start, log);
    } else {
      ShapeSeparate(s, start, log);
      var t := Defer(WithoutDelivery(s, id), d, fate.attempt, nowMs, settings);
      hide Shape, Left, Settings.RetryDelayMs;
      assert t == s.(deliveries := s.deliveries - {id},
                     pending := s.pending[d.position := RetryOf(d, fate.attempt, fate.dueMs)]);
      assert forall p: nat :: Resolved(t, p) <==> Resolved(s, p);
      OneGone(s, id, fate, nowMs, t);
    }
  }

  lemma SettledOne(s: Partition, id: Uuid, item: Settlement, nowMs: nat, settings: Settings, start: nat, log: Log)
    requires Shape(s, start, log) && id in s.deliveries
    ensures Left(s, SettleOwned(s, id, nowMs, settings, item.action, item.reason).state,
                 map[id := FateOf(s.deliveries[id], item, nowMs, settings)], nowMs)
  {
    hide Shape, Left, Resolve, ParkDelivery, RetryOrPark, Failed;
    match item.action
    case Ack => FinishedOne(s, id, nowMs, start, log);
    case Skip => FinishedOne(s, id, nowMs, start, log);
    case Park => SetAsideOne(s, id, item.reason, nowMs, start, log);
    case RetryLater => FailedOne(s, id, item.reason, nowMs, settings, start, log);
  }

  // ---------------------------------------------------------------- settling a list

  /** The settlement a list asks for a delivery: the first that names it. */
  function Asked(items: seq<Settlement>, id: Uuid): Option<Settlement> {
    if items == [] then None else if items[0].deliveryId == id then Some(items[0]) else Asked(items[1..], id)
  }

  predicate Owns(s: Partition, consumer: Text, id: Uuid) {
    id in s.deliveries && s.deliveries[id].consumerId == consumer
  }

  /** The caller's own deliveries that the list names, each with the fate the list asks for first. */
  function AskedFates(s: Partition, consumer: Text, nowMs: nat, settings: Settings, items: seq<Settlement>):
    map<Uuid, Fate> {
    map id | id in s.deliveries && Owns(s, consumer, id) && Asked(items, id).Some? ::
      FateOf(s.deliveries[id], Asked(items, id).value, nowMs, settings)
  }

  /**
   * The answer to one settlement of a list, when `earlier` came before it: nobody holds the delivery, or somebody else
   * does, or the caller did and has settled it already, or it is applied.
   */
  function AnswerTo(s: Partition, consumer: Text, earlier: seq<Settlement>, id: Uuid): SettlementResult {
    if id !in s.deliveries then AlreadySettled
    else if s.deliveries[id].consumerId != consumer then WrongConsumer
    else if Asked(earlier, id).Some? then AlreadySettled
    else Applied
  }

  ghost predicate Answers(s: Partition, consumer: Text, items: seq<Settlement>, results: seq<SettlementResult>) {
    && |results| == |items|
    && forall i :: 0 <= i < |items| ==> results[i] == AnswerTo(s, consumer, items[..i], items[i].deliveryId)
  }

  lemma OthersAsked(s: Partition, t: Partition, consumer: Text, nowMs: nat, settings: Settings, items: seq<Settlement>)
    requires items != [] && !Owns(s, consumer, items[0].deliveryId) && t == s
    ensures AskedFates(s, consumer, nowMs, settings, items) == AskedFates(t, consumer, nowMs, settings, items[1..])
  {
  }

  lemma OwnAsked(s: Partition, t: Partition, consumer: Text, nowMs: nat, settings: Settings, items: seq<Settlement>)
    requires items != [] && Owns(s, consumer, items[0].deliveryId)
    requires t.deliveries == s.deliveries - {items[0].deliveryId}
    ensures AskedFates(s, consumer, nowMs, settings, items) ==
            map[items[0].deliveryId := FateOf(s.deliveries[items[0].deliveryId], items[0], nowMs, settings)] +
            AskedFates(t, consumer, nowMs, settings, items[1..])
  {
    hide FateOf;
  }

  lemma AnswersCons(s: Partition, t: Partition, consumer: Text, items: seq<Settlement>, results: seq<SettlementResult>)
    requires items != [] && Answers(t, consumer, items[1..], results)
    requires t.deliveries == (if Owns(s, consumer, items[0].deliveryId) then s.deliveries - {items[0].deliveryId}
                              else s.deliveries)
    ensures Answers(s, consumer, items, [AnswerTo(s, consumer, [], items[0].deliveryId)] + results)
  {
    var all := [AnswerTo(s, consumer, [], items[0].deliveryId)] + results;
    forall i | 0 <= i < |items| ensures all[i] == AnswerTo(s, consumer, items[..i], items[i].deliveryId) {
      if i > 0 {
        assert items[1..][i - 1] == items[i];
        assert items[..i][0] == items[0] && items[..i][1..] == items[1..][..i - 1];
      }
    }
  }

  lemma {:induction false} ListSettled(s: Partition, consumer: Text, nowMs: nat, settings: Settings,
                                       items: seq<Settlement>, start: nat, log: Log, trace: seq<Outcome>)
    requires Mid(s, start, log, trace)
    ensures var r := SettleAll(s, consumer, nowMs, settings, items);
            && Left(s, r.state, AskedFates(s, consumer, nowMs, settings, items), nowMs)
            && Answers(s, consumer, items, r.results)
            && r.state.leases == s.leases
    decreases items
  {
    hide Left, SettleOwned, Answers, AnswerTo, AskedFates, FateOf, Shape, History;
    if items == [] {
      NobodyLeft(s, nowMs);
      NothingAsked(s, consumer, nowMs, settings);
      return;
    }
    var (m, _) := SettleOne(s, consumer, nowMs, settings, items[0]);
    SettleOneKeeps(s, consumer, nowMs, settings, items[0], start, log, trace);
    ListSettled(m.state, consumer, nowMs, settings, items[1..], start, log, trace + m.trace);
    OneSettled(s, consumer, nowMs, settings, items, start, log,
               SettleAll(m.state, consumer, nowMs, settings, items[1..]));
  }

  lemma NothingAsked(s: Partition, consumer: Text, nowMs: nat, settings: Settings)
    ensures AskedFates(s, consumer, nowMs, settings, []) == map[]
    ensures Answers(s, consumer, [], [])
  {
  }

  lemma SettleOneAnswers(s: Partition, consumer: Text, nowMs: nat, settings: Settings, item: Settlement)
    ensures var (m, result) := SettleOne(s, consumer, nowMs, settings, item);
            && result == AnswerTo(s, consumer, [], item.deliveryId)
            && m.state.leases == s.leases
            && (!Owns(s, consumer, item.deliveryId) ==> m.state == s)
            && (Owns(s, consumer, item.deliveryId) ==>
                  && m == SettleOwned(s, item.deliveryId, nowMs, settings, item.action, item.reason)
                  && m.state.deliveries == s.deliveries - {item.deliveryId})
  {
    hide Absorb, Settings.RetryDelayMs;
  }

  lemma OneSettled(s: Partition, consumer: Text, nowMs: nat, settings: Settings, items: seq<Settlement>, start: nat,
                   log: Log, rest: Settled)
    requires items != [] && Shape(s, start, log)
    requires var t := SettleOne(s, consumer, nowMs, settings, items[0]).0.state;
             && rest == SettleAll(t, consumer, nowMs, settings, items[1..])
             && Left(t, rest.state, AskedFates(t, consumer, nowMs, settings, items[1..]), nowMs)
             && Answers(t, consumer, items[1..], rest.results)
             && rest.state.leases == t.leases
    ensures var r := SettleAll(s, consumer, nowMs, settings, items);
            && Left(s, r.state, AskedFates(s, consumer, nowMs, settings, items), nowMs)
            && Answers(s, consumer, items, r.results)
            && r.state.leases == s.leases
  {
    var id := items[0].deliveryId;
    SettleOneAnswers(s, consumer, nowMs, settings, items[0]);
    hide Left, SettleOwned, SettleOne, Answers, AnswerTo, AskedFates, FateOf, Shape;
    var t := SettleOne(s, consumer, nowMs, settings, items[0]).0.state;
    AnswersCons(s, t, consumer, items, rest.results);
    if Owns(s, consumer, id) {
      SettledOne(s, id, items[0], nowMs, settings, start, log);
      OwnAsked(s, t, consumer, nowMs, settings, items);
      ThenLeft(s, t, rest.state, map[id := FateOf(s.deliveries[id], items[0], nowMs, settings)],
               AskedFates(t, consumer, nowMs, settings, items[1..]), nowMs);
    } else {
      OthersAsked(s, t, consumer, nowMs, settings, items);
    }
  }

  // ---------------------------------------------------------------- expiry

  /** The deliveries whose deadline has come, each failed with the timeout reason. */
  function LateFates(s: Partition, nowMs: nat, settings: Settings): map<Uuid, Fate> {
    map id | id in s.deliveries && s.deliveries[id].deadlineMs <= nowMs ::
      Failed(s.deliveries[id], ACK_TIMEOUT, nowMs, settings)
  }

  function FatesOf(s: Partition, ids: seq<Uuid>, nowMs: nat, settings: Settings): map<Uuid, Fate> {
    map id | id in s.deliveries && id in ids :: Failed(s.deliveries[id], ACK_TIMEOUT, nowMs, settings)
  }

  lemma FatesCons(s: Partition, t: Partition, ids: seq<Uuid>, nowMs: nat, settings: Settings)
    requires ids != [] && t.deliveries == s.deliveries - {ids[0]}
    ensures FatesOf(s, ids, nowMs, settings) ==
            (if ids[0] !in s.deliveries then map[]
             else map[ids[0] := Failed(s.deliveries[ids[0]], ACK_TIMEOUT, nowMs, settings)])
            + FatesOf(t, ids[1..], nowMs, settings)
  {
    hide Failed;
    assert forall id :: id in ids <==> id == ids[0] || id in ids[1..];
  }

  lemma RetryOrParkFrame(s: Partition, id: Uuid, nowMs: nat, settings: Settings)
    requires id in s.deliveries
    ensures var t := RetryOrPark(WithoutDelivery(s, id), s.deliveries[id], ACK_TIMEOUT, nowMs, settings).state;
            t.deliveries == s.deliveries - {id} && t.leases == s.leases
  {
    hide Absorb, Settings.RetryDelayMs;
  }

  lemma {:induction false} ListExpired(s: Partition, ids: seq<Uuid>, nowMs: nat, settings: Settings, start: nat,
                                       log: Log, trace: seq<Outcome>)
    requires Mid(s, start, log, trace)
    ensures var m := ExpireAll(s, ids, nowMs, settings);
            Left(s, m.state, FatesOf(s, ids, nowMs, settings), nowMs) && m.state.leases == s.leases
    decreases ids
  {
    hide Left, FatesOf, Failed, RetryOrPark, WithoutDelivery, Shape, History;
    if ids == [] {
      NobodyLeft(s, nowMs);
      NothingLate(s, nowMs, settings);
    } else if ids[0] !in s.deliveries {
      ListExpired(s, ids[1..], nowMs, settings, start, log, trace);
      assert s.deliveries - {ids[0]} == s.deliveries;
      FatesCons(s, s, ids, nowMs, settings);
      NoneFirst(FatesOf(s, ids[1..], nowMs, settings));
    } else {
      var first := Failed(s.deliveries[ids[0]], ACK_TIMEOUT, nowMs, settings);
      var m := RetryOrPark(WithoutDelivery(s, ids[0]), s.deliveries[ids[0]], ACK_TIMEOUT, nowMs, settings);
      RetryOrParkKeeps(s, ids[0], ACK_TIMEOUT, nowMs, settings, start, log, trace);
      ListExpired(m.state, ids[1..], nowMs, settings, start, log, trace + m.trace);
      RetryOrParkFrame(s, ids[0], nowMs, settings);
      FatesCons(s, m.state, ids, nowMs, settings);
      FailedOne(s, ids[0], ACK_TIMEOUT, nowMs, settings, start, log);
      ThenLeft(s, m.state, ExpireAll(m.state, ids[1..], nowMs, settings).state, map[ids[0] := first],
               FatesOf(m.state, ids[1..], nowMs, settings), nowMs);
    }
  }

  lemma NoneFirst(fates: map<Uuid, Fate>)
    ensures map[] + fates == fates
  {
  }

  lemma NothingLate(s: Partition, nowMs: nat, settings: Settings)
    ensures FatesOf(s, [], nowMs, settings) == map[]
  {
  }

  // ---------------------------------------------------------------- the end of a command

  lemma ReleaseEnds(s: Partition, t: Partition, fates: map<Uuid, Fate>, nowMs: nat)
    requires Left(s, t, fates, nowMs) && t.leases == s.leases
    ensures Left(s, ReleaseUnusedLeases(t), fates, nowMs) && Released(s, ReleaseUnusedLeases(t))
  {
    var u := ReleaseUnusedLeases(t);
    ReleasedOnly(t);
    hide ReleaseUnusedLeases, Busy;
    LeasesAside(s, t, u, fates, nowMs);
  }

  lemma ReleasedOnly(t: Partition)
    ensures var u := ReleaseUnusedLeases(t);
            && u == t.(leases := u.leases) && Busy(u) == Busy(t)
            && (forall a :: a in u.leases <==> a in t.leases && a in Busy(t))
            && (forall a :: a in u.leases ==> u.leases[a] == t.leases[a])
  {
  }

  /** Leases are no part of what becomes of deliveries. */
  lemma LeasesAside(s: Partition, t: Partition, u: Partition, fates: map<Uuid, Fate>, nowMs: nat)
    requires Left(s, t, fates, nowMs) && u == t.(leases := u.leases)
    ensures Left(s, u, fates, nowMs)
  {
    assert forall p: nat :: Resolved(u, p) <==> Resolved(t, p);
    hide Resolved, TriesAgain, Ends, IsSetAside;
  }

  // ---------------------------------------------------------------- what the commands mean

  /**
   * Settling. In a state that keeps the invariant, so in every reachable one, for every list of settlements of the
   * current epoch: the deliveries that leave are the caller's own that the list names, and nobody else's; each has the
   * fate its first settlement asks for, with the retry, the parked item and the resolved position that go with it; and
   * each settlement is answered by who holds the delivery when its turn comes.
   */
  lemma SettleMeans(sys: System, settings: Settings, consumer: Text, nowMs: nat, items: seq<Settlement>)
    requires Good(sys)
    ensures var s := sys.state;
            var r := Execute(s, s.epoch, settings, SettleCommand(consumer, nowMs, items));
            && Left(s, r.state, AskedFates(s, consumer, nowMs, settings, items), nowMs) && Released(s, r.state)
            && r.reply.SettledReply? && Answers(s, consumer, items, r.reply.results)
  {
    hide Left, Released, AskedFates, Answers, ReleaseUnusedLeases, SettleAll, Mid;
    ListSettled(sys.state, consumer, nowMs, settings, items, sys.start, sys.log, sys.trace);
    ReleaseEnds(sys.state, SettleAll(sys.state, consumer, nowMs, settings, items).state,
                AskedFates(sys.state, consumer, nowMs, settings, items), nowMs);
  }

  /** A settlement of another epoch settles nothing, and neither does a renewal. */
  lemma StaleChangesNothing(s: Partition, groupEpoch: nat, settings: Settings, command: Command)
    requires groupEpoch != s.epoch && (command.SettleCommand? || command.RenewCommand?)
    ensures var r := Execute(s, groupEpoch, settings, command);
            && r.state == s
            && (command.SettleCommand? ==> r.reply == SettledReply(seq(|command.items|, _ => StaleLease)))
            && (command.RenewCommand? ==> r.reply == RenewedReply(seq(|command.ids|, _ => StaleLease)))
  {
    if command.SettleCommand? {
      assert seq(|command.items|, i => StaleLease) == seq(|command.items|, _ => StaleLease);
    } else {
      assert seq(|command.ids|, i => StaleLease) == seq(|command.ids|, _ => StaleLease);
    }
  }

  /**
   * Expiry. In a state that keeps the invariant the deliveries that leave are exactly those whose deadline has come,
   * each failed with the timeout reason: tried again after its backoff, or set aside once its retries are used up. The
   * answer counts them.
   */
  lemma ExpireMeans(sys: System, groupEpoch: nat, settings: Settings, nowMs: nat)
    requires Good(sys)
    ensures var s := sys.state;
            var r := Execute(s, groupEpoch, settings, ExpireCommand(nowMs));
            && Left(s, r.state, LateFates(s, nowMs, settings), nowMs) && Released(s, r.state)
            && r.reply == ExpiredReply(|s.deliveries| - |r.state.deliveries|)
            && (forall id :: id in r.state.deliveries <==> id in s.deliveries && s.deliveries[id].deadlineMs > nowMs)
  {
    hide Left, Released, LateFates, Expire, Mid;
    LateLeave(sys.state, settings, nowMs, sys.start, sys.log, sys.trace);
  }

  lemma LateLeave(s: Partition, settings: Settings, nowMs: nat, start: nat, log: Log, trace: seq<Outcome>)
    requires Mid(s, start, log, trace)
    ensures var r := Expire(s, nowMs, settings);
            && Left(s, r.state, LateFates(s, nowMs, settings), nowMs) && Released(s, r.state)
            && r.count == |s.deliveries| - |r.state.deliveries|
            && (forall id :: id in r.state.deliveries <==> id in s.deliveries && s.deliveries[id].deadlineMs > nowMs)
  {
    hide Left, Released, Failed, ReleaseUnusedLeases, ExpireAll, Mid;
    var ids := Ascending(ExpiredIds(s, nowMs));
    ListExpired(s, ids, nowMs, settings, start, log, trace);
    assert FatesOf(s, ids, nowMs, settings) == LateFates(s, nowMs, settings);
    ReleaseEnds(s, ExpireAll(s, ids, nowMs, settings).state, LateFates(s, nowMs, settings), nowMs);
    LateCounted(s, Expire(s, nowMs, settings).state, nowMs, settings);
  }

  lemma LateCounted(s: Partition, t: Partition, nowMs: nat, settings: Settings)
    requires Left(s, t, LateFates(s, nowMs, settings), nowMs)
    ensures |ExpiredIds(s, nowMs)| == |s.deliveries| - |t.deliveries|
    ensures forall id :: id in t.deliveries <==> id in s.deliveries && s.deliveries[id].deadlineMs > nowMs
  {
    var late := LateFates(s, nowMs, settings).Keys;
    assert late == ExpiredIds(s, nowMs);
    LeftSplits(s, t, LateFates(s, nowMs, settings), nowMs);
    hide Left, LateFates;
    SplitSizes(s.deliveries.Keys, t.deliveries.Keys, late);
  }

  lemma LeftSplits(s: Partition, t: Partition, fates: map<Uuid, Fate>, nowMs: nat)
    requires Left(s, t, fates, nowMs)
    ensures s.deliveries.Keys == t.deliveries.Keys + fates.Keys && t.deliveries.Keys !! fates.Keys
  {
    hide Retried, Kept, Advanced;
  }

  lemma SplitSizes(all: set<Uuid>, left: set<Uuid>, gone: set<Uuid>)
    requires all == left + gone && left !! gone
    ensures |all| == |left| + |gone|
  {
  }

  // ---------------------------------------------------------------- renewing

  /** What a renewal leaves of a delivery: the caller's own, if named, lasts at least to the new deadline. */
  function Prolonged(s: Partition, consumer: Text, deadlineMs: nat, ids: seq<Uuid>, id: Uuid): Delivery
    requires id in s.deliveries
  {
    var d := s.deliveries[id];
    if d.consumerId == consumer && id in ids then d.(deadlineMs := Max(d.deadlineMs, deadlineMs)) else d
  }

  ghost predicate Extended(s: Partition, t: Partition, consumer: Text, deadlineMs: nat, ids: seq<Uuid>) {
    && t.deliveries.Keys == s.deliveries.Keys
    && (forall id :: id in s.deliveries ==> t.deliveries[id] == Prolonged(s, consumer, deadlineMs, ids, id))
    && t == s.(deliveries := t.deliveries, leases := t.leases)
    && t.leases.Keys == s.leases.Keys
    && (forall a :: a in s.leases && t.leases[a] != s.leases[a] ==> Extends(s, consumer, ids, a))
  }

  ghost predicate Extends(s: Partition, consumer: Text, ids: seq<Uuid>, a: Text) {
    exists id :: Owns(s, consumer, id) && id in ids && s.deliveries[id].aggregateId == a
  }

  lemma RenewedOne(s: Partition, consumer: Text, deadlineMs: nat, id: Uuid)
    ensures var (t, result) := RenewOne(s, consumer, deadlineMs, id);
            Extended(s, t, consumer, deadlineMs, [id]) && result == AnswerTo(s, consumer, [], id)
  {
    assert Owns(s, consumer, id) ==> id in [id];
  }

  lemma ThenExtended(s: Partition, t: Partition, u: Partition, consumer: Text, deadlineMs: nat, ids: seq<Uuid>)
    requires ids != [] && Extended(s, t, consumer, deadlineMs, [ids[0]])
    requires Extended(t, u, consumer, deadlineMs, ids[1..])
    ensures Extended(s, u, consumer, deadlineMs, ids)
  {
    assert forall id :: id in ids <==> id == ids[0] || id in ids[1..];
    assert forall id :: id in [ids[0]] <==> id == ids[0];
    assert forall id :: Owns(t, consumer, id) <==> Owns(s, consumer, id);
    forall a | a in s.leases && u.leases[a] != s.leases[a] ensures Extends(s, consumer, ids, a) {
      if t.leases[a] != s.leases[a] {
        var id :| Owns(s, consumer, id) && id in [ids[0]] && s.deliveries[id].aggregateId == a;
        assert id in ids;
      } else {
        var id :| Owns(t, consumer, id) && id in ids[1..] && t.deliveries[id].aggregateId == a;
        assert id in ids && s.deliveries[id].aggregateId == a;
      }
    }
  }

  lemma {:induction false} ListRenewed(s: Partition, consumer: Text, deadlineMs: nat, ids: seq<Uuid>)
    ensures var r := RenewAll(s, consumer, deadlineMs, ids);
            && Extended(s, r.state, consumer, deadlineMs, ids)
            && |r.results| == |ids|
            && (forall i :: 0 <= i < |ids| ==> r.results[i] == AnswerTo(s, consumer, [], ids[i]))
    decreases ids
  {
    hide RenewOne;
    if ids != [] {
      var (t, result) := RenewOne(s, consumer, deadlineMs, ids[0]);
      RenewedOne(s, consumer, deadlineMs, ids[0]);
      ListRenewed(t, consumer, deadlineMs, ids[1..]);
      var rest := RenewAll(t, consumer, deadlineMs, ids[1..]);
      ThenExtended(s, t, rest.state, consumer, deadlineMs, ids);
      forall i | 0 <= i < |ids| ensures ([result] + rest.results)[i] == AnswerTo(s, consumer, [], ids[i]) {
        if i > 0 { assert ids[1..][i - 1] == ids[i]; }
      }
    }
  }

  /**
   * Renewing. The caller's own named deliveries last at least to the requested deadline, and exactly to the later of
   * the two; nothing else of any delivery changes and nothing of the checkpoint, the retries or the parked items. The
   * only leases that change are those of the renewed deliveries' instances, and each id is answered by who holds it.
   */
  lemma RenewMeans(s: Partition, settings: Settings, consumer: Text, deadlineMs: nat, ids: seq<Uuid>)
    ensures var r := Execute(s, s.epoch, settings, RenewCommand(consumer, deadlineMs, ids));
            && Extended(s, r.state, consumer, deadlineMs, ids)
            && r.reply.RenewedReply? && |r.reply.results| == |ids|
            && (forall i :: 0 <= i < |ids| ==> r.reply.results[i] == AnswerTo(s, consumer, [], ids[i]))
  {
    hide Extended;
    ListRenewed(s, consumer, deadlineMs, ids);
  }
}
