/**
 * What every step of a consumer-group partition keeps, over the partition log it reads.
 *
 * The concrete collections are abstracted to two sets of log positions: the resolved ones and the
 * outstanding ones (delivered or pending retry). Every command is a sequence of four kinds of small
 * step (hand out, settle, defer, stutter), and the invariant is proved once per kind.
 */
module AggregateGroupInvariant {
  import opened Base
  import opened AggregateGroup

  /** One position of the partition log, as far as a consumer group sees it. */
  datatype LogEvent = LogEvent(aggregateId: Text, version: nat, eventId: Uuid, payloadBytes: nat)

  type Log = seq<LogEvent>

  // ---------------------------------------------------------------- abstraction

  ghost predicate Resolved(s: Partition, p: nat) {
    p < s.next || p in s.gaps
  }

  /** Positions delivered or waiting for a retry. */
  function Out(s: Partition): set<nat> {
    (set id | id in s.deliveries :: s.deliveries[id].position) + s.pending.Keys
  }

  function InstancesAt(positions: set<nat>, log: Log): set<Text> {
    set p | p in positions && p < |log| :: log[p].aggregateId
  }

  ghost predicate WasSettled(trace: seq<Outcome>, p: nat) {
    exists i :: 0 <= i < |trace| && trace[i].Settles(p)
  }

  /** How often a position was handed out. */
  function Handouts(trace: seq<Outcome>, p: nat): nat {
    multiset(trace)[HandedOut(p)]
  }

  // ---------------------------------------------------------------- the invariant, piece by piece

  /** Every delivery and retry is a faithful copy of the log event at its position. */
  ghost predicate Mirrors(s: Partition, log: Log) {
    && (forall id :: id in s.deliveries ==>
          var d := s.deliveries[id];
          && d.deliveryId == id
          && d.position < |log|
          && d.aggregateId == log[d.position].aggregateId
          && d.version == log[d.position].version
          && d.eventId == log[d.position].eventId
          && d.epoch == s.epoch)
    && (forall p :: p in s.pending ==>
          var r := s.pending[p];
          && r.position == p
          && p < |log|
          && r.aggregateId == log[p].aggregateId
          && r.version == log[p].version
          && r.eventId == log[p].eventId)
  }

  /** No position is outstanding twice. */
  ghost predicate Separate(s: Partition) {
    && (forall i, j :: i in s.deliveries && j in s.deliveries && s.deliveries[i].position == s.deliveries[j].position ==> i == j)
    && (forall i :: i in s.deliveries ==> s.deliveries[i].position !in s.pending)
  }

  /** The checkpoint is normal: it is unresolved, and every gap lies strictly above it and inside the log. */
  ghost predicate Frontier(s: Partition, start: nat, log: Log) {
    && start <= s.next <= |log| <= U64_MAX
    && (forall g :: g in s.gaps ==> s.next < g < |log|)
  }

  ghost predicate Unresolved(s: Partition) {
    forall q :: q in Out(s) ==> !Resolved(s, q)
  }

  /** At most one position of an instance is outstanding. */
  ghost predicate Exclusive(out: set<nat>, log: Log) {
    forall p, q :: p in out && q in out && p < |log| && q < |log| && log[p].aggregateId == log[q].aggregateId ==> p == q
  }

  /** Everything an instance did before an outstanding position is resolved. */
  ghost predicate Ordered(s: Partition, out: set<nat>, start: nat, log: Log) {
    forall p, q :: q in out && start <= p < q < |log| && log[p].aggregateId == log[q].aggregateId ==> Resolved(s, p)
  }

  /** Every outstanding instance is leased, and a delivery's lease names its consumer, epoch and deadline. */
  ghost predicate LeasesCover(s: Partition) {
    && (forall id :: id in s.deliveries ==>
          var d := s.deliveries[id];
          d.aggregateId in s.leases && s.leases[d.aggregateId] == Lease(d.consumerId, s.epoch, d.deadlineMs))
    && (forall p :: p in s.pending ==> s.pending[p].aggregateId in s.leases)
  }

  ghost predicate LeasesTight(s: Partition) {
    s.leases.Keys <= Busy(s)
  }

  /** The resolved positions since the start are exactly the settled ones of the trace. */
  ghost predicate Exact(s: Partition, start: nat, trace: seq<Outcome>) {
    forall p :: start <= p ==> (WasSettled(trace, p) <==> Resolved(s, p))
  }

  /** Only positions of the log, from the epoch's start on, were ever touched. */
  ghost predicate WithinLog(start: nat, log: Log, trace: seq<Outcome>) {
    forall i :: 0 <= i < |trace| ==> start <= trace[i].position < |log|
  }

  /** An event was only ever handed out after all earlier events of its instance had been settled. */
  ghost predicate InOrder(start: nat, log: Log, trace: seq<Outcome>) {
    forall i, p :: 0 <= i < |trace| && trace[i].HandedOut? && trace[i].position < |log| && start <= p < trace[i].position
                   && log[p].aggregateId == log[trace[i].position].aggregateId
      ==> WasSettled(trace[..i], p)
  }

  /** Settling is final: nothing happens to a position after it was acked, skipped or parked. */
  ghost predicate Final(trace: seq<Outcome>) {
    forall i, j :: 0 <= i < j < |trace| ==> !trace[i].Settles(trace[j].position)
  }

  ghost predicate History(s: Partition, start: nat, log: Log, trace: seq<Outcome>) {
    Exact(s, start, trace) && WithinLog(start, log, trace) && InOrder(start, log, trace) && Final(trace)
  }

  ghost predicate Shape(s: Partition, start: nat, log: Log) {
    && Mirrors(s, log)
    && Separate(s)
    && Frontier(s, start, log)
    && Unresolved(s)
    && Exclusive(Out(s), log)
    && Ordered(s, Out(s), start, log)
    && LeasesCover(s)
  }

  /** Holds between the small steps of a command; `LeasesTight` is restored when the command ends. */
  ghost predicate Mid(s: Partition, start: nat, log: Log, trace: seq<Outcome>) {
    Shape(s, start, log) && History(s, start, log, trace)
  }

  ghost predicate Inv(s: Partition, start: nat, log: Log, trace: seq<Outcome>) {
    Mid(s, start, log, trace) && LeasesTight(s)
  }

  // ---------------------------------------------------------------- the checkpoint

  /** Absorbing keeps the resolved set and leaves a normal checkpoint. */
  lemma {:induction false} AbsorbExact(next: nat, gaps: set<nat>, bound: nat)
    requires next <= bound <= U64_MAX
    requires forall g :: g in gaps ==> next <= g < bound
    ensures var (n, g) := Absorb(next, gaps);
            && next <= n <= bound
            && (forall p :: next <= p ==> (p < n || p in g <==> p in gaps))
            && (forall p :: p in g ==> n < p < bound)
    decreases gaps
  {
    if next in gaps {
      AbsorbExact(next + 1, gaps - {next}, bound);
    }
  }

  /** Resolving a position adds exactly that position to the resolved set. */
  lemma ResolveExact(s: Partition, q: nat, start: nat, log: Log)
    requires Frontier(s, start, log) && s.next <= q < |log|
    ensures var t := Resolve(s, q);
            && Frontier(t, start, log)
            && t == s.(next := t.next, gaps := t.gaps)
            && (forall p :: Resolved(t, p) <==> Resolved(s, p) || p == q)
  {
    AbsorbExact(s.next, s.gaps + {q}, |log|);
    var t := Resolve(s, q);
    forall p: nat ensures Resolved(t, p) <==> Resolved(s, p) || p == q {
      if p < s.next { assert p < t.next; }
    }
  }

  /** A normal checkpoint is determined by the set it stands for. */
  lemma CheckpointUnique(a: Partition, b: Partition, start: nat, log: Log)
    requires Frontier(a, start, log) && Frontier(b, start, log)
    requires forall p :: start <= p ==> (Resolved(a, p) <==> Resolved(b, p))
    ensures a.next == b.next && a.gaps == b.gaps
  {
    assert !Resolved(a, a.next) && !Resolved(b, b.next);
    assert a.next == b.next;
    forall p ensures p in a.gaps <==> p in b.gaps {
      if p in a.gaps { assert Resolved(a, p) && Resolved(b, p); }
      if p in b.gaps { assert Resolved(a, p) && Resolved(b, p); }
    }
  }

  // ---------------------------------------------------------------- traces

  lemma SettledSnoc(trace: seq<Outcome>, o: Outcome, p: nat)
    ensures WasSettled(trace + [o], p) <==> WasSettled(trace, p) || o.Settles(p)
  {
    var longer := trace + [o];
    if WasSettled(trace, p) {
      var i :| 0 <= i < |trace| && trace[i].Settles(p);
      assert longer[i].Settles(p);
    }
    if o.Settles(p) { assert longer[|trace|].Settles(p); }
  }

  lemma HandoutsSnoc(trace: seq<Outcome>, o: Outcome, p: nat)
    ensures Handouts(trace + [o], p) == Handouts(trace, p) + (if o == HandedOut(p) then 1 else 0)
  {
    assert multiset(trace + [o]) == multiset(trace) + multiset{o};
  }

  lemma ExactSnoc(s: Partition, t: Partition, start: nat, trace: seq<Outcome>, o: Outcome)
    requires Exact(s, start, trace)
    requires forall p: nat :: Resolved(t, p) <==> Resolved(s, p) || o.Settles(p)
    ensures Exact(t, start, trace + [o])
  {
    forall p: nat | start <= p ensures WasSettled(trace + [o], p) <==> Resolved(t, p) {
      SettledSnoc(trace, o, p);
    }
  }

  lemma InOrderSnoc(s: Partition, start: nat, log: Log, trace: seq<Outcome>, o: Outcome)
    requires Exact(s, start, trace) && InOrder(start, log, trace)
    requires o.HandedOut? ==>
               forall p :: start <= p < o.position < |log| && log[p].aggregateId == log[o.position].aggregateId ==> Resolved(s, p)
    ensures InOrder(start, log, trace + [o])
  {
    var longer := trace + [o];
    forall i, p | 0 <= i < |longer| && longer[i].HandedOut? && longer[i].position < |log| && start <= p < longer[i].position
                  && log[p].aggregateId == log[longer[i].position].aggregateId
      ensures WasSettled(longer[..i], p)
    {
      if i < |trace| {
        assert longer[..i] == trace[..i];
      } else {
        assert longer[..i] == trace;
      }
    }
  }

  lemma FinalSnoc(s: Partition, start: nat, trace: seq<Outcome>, o: Outcome)
    requires Exact(s, start, trace) && Final(trace) && start <= o.position && !Resolved(s, o.position)
    ensures Final(trace + [o])
  {
    assert !WasSettled(trace, o.position);
  }

  /** One more outcome, on a position unresolved so far, extends the history. */
  lemma HistorySnoc(s: Partition, t: Partition, start: nat, log: Log, trace: seq<Outcome>, o: Outcome)
    requires History(s, start, log, trace) && start <= o.position < |log| && !Resolved(s, o.position)
    requires forall p: nat :: Resolved(t, p) <==> Resolved(s, p) || o.Settles(p)
    requires o.HandedOut? ==>
               forall p :: start <= p < o.position < |log| && log[p].aggregateId == log[o.position].aggregateId ==> Resolved(s, p)
    ensures History(t, start, log, trace + [o])
  {
    ExactSnoc(s, t, start, trace, o);
    InOrderSnoc(s, start, log, trace, o);
    FinalSnoc(s, start, trace, o);
  }

  // ---------------------------------------------------------------- settle steps

  /** `t` is `s` with delivery `id` gone and its position resolved. */
  ghost predicate SettleStep(s: Partition, id: Uuid, t: Partition, start: nat, log: Log) {
    && id in s.deliveries
    && t.epoch == s.epoch
    && t.deliveries == s.deliveries - {id}
    && t.pending == s.pending
    && t.leases == s.leases
    && Frontier(t, start, log)
    && (forall p: nat :: Resolved(t, p) <==> Resolved(s, p) || p == s.deliveries[id].position)
  }

  lemma SettleOut(s: Partition, id: Uuid, t: Partition, start: nat, log: Log)
    requires Separate(s) && SettleStep(s, id, t, start, log)
    ensures Out(t) == Out(s) - {s.deliveries[id].position}
  {
    var q := s.deliveries[id].position;
    forall p ensures p in Out(t) <==> p in Out(s) && p != q {
      if p in Out(s) && p != q && p !in s.pending {
        var i :| i in s.deliveries && s.deliveries[i].position == p;
        assert i in t.deliveries && t.deliveries[i].position == p;
      }
    }
  }

  lemma SettleKeeps(s: Partition, id: Uuid, t: Partition, o: Outcome, start: nat, log: Log, trace: seq<Outcome>)
    requires Mid(s, start, log, trace) && SettleStep(s, id, t, start, log)
    requires o.Settles(s.deliveries[id].position)
    ensures Mid(t, start, log, trace + [o])
  {
    SettleOut(s, id, t, start, log);
    assert s.deliveries[id].position in Out(s);
    HistorySnoc(s, t, start, log, trace, o);
  }

  lemma ResolveIsSettleStep(s: Partition, id: Uuid, start: nat, log: Log)
    requires Shape(s, start, log) && id in s.deliveries
    ensures SettleStep(s, id, Resolve(WithoutDelivery(s, id), s.deliveries[id].position), start, log)
  {
    var q := s.deliveries[id].position;
    assert q in Out(s);
    ResolveExact(WithoutDelivery(s, id), q, start, log);
    var t := Resolve(WithoutDelivery(s, id), q);
    forall p: nat ensures Resolved(t, p) <==> Resolved(s, p) || p == q {
      assert Resolved(WithoutDelivery(s, id), p) <==> Resolved(s, p);
    }
  }

  // ---------------------------------------------------------------- defer step

  lemma DeferOut(s: Partition, id: Uuid, attempt: nat, nowMs: nat, settings: Settings)
    requires id in s.deliveries && Separate(s)
    ensures Out(Defer(WithoutDelivery(s, id), s.deliveries[id], attempt, nowMs, settings)) == Out(s)
  {
    var q := s.deliveries[id].position;
    var t := Defer(WithoutDelivery(s, id), s.deliveries[id], attempt, nowMs, settings);
    forall p ensures p in Out(t) <==> p in Out(s) {
      if p in Out(s) && p != q && p !in s.pending {
        var i :| i in s.deliveries && s.deliveries[i].position == p;
        assert i in t.deliveries && t.deliveries[i].position == p;
      }
    }
  }

  lemma DeferKeeps(s: Partition, id: Uuid, attempt: nat, nowMs: nat, settings: Settings, start: nat, log: Log,
                   trace: seq<Outcome>)
    requires Mid(s, start, log, trace) && id in s.deliveries
    ensures var d := s.deliveries[id];
            Mid(Defer(WithoutDelivery(s, id), d, attempt, nowMs, settings), start, log, trace + [Deferred(d.position)])
  {
    var d := s.deliveries[id];
    var t := Defer(WithoutDelivery(s, id), d, attempt, nowMs, settings);
    DeferOut(s, id, attempt, nowMs, settings);
    assert d.position in Out(s);
    assert forall p: nat :: Resolved(t, p) <==> Resolved(s, p);
    HistorySnoc(s, t, start, log, trace, Deferred(d.position));
  }

  // ---------------------------------------------------------------- retry-or-park, settle, expire

  lemma ParkKeeps(s: Partition, id: Uuid, reason: Text, nowMs: nat, start: nat, log: Log, trace: seq<Outcome>)
    requires Mid(s, start, log, trace) && id in s.deliveries
    ensures var d := s.deliveries[id];
            Mid(ParkDelivery(WithoutDelivery(s, id), d, reason, nowMs), start, log, trace + [ParkedAt(d.position)])
  {
    var d := s.deliveries[id];
    ResolveIsSettleStep(s, id, start, log);
    var t := Resolve(WithoutDelivery(s, id), d.position);
    var u := ParkDelivery(WithoutDelivery(s, id), d, reason, nowMs);
    assert forall p: nat :: Resolved(u, p) <==> Resolved(t, p);
    SettleKeeps(s, id, u, ParkedAt(d.position), start, log, trace);
  }

  lemma RetryOrParkKeeps(s: Partition, id: Uuid, reason: Text, nowMs: nat, settings: Settings, start: nat, log: Log,
                         trace: seq<Outcome>)
    requires Mid(s, start, log, trace) && id in s.deliveries
    ensures var m := RetryOrPark(WithoutDelivery(s, id), s.deliveries[id], reason, nowMs, settings);
            Mid(m.state, start, log, trace + m.trace)
  {
    var d := s.deliveries[id];
    if SatAdd32(d.attempt, 1) > settings.maxRetries {
      ParkKeeps(s, id, reason, nowMs, start, log, trace);
    } else {
      DeferKeeps(s, id, SatAdd32(d.attempt, 1), nowMs, settings, start, log, trace);
    }
  }

  lemma SettleOneKeeps(s: Partition, consumer: Text, nowMs: nat, settings: Settings, item: Settlement, start: nat,
                       log: Log, trace: seq<Outcome>)
    requires Mid(s, start, log, trace)
    ensures var m := SettleOne(s, consumer, nowMs, settings, item).0;
            Mid(m.state, start, log, trace + m.trace)
  {
    var id := item.deliveryId;
    assert trace + [] == trace;
    if id in s.deliveries && s.deliveries[id].consumerId == consumer {
      var q := s.deliveries[id].position;
      match item.action
      case Ack =>
        ResolveIsSettleStep(s, id, start, log);
        SettleKeeps(s, id, Resolve(WithoutDelivery(s, id), q), Acked(q), start, log, trace);
      case Skip =>
        ResolveIsSettleStep(s, id, start, log);
        SettleKeeps(s, id, Resolve(WithoutDelivery(s, id), q), Skipped(q), start, log, trace);
      case RetryLater => RetryOrParkKeeps(s, id, item.reason, nowMs, settings, start, log, trace);
      case Park => ParkKeeps(s, id, item.reason, nowMs, start, log, trace);
    }
  }

  lemma {:induction false} SettleAllKeeps(s: Partition, consumer: Text, nowMs: nat, settings: Settings,
                                          items: seq<Settlement>,
                                          start: nat, log: Log, trace: seq<Outcome>)
    requires Mid(s, start, log, trace)
    ensures var r := SettleAll(s, consumer, nowMs, settings, items);
            Mid(r.state, start, log, trace + r.trace)
    decreases items
  {
    hide Mid, SettleOne;
    if items == [] {
      assert trace + [] == trace;
    } else {
      SettleOneKeeps(s, consumer, nowMs, settings, items[0], start, log, trace);
      var (m, _) := SettleOne(s, consumer, nowMs, settings, items[0]);
      SettleAllKeeps(m.state, consumer, nowMs, settings, items[1..], start, log, trace + m.trace);
      var rest := SettleAll(m.state, consumer, nowMs, settings, items[1..]);
      assert trace + (m.trace + rest.trace) == (trace + m.trace) + rest.trace;
    }
  }

  lemma {:induction false} ExpireAllKeeps(s: Partition, ids: seq<Uuid>, nowMs: nat, settings: Settings, start: nat,
                                          log: Log, trace: seq<Outcome>)
    requires Mid(s, start, log, trace)
    ensures var m := ExpireAll(s, ids, nowMs, settings);
            Mid(m.state, start, log, trace + m.trace)
    decreases ids
  {
    hide Mid, RetryOrPark, WithoutDelivery;
    if ids == [] {
      assert trace + [] == trace;
    } else if ids[0] !in s.deliveries {
      ExpireAllKeeps(s, ids[1..], nowMs, settings, start, log, trace);
    } else {
      RetryOrParkKeeps(s, ids[0], ACK_TIMEOUT, nowMs, settings, start, log, trace);
      var m := RetryOrPark(WithoutDelivery(s, ids[0]), s.deliveries[ids[0]], ACK_TIMEOUT, nowMs, settings);
      ExpireAllKeeps(m.state, ids[1..], nowMs, settings, start, log, trace + m.trace);
      var rest := ExpireAll(m.state, ids[1..], nowMs, settings);
      assert trace + (m.trace + rest.trace) == (trace + m.trace) + rest.trace;
    }
  }

  // ---------------------------------------------------------------- leases

  lemma ReleaseKeeps(s: Partition, start: nat, log: Log, trace: seq<Outcome>)
    requires Mid(s, start, log, trace)
    ensures Inv(ReleaseUnusedLeases(s), start, log, trace)
  {
    var t := ReleaseUnusedLeases(s);
    assert Out(t) == Out(s) && Busy(t) == Busy(s);
    assert forall p: nat :: Resolved(t, p) <==> Resolved(s, p);
    forall id | id in t.deliveries
      ensures t.deliveries[id].aggregateId in Busy(s)
    {
    }
    forall p | p in t.pending
      ensures t.pending[p].aggregateId in Busy(s)
    {
    }
  }

  // ---------------------------------------------------------------- renew

  /** What depends only on the checkpoint and the outstanding positions carries over to a state that shares them. */
  lemma FrameKeeps(s: Partition, t: Partition, start: nat, log: Log, trace: seq<Outcome>)
    requires Frontier(s, start, log) && Unresolved(s) && Exclusive(Out(s), log) && Ordered(s, Out(s), start, log)
    requires Exact(s, start, trace)
    requires t.next == s.next && t.gaps == s.gaps && Out(t) == Out(s)
    ensures Frontier(t, start, log) && Unresolved(t) && Exclusive(Out(t), log) && Ordered(t, Out(t), start, log)
    ensures Exact(t, start, trace)
  {
    assert forall p: nat :: Resolved(t, p) <==> Resolved(s, p);
  }

  /** `t` differs from `s` at most in deadlines and leases. */
  ghost predicate SameButDeadlines(s: Partition, t: Partition) {
    && t.epoch == s.epoch && t.next == s.next && t.gaps == s.gaps && t.pending == s.pending
    && t.deliveries.Keys == s.deliveries.Keys
    && (forall i :: i in s.deliveries ==> t.deliveries[i] == s.deliveries[i].(deadlineMs := t.deliveries[i].deadlineMs))
  }

  lemma RenewOnlyDeadlines(s: Partition, consumer: Text, deadlineMs: nat, id: Uuid)
    ensures SameButDeadlines(s, RenewOne(s, consumer, deadlineMs, id).0)
    ensures LeasesCover(s) ==> RenewOne(s, consumer, deadlineMs, id).0.leases.Keys == s.leases.Keys
  {
  }

  lemma DeadlinesMirror(s: Partition, t: Partition, log: Log)
    requires Mirrors(s, log) && Separate(s) && SameButDeadlines(s, t)
    ensures Mirrors(t, log) && Separate(t)
  {
    assert forall i :: i in t.deliveries <==> i in s.deliveries;
  }

  lemma DeadlinesOut(s: Partition, t: Partition)
    requires SameButDeadlines(s, t)
    ensures Out(t) == Out(s) && Busy(t) == Busy(s)
  {
    assert forall i :: i in t.deliveries <==> i in s.deliveries;
    assert (set id | id in s.deliveries :: s.deliveries[id].position) ==
           (set id | id in t.deliveries :: t.deliveries[id].position) by {
      assert forall id :: id in s.deliveries ==> t.deliveries[id].position == s.deliveries[id].position;
    }
    assert (set id | id in s.deliveries :: s.deliveries[id].aggregateId) ==
           (set id | id in t.deliveries :: t.deliveries[id].aggregateId) by {
      assert forall id :: id in s.deliveries ==> t.deliveries[id].aggregateId == s.deliveries[id].aggregateId;
    }
  }

  lemma RenewOneKeeps(s: Partition, consumer: Text, deadlineMs: nat, id: Uuid, start: nat, log: Log,
                      trace: seq<Outcome>)
    requires Inv(s, start, log, trace)
    ensures Inv(RenewOne(s, consumer, deadlineMs, id).0, start, log, trace)
  {
    var t := RenewOne(s, consumer, deadlineMs, id).0;
    RenewOnlyDeadlines(s, consumer, deadlineMs, id);
    DeadlinesMirror(s, t, log);
    DeadlinesOut(s, t);
    FrameKeeps(s, t, start, log, trace);
    RenewLeases(s, consumer, deadlineMs, id, log);
  }

  lemma RenewLeases(s: Partition, consumer: Text, deadlineMs: nat, id: Uuid, log: Log)
    requires LeasesCover(s) && Mirrors(s, log) && Exclusive(Out(s), log) && Separate(s)
    ensures LeasesCover(RenewOne(s, consumer, deadlineMs, id).0)
  {
    var t := RenewOne(s, consumer, deadlineMs, id).0;
    forall i | i in t.deliveries
      ensures t.deliveries[i].aggregateId in t.leases
      ensures t.leases[t.deliveries[i].aggregateId] ==
              Lease(t.deliveries[i].consumerId, t.epoch, t.deliveries[i].deadlineMs)
    {
      if i != id && id in s.deliveries {
        assert s.deliveries[i].position in Out(s) && s.deliveries[id].position in Out(s);
        assert s.deliveries[i].aggregateId != s.deliveries[id].aggregateId;
      }
    }
  }

  lemma {:induction false} RenewAllKeeps(s: Partition, consumer: Text, deadlineMs: nat, ids: seq<Uuid>, start: nat,
                                         log: Log, trace: seq<Outcome>)
    requires Inv(s, start, log, trace)
    ensures Inv(RenewAll(s, consumer, deadlineMs, ids).state, start, log, trace)
    decreases ids
  {
    hide Inv, RenewOne;
    if ids != [] {
      RenewOneKeeps(s, consumer, deadlineMs, ids[0], start, log, trace);
      RenewAllKeeps(RenewOne(s, consumer, deadlineMs, ids[0]).0, consumer, deadlineMs, ids[1..], start, log, trace);
    }
  }

  // ---------------------------------------------------------------- claim

  /** Candidates are a contiguous ascending window of the log, built as first deliveries. */
  ghost predicate Window(candidates: seq<Candidate>, log: Log) {
    forall i :: 0 <= i < |candidates| ==>
      var c := candidates[i];
      && c.position == candidates[0].position + i < |log|
      && c.aggregateId == log[c.position].aggregateId
      && c.version == log[c.position].version
      && c.eventId == log[c.position].eventId
      && !c.replayed
  }

  /** Delivery ids never seen in this partition and distinct from one another. */
  ghost predicate Fresh(candidates: seq<Candidate>, s: Partition) {
    && (forall i :: 0 <= i < |candidates| ==> candidates[i].deliveryId !in s.deliveries)
    && (forall i, j :: 0 <= i < j < |candidates| ==> candidates[i].deliveryId != candidates[j].deliveryId)
  }

  /** Every position from the checkpoint up to `limit` is resolved or its instance is outstanding. */
  ghost predicate Covered(s: Partition, log: Log, limit: nat) {
    forall p :: s.next <= p < limit && p < |log| ==> Resolved(s, p) || log[p].aggregateId in InstancesAt(Out(s), log)
  }

  lemma BusyIsOut(s: Partition, log: Log)
    requires Mirrors(s, log)
    ensures Busy(s) == InstancesAt(Out(s), log)
  {
    forall a ensures a in Busy(s) <==> a in InstancesAt(Out(s), log) {
      if a in Busy(s) {
        if p :| p in s.pending && s.pending[p].aggregateId == a {
          assert p in Out(s);
        } else {
          var id :| id in s.deliveries && s.deliveries[id].aggregateId == a;
          assert s.deliveries[id].position in Out(s);
        }
      }
      if a in InstancesAt(Out(s), log) {
        var p :| p in Out(s) && p < |log| && log[p].aggregateId == a;
        if p !in s.pending {
          var id :| id in s.deliveries && s.deliveries[id].position == p;
          assert s.deliveries[id].aggregateId == a;
        } else {
          assert s.pending[p].aggregateId == a;
        }
      }
    }
  }

  /** A candidate is only passed over because it is resolved or its instance is outstanding. */
  lemma PassedOverIsCovered(s: Partition, consumer: Text, nowMs: nat, c: Candidate, log: Log)
    requires Mirrors(s, log) && LeasesTight(s)
    requires c.position < |log| && c.aggregateId == log[c.position].aggregateId && c.eventId == log[c.position].eventId
    requires !c.replayed && c.deliveryId !in s.deliveries
    requires PassedOver(s, consumer, nowMs, c)
    ensures c.position in s.gaps || c.aggregateId in InstancesAt(Out(s), log)
  {
    BusyIsOut(s, log);
    if c.position in s.pending {
      assert s.pending[c.position].aggregateId in Busy(s);
    } else if Delivered(s, c.position) {
      var id :| id in s.deliveries && s.deliveries[id].position == c.position;
      assert s.deliveries[id].aggregateId in Busy(s);
    }
  }

  lemma NotBlockedIsAlone(s: Partition, c: Candidate, log: Log)
    requires Mirrors(s, log) && c.position < |log| && c.aggregateId == log[c.position].aggregateId
    requires !Blocked(s, c.aggregateId, c.position)
    ensures forall o :: o in Out(s) && log[o].aggregateId == c.aggregateId ==> o == c.position
  {
    forall o | o in Out(s) && log[o].aggregateId == c.aggregateId ensures o == c.position {
      if o in s.pending {
        assert s.pending[o].aggregateId == c.aggregateId;
      } else {
        var id :| id in s.deliveries && s.deliveries[id].position == o;
        assert s.deliveries[id].aggregateId == c.aggregateId;
      }
    }
  }

  lemma OutInLog(s: Partition, log: Log)
    requires Mirrors(s, log)
    ensures forall o :: o in Out(s) ==> o < |log|
  {
  }

  lemma HandOutOut(s: Partition, d: Delivery)
    requires d.deliveryId !in s.deliveries
    ensures Out(HandOut(s, d)) == Out(s) + {d.position}
  {
    var t := HandOut(s, d);
    forall p ensures p in Out(t) <==> p in Out(s) || p == d.position {
      if p in Out(s) && p != d.position && p !in s.pending {
        var i :| i in s.deliveries && s.deliveries[i].position == p;
        assert i in t.deliveries && t.deliveries[i].position == p;
      }
      if p == d.position {
        assert d.deliveryId in t.deliveries && t.deliveries[d.deliveryId].position == p;
      }
      if p in Out(t) && p !in t.pending {
        var i :| i in t.deliveries && t.deliveries[i].position == p;
        if i != d.deliveryId { assert i in s.deliveries && s.deliveries[i].position == p; }
      }
    }
  }

  /** A candidate that `claim` hands out: `c` at the head of a covered window, not passed over. */
  ghost predicate Eligible(s: Partition, consumer: Text, nowMs: nat, c: Candidate, log: Log) {
    && c.position < |log|
    && c.aggregateId == log[c.position].aggregateId
    && c.version == log[c.position].version
    && c.eventId == log[c.position].eventId
    && s.next <= c.position
    && Covered(s, log, c.position)
    && !PassedOver(s, consumer, nowMs, c)
  }

  lemma HandOutOrdered(s: Partition, consumer: Text, nowMs: nat, c: Candidate, start: nat, log: Log)
    requires Mirrors(s, log) && Ordered(s, Out(s), start, log) && Eligible(s, consumer, nowMs, c, log)
    ensures forall p :: start <= p < c.position && log[p].aggregateId == c.aggregateId ==> Resolved(s, p)
  {
    NotBlockedIsAlone(s, c, log);
    OutInLog(s, log);
  }

  lemma HandOutMirrors(s: Partition, consumer: Text, nowMs: nat, deadlineMs: nat, c: Candidate, log: Log)
    requires Mirrors(s, log) && Separate(s) && Eligible(s, consumer, nowMs, c, log)
    ensures var t := HandOut(s, DeliveryFor(s, consumer, deadlineMs, c));
            Mirrors(t, log) && Separate(t)
  {
    var d := DeliveryFor(s, consumer, deadlineMs, c);
    var t := HandOut(s, d);
    assert forall id :: id in s.deliveries ==> s.deliveries[id].position != c.position;
    assert t.deliveries == s.deliveries[c.deliveryId := d] && t.pending == s.pending - {c.position};
    assert d.position == c.position && t.epoch == s.epoch;
    hide HandOut, DeliveryFor, PassedOver, Covered;
    assert Separate(t);
  }

  lemma HandOutPositions(s: Partition, t: Partition, c: Candidate, start: nat, log: Log)
    requires Frontier(s, start, log) && Unresolved(s) && Exclusive(Out(s), log) && Ordered(s, Out(s), start, log)
    requires t.next == s.next && t.gaps == s.gaps && Out(t) == Out(s) + {c.position}
    requires c.position < |log| && c.aggregateId == log[c.position].aggregateId
    requires !Resolved(s, c.position)
    requires forall o :: o in Out(s) && o < |log| && log[o].aggregateId == c.aggregateId ==> o == c.position
    requires forall p :: start <= p < c.position && log[p].aggregateId == c.aggregateId ==> Resolved(s, p)
    ensures Frontier(t, start, log) && Unresolved(t) && Exclusive(Out(t), log) && Ordered(t, Out(t), start, log)
  {
    assert forall p: nat :: Resolved(t, p) <==> Resolved(s, p);
  }

  lemma HandOutShape(s: Partition, consumer: Text, nowMs: nat, deadlineMs: nat, c: Candidate, start: nat, log: Log)
    requires Shape(s, start, log) && Eligible(s, consumer, nowMs, c, log)
    ensures var t := HandOut(s, DeliveryFor(s, consumer, deadlineMs, c));
            Shape(t, start, log) && Out(t) == Out(s) + {c.position}
  {
    var d := DeliveryFor(s, consumer, deadlineMs, c);
    HandOutOut(s, d);
    OutInLog(s, log);
    HandOutMirrors(s, consumer, nowMs, deadlineMs, c, log);
    NotBlockedIsAlone(s, c, log);
    HandOutOrdered(s, consumer, nowMs, c, start, log);
    HandOutPositions(s, HandOut(s, d), c, start, log);
    HandOutLeases(s, d, log);
  }

  lemma HandOutLeases(s: Partition, d: Delivery, log: Log)
    requires Mirrors(s, log) && LeasesCover(s) && d.deliveryId !in s.deliveries
    requires d.epoch == s.epoch
    requires forall o :: o in Out(s) && o < |log| && log[o].aggregateId == d.aggregateId ==> o == d.position
    requires forall id :: id in s.deliveries ==> s.deliveries[id].position != d.position
    ensures LeasesCover(HandOut(s, d))
  {
    var t := HandOut(s, d);
    forall id | id in t.deliveries
      ensures t.deliveries[id].aggregateId in t.leases
      ensures t.leases[t.deliveries[id].aggregateId] ==
              Lease(t.deliveries[id].consumerId, t.epoch, t.deliveries[id].deadlineMs)
    {
      if id != d.deliveryId {
        assert s.deliveries[id].position in Out(s);
      }
    }
  }

  lemma HandOutTight(s: Partition, d: Delivery)
    requires LeasesTight(s) && d.deliveryId !in s.deliveries
    requires d.position in s.pending ==> s.pending[d.position].aggregateId == d.aggregateId
    ensures LeasesTight(HandOut(s, d))
  {
    var t := HandOut(s, d);
    forall a | a in t.leases ensures a in Busy(t) {
      if a == d.aggregateId {
        assert t.deliveries[d.deliveryId].aggregateId == a;
      } else {
        assert a in Busy(s);
        if id :| id in s.deliveries && s.deliveries[id].aggregateId == a {
          assert t.deliveries[id].aggregateId == a;
        } else {
          var p :| p in s.pending && s.pending[p].aggregateId == a;
          assert p in t.pending;
        }
      }
    }
  }

  lemma HandOutKeeps(s: Partition, consumer: Text, nowMs: nat, deadlineMs: nat, c: Candidate, start: nat, log: Log,
                     trace: seq<Outcome>)
    requires Inv(s, start, log, trace) && Eligible(s, consumer, nowMs, c, log)
    ensures Inv(HandOut(s, DeliveryFor(s, consumer, deadlineMs, c)), start, log, trace + [HandedOut(c.position)])
  {
    var d := DeliveryFor(s, consumer, deadlineMs, c);
    HandOutShape(s, consumer, nowMs, deadlineMs, c, start, log);
    HandOutTight(s, d);
    assert forall p: nat :: Resolved(HandOut(s, d), p) <==> Resolved(s, p);
    HandOutOrdered(s, consumer, nowMs, c, start, log);
    HistorySnoc(s, HandOut(s, d), start, log, trace, HandedOut(c.position));
  }

  /** Walking one more candidate keeps everything below it covered. */
  lemma CoveredGrows(s: Partition, t: Partition, c: Candidate, log: Log)
    requires Covered(s, log, c.position) && c.position < |log|
    requires t.next == s.next && t.gaps == s.gaps && Out(s) <= Out(t)
    requires Resolved(t, c.position) || log[c.position].aggregateId in InstancesAt(Out(t), log)
    ensures Covered(t, log, c.position + 1)
  {
    assert InstancesAt(Out(s), log) <= InstancesAt(Out(t), log);
    forall p | t.next <= p < c.position + 1 && p < |log|
      ensures Resolved(t, p) || log[p].aggregateId in InstancesAt(Out(t), log)
    {
      if p < c.position { assert Resolved(s, p) ==> Resolved(t, p); }
    }
  }

  /** What a walk over `candidates` starts from. */
  ghost predicate Ready(s: Partition, candidates: seq<Candidate>, log: Log) {
    && Window(candidates, log)
    && Fresh(candidates, s)
    && (candidates != [] ==> Covered(s, log, candidates[0].position))
  }

  lemma PassOverReady(s: Partition, call: Call, candidates: seq<Candidate>, start: nat, log: Log, trace: seq<Outcome>)
    requires Inv(s, start, log, trace) && Ready(s, candidates, log)
    requires candidates != [] && PassedOver(s, call.consumer, call.nowMs, candidates[0])
    ensures Ready(s, candidates[1..], log)
  {
    WindowTail(candidates, log);
    FreshTail(candidates, s, s);
    PassedOverIsCovered(s, call.consumer, call.nowMs, candidates[0], log);
    CoveredGrows(s, s, candidates[0], log);
  }

  lemma HandOutReady(s: Partition, call: Call, candidates: seq<Candidate>, log: Log)
    requires Ready(s, candidates, log) && candidates != []
    ensures Ready(HandOut(s, DeliveryFor(s, call.consumer, call.deadlineMs, candidates[0])), candidates[1..], log)
  {
    var d := DeliveryFor(s, call.consumer, call.deadlineMs, candidates[0]);
    var t := HandOut(s, d);
    WindowTail(candidates, log);
    FreshTail(candidates, s, t);
    HandOutOut(s, d);
    CoveredGrows(s, t, candidates[0], log);
  }

  lemma DeliveryAt(s: Partition, call: Call, c: Candidate)
    ensures DeliveryFor(s, call.consumer, call.deadlineMs, c).position == c.position
  {
  }

  lemma HeadEligible(s: Partition, call: Call, candidates: seq<Candidate>, log: Log)
    requires Ready(s, candidates, log) && candidates != [] && s.next <= candidates[0].position
    requires !PassedOver(s, call.consumer, call.nowMs, candidates[0])
    ensures Eligible(s, call.consumer, call.nowMs, candidates[0], log)
  {
    hide PassedOver;
  }

  lemma {:induction false} ClaimFromKeeps(s: Partition, call: Call, credit: nat, bytes: nat, first: bool,
                                          candidates: seq<Candidate>,
                                          start: nat, log: Log, trace: seq<Outcome>)
    requires Inv(s, start, log, trace) && Ready(s, candidates, log)
    ensures var r := ClaimFrom(s, call, credit, bytes, first, candidates);
            Inv(r.state, start, log, trace + r.trace)
    decreases candidates
  {
    hide Inv, Ready, PassedOver, Eligible, HandOut, DeliveryFor;
    assert trace + [] == trace;
    if candidates == [] || credit == 0 || candidates[0].position < s.next { return; }
    var c := candidates[0];
    if PassedOver(s, call.consumer, call.nowMs, c) {
      PassOverReady(s, call, candidates, start, log, trace);
      ClaimFromKeeps(s, call, credit, bytes, first, candidates[1..], start, log, trace);
    } else if first || SatAdd64(bytes, c.payloadBytes) <= call.maxBytes {
      var d := DeliveryFor(s, call.consumer, call.deadlineMs, c);
      HeadEligible(s, call, candidates, log);
      HandOutKeeps(s, call.consumer, call.nowMs, call.deadlineMs, c, start, log, trace);
      HandOutReady(s, call, candidates, log);
      DeliveryAt(s, call, c);
      ClaimFromKeeps(HandOut(s, d), call, credit - 1, SatAdd64(bytes, c.payloadBytes), false, candidates[1..],
                     start, log, trace + [HandedOut(c.position)]);
      var rest := ClaimFrom(HandOut(s, d), call, credit - 1, SatAdd64(bytes, c.payloadBytes), false, candidates[1..]);
      assert trace + ([HandedOut(c.position)] + rest.trace) == (trace + [HandedOut(c.position)]) + rest.trace;
    }
  }

  lemma FreshTail(candidates: seq<Candidate>, s: Partition, t: Partition)
    requires candidates != [] && Fresh(candidates, s)
    requires t.deliveries.Keys <= s.deliveries.Keys + {candidates[0].deliveryId}
    ensures Fresh(candidates[1..], t)
  {
  }

  lemma WindowTail(candidates: seq<Candidate>, log: Log)
    requires Window(candidates, log) && candidates != []
    ensures Window(candidates[1..], log)
    ensures |candidates| > 1 ==> candidates[1..][0].position == candidates[0].position + 1
  {
    var tail := candidates[1..];
    forall i | 0 <= i < |tail| ensures tail[i] == candidates[i + 1] {
    }
    if tail != [] { assert tail[0].position == candidates[0].position + 1; }
    forall i | 0 <= i < |tail| ensures tail[i].position == tail[0].position + i {
    }
  }
}
