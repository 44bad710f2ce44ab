/**
 * What a claim means, said of the state an expiry at that time leaves, the state after the claim and its answer: which
 * candidates are free, how many of them are handed out, and what is handed out for each.
 */
module AggregateGroupClaims {
  import opened Base
  import opened AggregateGroup
  import opened AggregateGroupInvariant
  import opened AggregateGroupRuns
  import opened AggregateGroupFates

  // ---------------------------------------------------------------- which candidates are free

  /** A lease on the instance that is somebody else's and has not run out. */
  predicate HeldByOther(e: Partition, consumer: Text, nowMs: nat, a: Text) {
    a in e.leases && e.leases[a].consumerId != consumer && nowMs < e.leases[a].deadlineMs
  }

  /**
   * A position that is not resolved is free when nothing of its instance is outstanding, or when what is outstanding is
   * its own retry, the retry is due, and nobody else holds the instance.
   */
  ghost predicate Free(e: Partition, consumer: Text, nowMs: nat, c: Candidate) {
    && !Resolved(e, c.position)
    && (|| c.aggregateId !in Busy(e)
        || (&& c.position in e.pending && e.pending[c.position].notBeforeMs <= nowMs
            && !HeldByOther(e, consumer, nowMs, c.aggregateId)))
  }

  /** The free candidates in order, one per instance, without the instances already taken. */
  ghost function FreeOnes(e: Partition, consumer: Text, nowMs: nat, candidates: seq<Candidate>,
                          taken: set<Text>): seq<Candidate> {
    if candidates == [] then []
    else
      var c := candidates[0];
      if Free(e, consumer, nowMs, c) && c.aggregateId !in taken then
        [c] + FreeOnes(e, consumer, nowMs, candidates[1..], taken + {c.aggregateId})
      else
        FreeOnes(e, consumer, nowMs, candidates[1..], taken)
  }

  /** What a claim chooses from: a window that begins below the checkpoint is not looked at. */
  ghost function Choices(e: Partition, consumer: Text, nowMs: nat, candidates: seq<Candidate>): seq<Candidate> {
    if candidates != [] && candidates[0].position < e.next then []
    else FreeOnes(e, consumer, nowMs, candidates, {})
  }

  function Payload(candidates: seq<Candidate>): nat {
    if candidates == [] then 0 else candidates[0].payloadBytes + Payload(candidates[1..])
  }

  // ---------------------------------------------------------------- what is handed out

  /** The delivery of a candidate: a retry goes on counting its attempts, a first delivery starts at zero. */
  function HandedTo(e: Partition, consumer: Text, deadlineMs: nat, c: Candidate): Delivery {
    Delivery(c.deliveryId, consumer, c.position, c.aggregateId, c.version, c.eventId,
             if c.position in e.pending then e.pending[c.position].attempt else 0,
             deadlineMs, e.epoch,
             if c.position in e.pending then e.pending[c.position].replayed else c.replayed)
  }

  ghost predicate Names(ds: seq<Delivery>, id: Uuid) {
    exists i :: 0 <= i < |ds| && ds[i].deliveryId == id
  }

  ghost predicate Covers(ds: seq<Delivery>, p: nat) {
    exists i :: 0 <= i < |ds| && ds[i].position == p
  }

  ghost predicate Leases(ds: seq<Delivery>, a: Text) {
    exists i :: 0 <= i < |ds| && ds[i].aggregateId == a
  }

  /** Exactly these deliveries are new; the others are as they were. */
  ghost predicate MoreDeliveries(e: Partition, t: Partition, ds: seq<Delivery>) {
    && (forall id :: id in t.deliveries <==> id in e.deliveries || Names(ds, id))
    && (forall id :: id in e.deliveries ==> t.deliveries[id] == e.deliveries[id])
    && (forall i :: 0 <= i < |ds| ==> ds[i].deliveryId !in e.deliveries && t.deliveries[ds[i].deliveryId] == ds[i])
  }

  ghost predicate FewerRetries(e: Partition, t: Partition, ds: seq<Delivery>) {
    && (forall p :: p in t.pending <==> p in e.pending && !Covers(ds, p))
    && (forall p :: p in t.pending ==> t.pending[p] == e.pending[p])
  }

  ghost predicate MoreLeases(e: Partition, t: Partition, ds: seq<Delivery>) {
    && (forall a :: a in t.leases <==> a in e.leases || Leases(ds, a))
    && (forall a :: a in e.leases && !Leases(ds, a) ==> t.leases[a] == e.leases[a])
    && (forall i :: 0 <= i < |ds| ==> t.leases[ds[i].aggregateId] == Lease(ds[i].consumerId, e.epoch, ds[i].deadlineMs))
  }

  /** The state holds exactly these deliveries more, leased; their retries are gone; nothing else changed. */
  ghost predicate HandedOver(e: Partition, t: Partition, ds: seq<Delivery>) {
    && t == e.(deliveries := t.deliveries, pending := t.pending, leases := t.leases)
    && MoreDeliveries(e, t, ds) && FewerRetries(e, t, ds) && MoreLeases(e, t, ds)
  }

  // ---------------------------------------------------------------- free is what the walk does not pass over

  lemma FreeIsNotPassedOver(s: Partition, consumer: Text, nowMs: nat, c: Candidate, start: nat, log: Log,
                            trace: seq<Outcome>)
    requires Inv(s, start, log, trace) && s.next <= c.position < |log|
    requires c.aggregateId == log[c.position].aggregateId && c.eventId == log[c.position].eventId
    requires !c.replayed && c.deliveryId !in s.deliveries
    ensures PassedOver(s, consumer, nowMs, c) <==> !Free(s, consumer, nowMs, c)
  {
    hide Frontier, Unresolved, Ordered, History;
    if c.position in s.pending {
      AloneInPending(s, c, log);
    } else if c.aggregateId in Busy(s) {
      BusyBlocks(s, c, log);
    } else {
      IdleUnblocked(s, c, log);
    }
  }

  /** Beside a pending retry nothing of its instance is outstanding. */
  lemma AloneInPending(s: Partition, c: Candidate, log: Log)
    requires Mirrors(s, log) && Separate(s) && Exclusive(Out(s), log)
    requires c.position in s.pending && c.aggregateId == log[c.position].aggregateId
    ensures !Blocked(s, c.aggregateId, c.position) && !Delivered(s, c.position)
    ensures c.aggregateId in Busy(s)
  {
    assert c.position in Out(s);
    assert s.pending[c.position].aggregateId in Busy(s);
    forall id | id in s.deliveries ensures s.deliveries[id].aggregateId != c.aggregateId {
      assert s.deliveries[id].position in Out(s);
    }
    forall p | p in s.pending && s.pending[p].aggregateId == c.aggregateId ensures p == c.position {
      assert p in Out(s);
    }
  }

  lemma BusyBlocks(s: Partition, c: Candidate, log: Log)
    requires Mirrors(s, log) && c.aggregateId in Busy(s) && c.position !in s.pending
    ensures Blocked(s, c.aggregateId, c.position) || Delivered(s, c.position)
  {
    if id :| id in s.deliveries && s.deliveries[id].aggregateId == c.aggregateId {
    } else {
      var p :| p in s.pending && s.pending[p].aggregateId == c.aggregateId;
    }
  }

  lemma IdleUnblocked(s: Partition, c: Candidate, log: Log)
    requires Mirrors(s, log) && LeasesTight(s) && c.aggregateId !in Busy(s)
    requires c.position < |log| && c.aggregateId == log[c.position].aggregateId
    ensures !Blocked(s, c.aggregateId, c.position) && !Delivered(s, c.position) && c.aggregateId !in s.leases
  {
    forall id | id in s.deliveries ensures s.deliveries[id].aggregateId != c.aggregateId {
      assert s.deliveries[id].aggregateId in Busy(s);
    }
    forall p | p in s.pending ensures s.pending[p].aggregateId != c.aggregateId {
      assert s.pending[p].aggregateId in Busy(s);
    }
  }

  // ---------------------------------------------------------------- handing one out

  lemma BusyAfter(s: Partition, d: Delivery)
    requires d.deliveryId !in s.deliveries
    requires d.position in s.pending ==> s.pending[d.position].aggregateId == d.aggregateId
    ensures Busy(HandOut(s, d)) == Busy(s) + {d.aggregateId}
  {
    var t := HandOut(s, d);
    assert t.deliveries[d.deliveryId] == d;
    forall a ensures a in Busy(t) <==> a in Busy(s) || a == d.aggregateId {
      if a in Busy(s) && a != d.aggregateId {
        if id :| id in s.deliveries && s.deliveries[id].aggregateId == a {
          assert t.deliveries[id].aggregateId == a;
        } else {
          var p :| p in s.pending && s.pending[p].aggregateId == a;
          assert t.pending[p].aggregateId == a;
        }
      }
    }
  }

  /** What is free afterwards is what was free before, without the instance that was handed out. */
  lemma FreeAfter(s: Partition, d: Delivery, consumer: Text, nowMs: nat, c: Candidate, log: Log)
    requires Mirrors(s, log) && d.deliveryId !in s.deliveries && d.position != c.position
    requires d.position < |log| && d.aggregateId == log[d.position].aggregateId
    requires c.position < |log| && c.aggregateId == log[c.position].aggregateId
    requires c.aggregateId == d.aggregateId ==> c.position !in s.pending
    ensures Free(HandOut(s, d), consumer, nowMs, c) <==> Free(s, consumer, nowMs, c) && c.aggregateId != d.aggregateId
  {
    var t := HandOut(s, d);
    BusyAfter(s, d);
    hide Busy, Mirrors;
    assert Resolved(t, c.position) <==> Resolved(s, c.position);
    assert c.position in t.pending <==> c.position in s.pending;
  }

  /** Candidates of the log, from a position on. */
  ghost predicate FromLog(candidates: seq<Candidate>, low: nat, log: Log) {
    forall i :: 0 <= i < |candidates| ==>
      && low <= candidates[i].position < |log|
      && candidates[i].aggregateId == log[candidates[i].position].aggregateId
  }

  lemma {:induction false} FreeOnesAfter(s: Partition, d: Delivery, consumer: Text, nowMs: nat,
                                         candidates: seq<Candidate>, taken: set<Text>, log: Log)
    requires Mirrors(s, log) && d.deliveryId !in s.deliveries
    requires d.position < |log| && d.aggregateId == log[d.position].aggregateId
    requires FromLog(candidates, d.position + 1, log)
    requires forall p :: p in s.pending && p < |log| && log[p].aggregateId == d.aggregateId ==> p == d.position
    ensures FreeOnes(HandOut(s, d), consumer, nowMs, candidates, taken) ==
            FreeOnes(s, consumer, nowMs, candidates, taken + {d.aggregateId})
    decreases candidates
  {
    hide Free, Mirrors, HandOut;
    if candidates != [] {
      var c, tail := candidates[0], candidates[1..];
      FreeAfter(s, d, consumer, nowMs, c, log);
      assert forall i :: 0 <= i < |tail| ==> tail[i] == candidates[i + 1];
      FreeOnesAfter(s, d, consumer, nowMs, tail, taken, log);
      FreeOnesAfter(s, d, consumer, nowMs, tail, taken + {c.aggregateId}, log);
      assert (taken + {c.aggregateId}) + {d.aggregateId} == (taken + {d.aggregateId}) + {c.aggregateId};
    }
  }

  lemma {:induction false} FreeOnesFrom(e: Partition, consumer: Text, nowMs: nat, candidates: seq<Candidate>,
                                        taken: set<Text>, low: nat, log: Log)
    requires FromLog(candidates, low, log)
    ensures FromLog(FreeOnes(e, consumer, nowMs, candidates, taken), low, log)
    ensures forall i :: 0 <= i < |FreeOnes(e, consumer, nowMs, candidates, taken)| ==>
              FreeOnes(e, consumer, nowMs, candidates, taken)[i].aggregateId !in taken
    decreases candidates
  {
    hide Free;
    if candidates != [] {
      var tail := candidates[1..];
      assert forall i :: 0 <= i < |tail| ==> tail[i] == candidates[i + 1];
      FreeOnesFrom(e, consumer, nowMs, tail, taken, low, log);
      FreeOnesFrom(e, consumer, nowMs, tail, taken + {candidates[0].aggregateId}, low, log);
    }
  }

  lemma SplitNames(d: Delivery, ds: seq<Delivery>)
    ensures forall id :: Names([d] + ds, id) <==> id == d.deliveryId || Names(ds, id)
    ensures forall p :: Covers([d] + ds, p) <==> p == d.position || Covers(ds, p)
    ensures forall a :: Leases([d] + ds, a) <==> a == d.aggregateId || Leases(ds, a)
  {
    var all := [d] + ds;
    assert all[0] == d;
    forall id | Names(ds, id) ensures Names(all, id) {
      var i :| 0 <= i < |ds| && ds[i].deliveryId == id;
      assert all[i + 1] == ds[i];
    }
    forall p | Covers(ds, p) ensures Covers(all, p) {
      var i :| 0 <= i < |ds| && ds[i].position == p;
      assert all[i + 1] == ds[i];
    }
    forall a | Leases(ds, a) ensures Leases(all, a) {
      var i :| 0 <= i < |ds| && ds[i].aggregateId == a;
      assert all[i + 1] == ds[i];
    }
  }

  lemma ThenMoreDeliveries(s: Partition, d: Delivery, t: Partition, ds: seq<Delivery>)
    requires d.deliveryId !in s.deliveries && MoreDeliveries(HandOut(s, d), t, ds)
    ensures MoreDeliveries(s, t, [d] + ds)
  {
    SplitNames(d, ds);
    var m, all := HandOut(s, d), [d] + ds;
    assert m.deliveries == s.deliveries[d.deliveryId := d];
    hide Names, HandOut;
    forall i | 0 <= i < |all| ensures all[i].deliveryId !in s.deliveries && t.deliveries[all[i].deliveryId] == all[i] {
      if i > 0 { assert all[i] == ds[i - 1]; }
    }
  }

  lemma ThenFewerRetries(s: Partition, d: Delivery, t: Partition, ds: seq<Delivery>)
    requires FewerRetries(HandOut(s, d), t, ds)
    ensures FewerRetries(s, t, [d] + ds)
  {
    SplitNames(d, ds);
    assert HandOut(s, d).pending == s.pending - {d.position};
    hide Covers, HandOut;
  }

  lemma ThenMoreLeases(s: Partition, d: Delivery, t: Partition, ds: seq<Delivery>)
    requires MoreLeases(HandOut(s, d), t, ds)
    requires forall i :: 0 <= i < |ds| ==> ds[i].aggregateId != d.aggregateId
    ensures MoreLeases(s, t, [d] + ds)
  {
    SplitNames(d, ds);
    var m, all := HandOut(s, d), [d] + ds;
    assert m.leases == s.leases[d.aggregateId := Lease(d.consumerId, s.epoch, d.deadlineMs)] && m.epoch == s.epoch;
    assert !Leases(ds, d.aggregateId);
    hide Leases, HandOut;
    forall i | 0 <= i < |all|
      ensures t.leases[all[i].aggregateId] == Lease(all[i].consumerId, s.epoch, all[i].deadlineMs)
    {
      if i > 0 { assert all[i] == ds[i - 1]; }
    }
  }

  lemma ThenHandedOver(s: Partition, d: Delivery, t: Partition, ds: seq<Delivery>)
    requires d.deliveryId !in s.deliveries && HandedOver(HandOut(s, d), t, ds)
    requires forall i :: 0 <= i < |ds| ==> ds[i].aggregateId != d.aggregateId
    ensures HandedOver(s, t, [d] + ds)
  {
    hide MoreDeliveries, FewerRetries, MoreLeases;
    ThenMoreDeliveries(s, d, t, ds);
    ThenFewerRetries(s, d, t, ds);
    ThenMoreLeases(s, d, t, ds);
  }

  // ---------------------------------------------------------------- the walk

  /** How far a walk gets that has handed out nothing yet, or has handed out `bytes` already. */
  ghost predicate GetsTo(choices: seq<Candidate>, n: nat, credit: nat, bytes: nat, first: bool, maxBytes: nat) {
    && n <= |choices| && n <= credit
    && (n > (if first then 1 else 0) ==> Min(bytes + Payload(choices[..n]), U64_MAX) <= maxBytes)
    && (n < |choices| ==>
          n == credit || (n >= (if first then 1 else 0) && Min(bytes + Payload(choices[..n + 1]), U64_MAX) > maxBytes))
  }

  lemma GetsFurther(choices: seq<Candidate>, n: nat, credit: nat, bytes: nat, first: bool, maxBytes: nat)
    requires choices != [] && credit > 0
    requires first || SatAdd64(bytes, choices[0].payloadBytes) <= maxBytes
    requires GetsTo(choices[1..], n, credit - 1, SatAdd64(bytes, choices[0].payloadBytes), false, maxBytes)
    ensures GetsTo(choices, 1 + n, credit, bytes, first, maxBytes)
  {
    var c, tail := choices[0], choices[1..];
    assert choices[..n + 1] == [c] + tail[..n];
    assert Payload(choices[..n + 1]) == c.payloadBytes + Payload(tail[..n]);
    if n < |tail| {
      assert choices[..n + 2] == [c] + tail[..n + 1];
      assert Payload(choices[..n + 2]) == c.payloadBytes + Payload(tail[..n + 1]);
    }
    if n == 0 { assert tail[..0] == []; }
  }

  ghost predicate Handed(e: Partition, call: Call, choices: seq<Candidate>, ds: seq<Delivery>) {
    |ds| <= |choices| && forall i :: 0 <= i < |ds| ==> ds[i] == HandedTo(e, call.consumer, call.deadlineMs, choices[i])
  }

  lemma HandedLater(s: Partition, call: Call, c: Candidate, choices: seq<Candidate>, ds: seq<Delivery>, log: Log)
    requires FromLog(choices, c.position + 1, log)
    requires Handed(HandOut(s, DeliveryFor(s, call.consumer, call.deadlineMs, c)), call, choices, ds)
    ensures Handed(s, call, [c] + choices, [DeliveryFor(s, call.consumer, call.deadlineMs, c)] + ds)
  {
    var d := DeliveryFor(s, call.consumer, call.deadlineMs, c);
    var t := HandOut(s, d);
    assert d == HandedTo(s, call.consumer, call.deadlineMs, c);
    forall i | 0 <= i < |ds| ensures ds[i] == HandedTo(s, call.consumer, call.deadlineMs, choices[i]) {
      assert choices[i].position in t.pending <==> choices[i].position in s.pending;
    }
    var all := [d] + ds;
    forall i | 0 <= i < |all| ensures all[i] == HandedTo(s, call.consumer, call.deadlineMs, ([c] + choices)[i]) {
      if i > 0 { assert all[i] == ds[i - 1] && ([c] + choices)[i] == choices[i - 1]; }
    }
  }

  lemma WindowFromLog(candidates: seq<Candidate>, log: Log)
    requires Window(candidates, log)
    ensures candidates != [] ==> FromLog(candidates, candidates[0].position, log)
    ensures candidates != [] ==> FromLog(candidates[1..], candidates[0].position + 1, log)
  {
    if candidates != [] {
      var tail := candidates[1..];
      assert forall i :: 0 <= i < |tail| ==> tail[i] == candidates[i + 1];
    }
  }

  lemma NothingHandedOver(s: Partition)
    ensures HandedOver(s, s, [])
  {
  }

  ghost predicate Walked(s: Partition, call: Call, credit: nat, bytes: nat, first: bool, candidates: seq<Candidate>,
                         r: Claimed) {
    var choices := FreeOnes(s, call.consumer, call.nowMs, candidates, {});
    && GetsTo(choices, |r.deliveries|, credit, bytes, first, call.maxBytes)
    && Handed(s, call, choices, r.deliveries)
    && HandedOver(s, r.state, r.deliveries)
  }

  lemma WalkedParts(s: Partition, call: Call, credit: nat, bytes: nat, first: bool, candidates: seq<Candidate>,
                    r: Claimed)
    requires Walked(s, call, credit, bytes, first, candidates, r)
    ensures var choices := FreeOnes(s, call.consumer, call.nowMs, candidates, {});
            && GetsTo(choices, |r.deliveries|, credit, bytes, first, call.maxBytes)
            && Handed(s, call, choices, r.deliveries)
            && HandedOver(s, r.state, r.deliveries)
  {
    hide GetsTo, Handed, HandedOver, FreeOnes;
  }

  lemma WalkedFrom(s: Partition, call: Call, credit: nat, bytes: nat, first: bool, candidates: seq<Candidate>,
                   choices: seq<Candidate>, r: Claimed)
    requires choices == FreeOnes(s, call.consumer, call.nowMs, candidates, {})
    requires GetsTo(choices, |r.deliveries|, credit, bytes, first, call.maxBytes)
    requires Handed(s, call, choices, r.deliveries) && HandedOver(s, r.state, r.deliveries)
    ensures Walked(s, call, credit, bytes, first, candidates, r)
  {
    hide GetsTo, Handed, HandedOver, FreeOnes;
  }

  lemma WalkStops(s: Partition, call: Call, credit: nat, bytes: nat, first: bool, candidates: seq<Candidate>)
    requires bytes <= U64_MAX
    requires || candidates == [] || credit == 0
             || (&& Free(s, call.consumer, call.nowMs, candidates[0]) && !first
                 && SatAdd64(bytes, candidates[0].payloadBytes) > call.maxBytes)
    ensures Walked(s, call, credit, bytes, first, candidates, Claimed(s, [], []))
  {
    NothingHandedOver(s);
    hide HandedOver;
    var choices := FreeOnes(s, call.consumer, call.nowMs, candidates, {});
    assert choices[..0] == [];
    if candidates != [] && credit > 0 {
      assert choices[..1] == [candidates[0]];
      assert Payload(choices[..1]) == candidates[0].payloadBytes;
    }
  }

  lemma WalkPasses(s: Partition, call: Call, credit: nat, bytes: nat, first: bool, candidates: seq<Candidate>,
                   r: Claimed)
    requires candidates != [] && !Free(s, call.consumer, call.nowMs, candidates[0])
    requires Walked(s, call, credit, bytes, first, candidates[1..], r)
    ensures Walked(s, call, credit, bytes, first, candidates, r)
  {
    hide HandedOver, Free, GetsTo, Handed;
  }

  lemma WalkHands(s: Partition, call: Call, credit: nat, bytes: nat, first: bool, candidates: seq<Candidate>,
                  rest: Claimed, start: nat, log: Log, trace: seq<Outcome>)
    requires Inv(s, start, log, trace) && Ready(s, candidates, log) && candidates != [] && credit > 0
    requires Free(s, call.consumer, call.nowMs, candidates[0])
    requires first || SatAdd64(bytes, candidates[0].payloadBytes) <= call.maxBytes
    requires var d := DeliveryFor(s, call.consumer, call.deadlineMs, candidates[0]);
             Walked(HandOut(s, d), call, credit - 1, SatAdd64(bytes, candidates[0].payloadBytes), false, candidates[1..],
                    rest)
    ensures var d := DeliveryFor(s, call.consumer, call.deadlineMs, candidates[0]);
            Walked(s, call, credit, bytes, first, candidates, Claimed(rest.state, [d] + rest.deliveries, rest.trace))
  {
    hide *;
    var c, tail := candidates[0], candidates[1..];
    var d := DeliveryFor(s, call.consumer, call.deadlineMs, c);
    var t := HandOut(s, d);
    var choices := FreeOnes(s, call.consumer, call.nowMs, candidates, {});
    var later := FreeOnes(t, call.consumer, call.nowMs, tail, {});
    LaterChoices(s, call, candidates, start, log, trace);
    FreshHead(s, candidates, log);
    WalkedParts(t, call, credit - 1, SatAdd64(bytes, c.payloadBytes), false, tail, rest);
    GetsFurther(choices, |rest.deliveries|, credit, bytes, first, call.maxBytes);
    HandedLater(s, call, c, later, rest.deliveries, log);
    OtherInstances(t, call, later, rest.deliveries, c.aggregateId);
    ThenHandedOver(s, d, rest.state, rest.deliveries);
    WalkedFrom(s, call, credit, bytes, first, candidates, choices,
               Claimed(rest.state, [d] + rest.deliveries, rest.trace));
  }

  lemma FreshHead(s: Partition, candidates: seq<Candidate>, log: Log)
    requires Ready(s, candidates, log) && candidates != []
    ensures candidates[0].deliveryId !in s.deliveries
  {
  }

  /** What is left to choose from after the first candidate was handed out. */
  lemma LaterChoices(s: Partition, call: Call, candidates: seq<Candidate>, start: nat, log: Log, trace: seq<Outcome>)
    requires Inv(s, start, log, trace) && Ready(s, candidates, log) && candidates != []
    requires Free(s, call.consumer, call.nowMs, candidates[0])
    ensures var c := candidates[0];
            var d := DeliveryFor(s, call.consumer, call.deadlineMs, c);
            var later := FreeOnes(HandOut(s, d), call.consumer, call.nowMs, candidates[1..], {});
            var choices := FreeOnes(s, call.consumer, call.nowMs, candidates, {});
            && d.deliveryId == c.deliveryId && d.aggregateId == c.aggregateId
            && choices == [c] + later && choices[0] == c && choices[1..] == later
            && FromLog(later, c.position + 1, log)
            && (forall i :: 0 <= i < |later| ==> later[i].aggregateId !in {c.aggregateId})
  {
    var c, tail := candidates[0], candidates[1..];
    var d := DeliveryFor(s, call.consumer, call.deadlineMs, c);
    WindowFromLog(candidates, log);
    PendingAlone(s, call, c, start, log, trace);
    hide Inv, HandOut, Free, Covered, Mirrors;
    FreeOnesAfter(s, d, call.consumer, call.nowMs, tail, {}, log);
    assert {} + {c.aggregateId} == {c.aggregateId};
    FreeOnesFrom(s, call.consumer, call.nowMs, tail, {c.aggregateId}, c.position + 1, log);
  }

  lemma OtherInstances(e: Partition, call: Call, choices: seq<Candidate>, ds: seq<Delivery>, a: Text)
    requires Handed(e, call, choices, ds)
    requires forall i :: 0 <= i < |choices| ==> choices[i].aggregateId !in {a}
    ensures forall i :: 0 <= i < |ds| ==> ds[i].aggregateId != a
  {
  }

  lemma PendingAlone(s: Partition, call: Call, c: Candidate, start: nat, log: Log, trace: seq<Outcome>)
    requires Inv(s, start, log, trace) && c.position < |log| && c.aggregateId == log[c.position].aggregateId
    requires Free(s, call.consumer, call.nowMs, c)
    ensures Mirrors(s, log)
    ensures forall p :: p in s.pending && p < |log| && log[p].aggregateId == c.aggregateId ==> p == c.position
  {
    forall p | p in s.pending && log[p].aggregateId == c.aggregateId ensures p == c.position {
      assert p in Out(s) && s.pending[p].aggregateId in Busy(s);
      if c.position in s.pending { assert c.position in Out(s); }
    }
  }

  lemma {:induction false} Walk(s: Partition, call: Call, credit: nat, bytes: nat, first: bool,
                                candidates: seq<Candidate>, start: nat, log: Log, trace: seq<Outcome>)
    requires Inv(s, start, log, trace) && Ready(s, candidates, log) && bytes <= U64_MAX
    requires candidates != [] ==> s.next <= candidates[0].position
    ensures Walked(s, call, credit, bytes, first, candidates, ClaimFrom(s, call, credit, bytes, first, candidates))
    decreases candidates
  {
    hide Inv, Ready, PassedOver, Eligible, HandOut, DeliveryFor, Walked, Free;
    if candidates == [] || credit == 0 {
      WalkStops(s, call, credit, bytes, first, candidates);
      return;
    }
    var c, tail := candidates[0], candidates[1..];
    HeadFree(s, call, candidates, start, log, trace);
    if PassedOver(s, call.consumer, call.nowMs, c) {
      PassOverReady(s, call, candidates, start, log, trace);
      Walk(s, call, credit, bytes, first, tail, start, log, trace);
      WalkPasses(s, call, credit, bytes, first, candidates, ClaimFrom(s, call, credit, bytes, first, tail));
    } else if !first && SatAdd64(bytes, c.payloadBytes) > call.maxBytes {
      WalkStops(s, call, credit, bytes, first, candidates);
    } else {
      var d := DeliveryFor(s, call.consumer, call.deadlineMs, c);
      HeadEligible(s, call, candidates, log);
      HandOutKeeps(s, call.consumer, call.nowMs, call.deadlineMs, c, start, log, trace);
      HandOutReady(s, call, candidates, log);
      SameNext(s, d);
      Walk(HandOut(s, d), call, credit - 1, SatAdd64(bytes, c.payloadBytes), false, tail, start, log,
           trace + [HandedOut(c.position)]);
      var rest := ClaimFrom(HandOut(s, d), call, credit - 1, SatAdd64(bytes, c.payloadBytes), false, tail);
      WalkHands(s, call, credit, bytes, first, candidates, rest, start, log, trace);
      DeliveryAt(s, call, c);
      TraceAside(s, call, credit, bytes, first, candidates, Claimed(rest.state, [d] + rest.deliveries, rest.trace),
                 ClaimFrom(s, call, credit, bytes, first, candidates));
    }
  }

  lemma SameNext(s: Partition, d: Delivery)
    ensures HandOut(s, d).next == s.next
  {
  }

  lemma TraceAside(s: Partition, call: Call, credit: nat, bytes: nat, first: bool, candidates: seq<Candidate>,
                   r: Claimed, r': Claimed)
    requires Walked(s, call, credit, bytes, first, candidates, r)
    requires r'.state == r.state && r'.deliveries == r.deliveries
    ensures Walked(s, call, credit, bytes, first, candidates, r')
  {
    hide GetsTo, Handed, HandedOver;
  }

  lemma HeadFree(s: Partition, call: Call, candidates: seq<Candidate>, start: nat, log: Log, trace: seq<Outcome>)
    requires Inv(s, start, log, trace) && Ready(s, candidates, log) && candidates != []
    requires s.next <= candidates[0].position
    ensures PassedOver(s, call.consumer, call.nowMs, candidates[0]) <==>
            !Free(s, call.consumer, call.nowMs, candidates[0])
    ensures |candidates| > 1 ==> candidates[1..][0].position == candidates[0].position + 1
  {
    hide Inv, PassedOver, Free, Covered;
    WindowTail(candidates, log);
    FreeIsNotPassedOver(s, call.consumer, call.nowMs, candidates[0], start, log, trace);
  }

  // ---------------------------------------------------------------- what a claim means

  /** What is left of an allowance. */
  function Unused(limit: nat, used: nat): nat {
    if used < limit then limit - used else 0
  }

  /** The credit of a consumer: what both its own and the group's allowance leave, with counts read as `u32`. */
  function Credit(e: Partition, consumer: Text, settings: Settings): nat {
    Min(Unused(settings.maxUnackedPerConsumer,
               |set id | id in e.deliveries && e.deliveries[id].consumerId == consumer| % (U32_MAX + 1)),
        Unused(settings.maxUnackedPerGroup, |e.deliveries| % (U32_MAX + 1)))
  }

  /** A claim without a consumer, without time, without an allowance or under invalid settings. */
  predicate Empty(command: Command, settings: Settings)
    requires command.ClaimCommand?
  {
    || command.consumer == [] || command.deadlineMs <= command.nowMs
    || command.maxClaim == 0 || command.maxBytes == 0 || !settings.Valid()
  }

  /**
   * `ds` is what the claim hands out of its choices: the first ones, as many as the claim limit, the credit and the
   * byte limit let through. Only the first may exceed the byte limit, and a choice is left out only when one of the
   * three has run out.
   */
  ghost predicate Granted(e: Partition, t: Partition, ds: seq<Delivery>, settings: Settings, command: Command)
    requires command.ClaimCommand?
  {
    var choices := Choices(e, command.consumer, command.nowMs, command.candidates);
    var credit := Credit(e, command.consumer, settings);
    && |ds| <= |choices| && |ds| <= command.maxClaim && |ds| <= credit
    && (|ds| >= 2 ==> Min(Payload(choices[..|ds|]), U64_MAX) <= command.maxBytes)
    && (|ds| < |choices| ==>
          || |ds| == command.maxClaim || |ds| == credit
          || (|ds| >= 1 && Min(Payload(choices[..|ds| + 1]), U64_MAX) > command.maxBytes))
    && (forall i :: 0 <= i < |ds| ==> ds[i] == HandedTo(e, command.consumer, command.deadlineMs, choices[i]))
    && HandedOver(e, t, ds)
  }

  lemma CreditIsAvailable(e: Partition, consumer: Text, settings: Settings)
    ensures AvailableCredit(e, consumer, settings) == Credit(e, consumer, settings)
  {
    assert Held(e, consumer) == set id | id in e.deliveries && e.deliveries[id].consumerId == consumer;
  }

  /**
   * Claiming. In a state that keeps the invariant, for every claim built as the server builds it: an empty claim
   * changes nothing, not even what has expired; any other is answered with what `Granted` says of the state an expiry
   * at that time leaves.
   */
  lemma ClaimMeans(sys: System, groupEpoch: nat, settings: Settings, command: Command)
    requires Good(sys) && command.ClaimCommand? && WellBuilt(sys, command)
    ensures var s := sys.state;
            var r := Execute(s, groupEpoch, settings, command);
            && r.reply.ClaimedReply?
            && if Empty(command, settings) then r.state == s && r.reply.deliveries == []
               else Granted(Execute(s, groupEpoch, settings, ExpireCommand(command.nowMs)).state, r.state,
                            r.reply.deliveries, settings, command)
  {
    hide Inv, Expire, ClaimFrom, AvailableCredit, Granted, Window, Fresh;
    if Empty(command, settings) { return; }
    ExpireKeeps(sys.state, command.nowMs, settings, sys.start, sys.log, sys.trace);
    var e := Expire(sys.state, command.nowMs, settings);
    ReadyToClaim(sys.state, e.state, command.candidates, sys.log);
    WalkGrants(e.state, settings, command, sys.start, sys.log, sys.trace + e.trace);
  }

  lemma WalkGrants(e: Partition, settings: Settings, command: Command, start: nat, log: Log, trace: seq<Outcome>)
    requires command.ClaimCommand? && Inv(e, start, log, trace) && Ready(e, command.candidates, log)
    requires command.maxClaim > 0
    ensures var call := Call(command.consumer, command.nowMs, command.deadlineMs, command.maxBytes);
            var credit := Min(AvailableCredit(e, command.consumer, settings), command.maxClaim);
            var r := ClaimFrom(e, call, credit, 0, true, command.candidates);
            Granted(e, r.state, r.deliveries, settings, command)
  {
    var call := Call(command.consumer, command.nowMs, command.deadlineMs, command.maxBytes);
    var credit := Min(AvailableCredit(e, command.consumer, settings), command.maxClaim);
    CreditIsAvailable(e, command.consumer, settings);
    hide Inv, Ready, AvailableCredit, Credit, Granted;
    var r := ClaimFrom(e, call, credit, 0, true, command.candidates);
    if command.candidates != [] && command.candidates[0].position < e.next {
      NothingGranted(e, settings, command);
    } else {
      hide ClaimFrom;
      Walk(e, call, credit, 0, true, command.candidates, start, log, trace);
      WalkedIsGranted(e, call, r, settings, command);
    }
  }

  lemma NothingGranted(e: Partition, settings: Settings, command: Command)
    requires command.ClaimCommand? && command.candidates != [] && command.candidates[0].position < e.next
    ensures Granted(e, e, [], settings, command)
  {
    NothingHandedOver(e);
    hide HandedOver, FreeOnes, Credit;
  }

  lemma WalkedIsGranted(e: Partition, call: Call, r: Claimed, settings: Settings, command: Command)
    requires command.ClaimCommand? && command.maxClaim > 0
    requires command.candidates != [] ==> e.next <= command.candidates[0].position
    requires call == Call(command.consumer, command.nowMs, command.deadlineMs, command.maxBytes)
    requires Walked(e, call, Min(Credit(e, command.consumer, settings), command.maxClaim), 0, true,
                    command.candidates, r)
    ensures Granted(e, r.state, r.deliveries, settings, command)
  {
    hide HandedOver, FreeOnes, Credit, HandedTo, Payload;
  }

  // ---------------------------------------------------------------- progress, before expiry

  /** The credit of a consumer counting only the deliveries that outlive the time. */
  function LiveCredit(s: Partition, consumer: Text, nowMs: nat, settings: Settings): nat {
    Min(Unused(settings.maxUnackedPerConsumer,
               |set id | && id in s.deliveries && s.deliveries[id].consumerId == consumer
                         && nowMs < s.deliveries[id].deadlineMs| % (U32_MAX + 1)),
        Unused(settings.maxUnackedPerGroup,
               |set id | id in s.deliveries && nowMs < s.deliveries[id].deadlineMs| % (U32_MAX + 1)))
  }

  /** The checkpoint position is not delivered, and a retry of it is due and not held by somebody else. */
  ghost predicate CheckpointOpen(s: Partition, consumer: Text, nowMs: nat, a: Text) {
    && (forall id :: id in s.deliveries ==> s.deliveries[id].position != s.next)
    && (s.next in s.pending ==> s.pending[s.next].notBeforeMs <= nowMs && !HeldByOther(s, consumer, nowMs, a))
  }

  lemma LiveIsCredit(s: Partition, e: Partition, consumer: Text, nowMs: nat, settings: Settings)
    requires forall id :: id in e.deliveries <==> id in s.deliveries && s.deliveries[id].deadlineMs > nowMs
    requires forall id :: id in e.deliveries ==> e.deliveries[id] == s.deliveries[id]
    ensures Credit(e, consumer, settings) == LiveCredit(s, consumer, nowMs, settings)
  {
    assert (set id | id in s.deliveries && nowMs < s.deliveries[id].deadlineMs) == e.deliveries.Keys;
    assert (set id | && id in s.deliveries && s.deliveries[id].consumerId == consumer
                     && nowMs < s.deliveries[id].deadlineMs)
           == (set id | id in e.deliveries && e.deliveries[id].consumerId == consumer);
    assert |e.deliveries.Keys| == |e.deliveries|;
  }

  lemma DelayIsPositive(settings: Settings, attempt: nat)
    requires settings.Valid()
    ensures settings.RetryDelayMs(attempt) > 0
  {
  }

  /** A checkpoint position that is out is out after expiry too, waiting for its backoff, or is no longer there. */
  lemma OutStaysOut(s: Partition, e: Partition, nowMs: nat, settings: Settings, id: Uuid)
    requires Left(s, e, LateFates(s, nowMs, settings), nowMs) && settings.Valid() && nowMs < U64_MAX
    requires id in s.deliveries && s.deliveries[id].position == s.next
    ensures || (id in e.deliveries && e.deliveries[id].position == s.next)
            || Resolved(e, s.next)
            || (s.next in e.pending && e.pending[s.next].notBeforeMs > nowMs)
  {
    var fates := LateFates(s, nowMs, settings);
    if id in fates {
      DelayIsPositive(settings, Min(s.deliveries[id].attempt + 1, U32_MAX));
      hide Settings.RetryDelayMs, Kept;
      if fates[id].TriedAgain? {
        assert TriesAgain(s, fates, id, s.next);
      } else {
        assert Ends(s, fates, id, s.next);
      }
    }
  }

  /** A checkpoint position that is not out is left alone by expiry. */
  lemma IdleStays(s: Partition, e: Partition, nowMs: nat, settings: Settings, a: Text)
    requires Left(s, e, LateFates(s, nowMs, settings), nowMs) && Released(s, e)
    requires forall id :: id in s.deliveries ==> s.deliveries[id].position != s.next
    requires s.next !in s.gaps
    requires s.next in s.pending ==> s.pending[s.next].aggregateId == a
    ensures !Resolved(e, s.next)
    ensures forall id :: id in e.deliveries ==> e.deliveries[id].position != s.next
    ensures s.next in e.pending <==> s.next in s.pending
    ensures s.next in s.pending ==> e.pending[s.next] == s.pending[s.next]
    ensures s.next in s.pending ==> (a in e.leases <==> a in s.leases) && (a in e.leases ==> e.leases[a] == s.leases[a])
  {
    hide Failed, Kept;
    assert !Resolved(s, s.next);
    if s.next in s.pending {
      assert e.pending[s.next].aggregateId in Busy(e);
    }
  }

  lemma OpenAfterExpiry(s: Partition, e: Partition, settings: Settings, consumer: Text, nowMs: nat, c: Candidate,
                        start: nat, log: Log, trace: seq<Outcome>)
    requires Inv(e, start, log, trace) && s.next <= e.next && s.next < |log| && s.next !in s.gaps
    requires s.next in s.pending ==> s.pending[s.next].aggregateId == log[s.next].aggregateId
    requires Left(s, e, LateFates(s, nowMs, settings), nowMs) && Released(s, e)
    requires settings.Valid() && nowMs < U64_MAX
    requires c.position == s.next && c.aggregateId == log[s.next].aggregateId && c.eventId == log[s.next].eventId
    requires !c.replayed && c.deliveryId !in e.deliveries
    ensures (e.next == s.next && Free(e, consumer, nowMs, c)) <==> CheckpointOpen(s, consumer, nowMs, c.aggregateId)
  {
    hide Left, Released, LateFates, Shape, History, Free, PassedOver;
    NextUnresolved(e, start, log, trace);
    if id :| id in s.deliveries && s.deliveries[id].position == s.next {
      OutStaysOut(s, e, nowMs, settings, id);
      if e.next == s.next {
        FreeIsNotPassedOver(e, consumer, nowMs, c, start, log, trace);
        OutIsPassedOver(e, consumer, nowMs, c, id);
      }
    } else {
      IdleStays(s, e, nowMs, settings, c.aggregateId);
      FreeIsNotPassedOver(e, consumer, nowMs, c, start, log, trace);
      CheckpointPassedOver(e, consumer, nowMs, c, start, log, trace);
    }
  }

  lemma OutIsPassedOver(e: Partition, consumer: Text, nowMs: nat, c: Candidate, id: Uuid)
    requires || (id in e.deliveries && e.deliveries[id].position == c.position)
             || (c.position in e.pending && e.pending[c.position].notBeforeMs > nowMs)
    ensures PassedOver(e, consumer, nowMs, c)
  {
  }

  lemma NextUnresolved(s: Partition, start: nat, log: Log, trace: seq<Outcome>)
    requires Inv(s, start, log, trace)
    ensures forall p: nat :: !Resolved(s, p) ==> s.next <= p
    ensures !Resolved(s, s.next) && s.next !in s.gaps
    ensures s.next in s.pending ==> s.next < |log| && s.pending[s.next].aggregateId == log[s.next].aggregateId
  {
  }

  /** Every choice lies at or after the first candidate, and is the first candidate exactly when that one is free. */
  lemma FirstChoice(e: Partition, consumer: Text, nowMs: nat, candidates: seq<Candidate>, log: Log)
    requires candidates != [] && Window(candidates, log)
    ensures var choices := FreeOnes(e, consumer, nowMs, candidates, {});
            (choices != [] && choices[0].position == candidates[0].position) <==> Free(e, consumer, nowMs, candidates[0])
  {
    hide Free;
    WindowFromLog(candidates, log);
    FreeOnesFrom(e, consumer, nowMs, candidates[1..], {}, candidates[0].position + 1, log);
  }

  /**
   * Progress. A claim whose window begins at the checkpoint hands the checkpoint position out, first, exactly when the
   * deliveries that have not run out leave the consumer credit, the position is not delivered, not even by a delivery
   * that runs out now, and a retry of it is due and not held by somebody else. No later event can be in the way.
   */
  lemma Progress(sys: System, groupEpoch: nat, settings: Settings, command: Command)
    requires Good(sys) && command.ClaimCommand? && WellBuilt(sys, command) && !Empty(command, settings)
    requires command.deadlineMs <= U64_MAX
    requires command.candidates != [] && command.candidates[0].position == sys.state.next
    ensures var s := sys.state;
            var r := Execute(s, groupEpoch, settings, command);
            && r.reply.ClaimedReply?
            && ((r.reply.deliveries != [] && r.reply.deliveries[0].position == s.next) <==>
                && LiveCredit(s, command.consumer, command.nowMs, settings) > 0
                && CheckpointOpen(s, command.consumer, command.nowMs, command.candidates[0].aggregateId))
  {
    hide *;
    var s, c := sys.state, command.candidates[0];
    var e := Execute(s, groupEpoch, settings, ExpireCommand(command.nowMs)).state;
    ClaimMeans(sys, groupEpoch, settings, command);
    var ds := Execute(s, groupEpoch, settings, command).reply.deliveries;
    ExpireMeans(sys, groupEpoch, settings, command.nowMs);
    LeftUnchanged(s, e, LateFates(s, command.nowMs, settings), command.nowMs);
    LiveIsCredit(s, e, command.consumer, command.nowMs, settings);
    var more := ExpiredGood(sys, groupEpoch, settings, command);
    OpenAfterExpiry(s, e, settings, command.consumer, command.nowMs, c, sys.start, sys.log, sys.trace + more);
    FirstGranted(e, Execute(s, groupEpoch, settings, command).state, ds, settings, command, s.next, sys.log);
  }

  lemma LeftUnchanged(s: Partition, e: Partition, fates: map<Uuid, Fate>, nowMs: nat)
    requires Left(s, e, fates, nowMs)
    ensures forall id :: id in e.deliveries ==> id in s.deliveries && e.deliveries[id] == s.deliveries[id]
  {
    hide Retried, Kept, Advanced;
  }

  lemma ExpiredGood(sys: System, groupEpoch: nat, settings: Settings, command: Command) returns (more: seq<Outcome>)
    requires Good(sys) && command.ClaimCommand? && WellBuilt(sys, command) && !Empty(command, settings)
    requires command.deadlineMs <= U64_MAX
    requires command.candidates != [] && command.candidates[0].position == sys.state.next
    ensures var s, c := sys.state, command.candidates[0];
            var e := Execute(s, groupEpoch, settings, ExpireCommand(command.nowMs)).state;
            && Inv(e, sys.start, sys.log, sys.trace + more) && s.next <= e.next && s.next < |sys.log|
            && s.next !in s.gaps
            && (s.next in s.pending ==> s.pending[s.next].aggregateId == sys.log[s.next].aggregateId)
            && settings.Valid() && command.nowMs < U64_MAX
            && c.aggregateId == sys.log[s.next].aggregateId && c.eventId == sys.log[s.next].eventId
            && !c.replayed && c.deliveryId !in e.deliveries
            && Window(command.candidates, sys.log)
  {
    hide Inv, Expire;
    NextUnresolved(sys.state, sys.start, sys.log, sys.trace);
    ExpireKeeps(sys.state, command.nowMs, settings, sys.start, sys.log, sys.trace);
    more := Expire(sys.state, command.nowMs, settings).trace;
  }

  lemma FirstGranted(e: Partition, t: Partition, ds: seq<Delivery>, settings: Settings, command: Command, p: nat,
                     log: Log)
    requires command.ClaimCommand? && Granted(e, t, ds, settings, command) && !Empty(command, settings)
    requires command.candidates != [] && Window(command.candidates, log)
    requires command.candidates[0].position == p <= e.next
    ensures (ds != [] && ds[0].position == p) <==>
            && Credit(e, command.consumer, settings) > 0
            && e.next == p && Free(e, command.consumer, command.nowMs, command.candidates[0])
  {
    hide HandedOver, Credit, Free, FreeOnes, Payload;
    FirstChoice(e, command.consumer, command.nowMs, command.candidates, log);
  }
}
