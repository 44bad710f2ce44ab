/**
 * A group's stored progress told by the log: which of the log's requests were executed for it, what they left and what
 * they were answered.
 */
module ProgressOverLog {
  import opened Base
  import opened Aggregate
  import opened StateMachine
  import opened ApplyRefinement
  import opened StoreHistory
  import Over = GroupsOverLog
  import Group = AggregateGroup
  import Catalogs = AggregateCatalog

  // ---------------------------------------------------------------- reading a log

  predicate For(e: Entry, ty: TypeId, p: nat, g: Text) {
    && e.payload.Normal? && e.payload.request.GroupPartition?
    && e.payload.request.ty == ty && e.payload.request.partition == p && e.payload.request.group == g
  }

  predicate ProperGroup(r: Request)
    requires r.GroupPartition?
  {
    r.ty.Valid() && ValidIdentifier(r.group) && r.settings.Valid()
  }

  /** The epoch the executed requests have reached. */
  function EpochIn(executed: seq<Request>): nat {
    if executed != [] && executed[|executed| - 1].GroupPartition? then executed[|executed| - 1].groupEpoch else 0
  }

  /**
   * The requests of a log that were executed for a group and partition: well formed, of the installed generation, and
   * of no older epoch than those before.
   */
  function ExecutedIn(entries: seq<Entry>, ty: TypeId, p: nat, g: Text): (r: seq<Request>)
    ensures forall i :: 0 <= i < |r| ==> r[i].GroupPartition?
  {
    if entries == [] then []
    else
      var earlier, last := entries[..|entries| - 1], entries[|entries| - 1];
      var before := ExecutedIn(earlier, ty, p, g);
      if && For(last, ty, p, g) && ProperGroup(last.payload.request)
         && last.payload.request.generation == Generation(History(earlier), ty, p)
         && EpochIn(before) <= last.payload.request.groupEpoch
      then before + [last.payload.request] else before
  }

  /** The progress a request starts from: fresh when there is none or when it opens a newer epoch. */
  function From(progress: Option<Group.Partition>, r: Request): Group.Partition
    requires r.GroupPartition?
  {
    if progress.Some? && r.groupEpoch <= progress.value.epoch then progress.value else Group.New(r.groupEpoch, r.start)
  }

  /** What executed requests leave, one after the other. */
  function ProgressIn(executed: seq<Request>): Option<Group.Partition>
    requires forall i :: 0 <= i < |executed| ==> executed[i].GroupPartition?
  {
    if executed == [] then None
    else
      var r := executed[|executed| - 1];
      Some(Group.Execute(From(ProgressIn(executed[..|executed| - 1]), r), r.groupEpoch, r.settings, r.command).state)
  }

  /** The answer to a request for a group and partition. */
  function ToldGroup(entries: seq<Entry>, r: Request): Response
    requires r.GroupPartition?
  {
    var executed := ExecutedIn(entries, r.ty, r.partition, r.group);
    var generation := Generation(History(entries), r.ty, r.partition);
    if !ProperGroup(r) then Invalid
    else if r.generation != generation then Fenced(generation)
    else if r.groupEpoch < EpochIn(executed) then StaleEpoch(EpochIn(executed))
    else GroupReply(Group.Execute(From(ProgressIn(executed), r), r.groupEpoch, r.settings, r.command).reply)
  }

  // ---------------------------------------------------------------- commands keep the epoch

  lemma {:induction false} SettleEpoch(s: Group.Partition, consumer: Text, nowMs: nat, settings: Group.Settings,
                                       items: seq<Group.Settlement>)
    ensures Group.SettleAll(s, consumer, nowMs, settings, items).state.epoch == s.epoch
    decreases items
  {
    if items != [] {
      hide Group.Absorb, Group.Settings.RetryDelayMs;
      SettleEpoch(Group.SettleOne(s, consumer, nowMs, settings, items[0]).0.state, consumer, nowMs, settings, items[1..]);
    }
  }

  lemma {:induction false} RenewEpoch(s: Group.Partition, consumer: Text, deadlineMs: nat, ids: seq<Uuid>)
    ensures Group.RenewAll(s, consumer, deadlineMs, ids).state.epoch == s.epoch
    decreases ids
  {
    if ids != [] {
      RenewEpoch(Group.RenewOne(s, consumer, deadlineMs, ids[0]).0, consumer, deadlineMs, ids[1..]);
    }
  }

  lemma {:induction false} ExpireEpoch(s: Group.Partition, ids: seq<Uuid>, nowMs: nat, settings: Group.Settings)
    ensures Group.ExpireAll(s, ids, nowMs, settings).state.epoch == s.epoch
    decreases ids
  {
    if ids != [] {
      hide Group.Absorb, Group.Settings.RetryDelayMs;
      if ids[0] !in s.deliveries {
        ExpireEpoch(s, ids[1..], nowMs, settings);
      } else {
        ExpireEpoch(Group.RetryOrPark(Group.WithoutDelivery(s, ids[0]), s.deliveries[ids[0]], Group.ACK_TIMEOUT, nowMs,
                                      settings).state, ids[1..], nowMs, settings);
      }
    }
  }

  lemma {:induction false} ClaimEpoch(s: Group.Partition, call: Group.Call, credit: nat, bytes: nat, first: bool,
                                      candidates: seq<Group.Candidate>)
    ensures Group.ClaimFrom(s, call, credit, bytes, first, candidates).state.epoch == s.epoch
    decreases candidates
  {
    hide Group.PassedOver;
    if candidates != [] && credit > 0 {
      var d := Group.DeliveryFor(s, call.consumer, call.deadlineMs, candidates[0]);
      ClaimEpoch(s, call, credit, bytes, first, candidates[1..]);
      ClaimEpoch(Group.HandOut(s, d), call, credit - 1, SatAdd64(bytes, candidates[0].payloadBytes), false,
                 candidates[1..]);
    }
  }

  lemma ExecuteEpoch(s: Group.Partition, groupEpoch: nat, settings: Group.Settings, command: Group.Command)
    ensures Group.Execute(s, groupEpoch, settings, command).state.epoch == s.epoch
  {
    hide Group.SettleAll, Group.RenewAll, Group.ExpireAll, Group.ClaimFrom, Group.AvailableCredit;
    match command
    case ClaimCommand(consumer, nowMs, deadlineMs, maxClaim, maxBytes, candidates) =>
      ExpireEpoch(s, Ascending(Group.ExpiredIds(s, nowMs)), nowMs, settings);
      var e := Group.Expire(s, nowMs, settings).state;
      ClaimEpoch(e, Group.Call(consumer, nowMs, deadlineMs, maxBytes),
                 Min(Group.AvailableCredit(e, consumer, settings), maxClaim), 0, true, candidates);
    case SettleCommand(consumer, nowMs, items) => SettleEpoch(s, consumer, nowMs, settings, items);
    case RenewCommand(consumer, deadlineMs, ids) => RenewEpoch(s, consumer, deadlineMs, ids);
    case ExpireCommand(nowMs) => ExpireEpoch(s, Ascending(Group.ExpiredIds(s, nowMs)), nowMs, settings);
  }

  // ---------------------------------------------------------------- every log

  /** The stored epoch is that of the last executed request. */
  lemma {:induction false} EpochIs(entries: seq<Entry>, ty: TypeId, p: nat, g: Text)
    ensures var executed := ExecutedIn(entries, ty, p, g);
            && (executed != [] ==> ProgressIn(executed).value.epoch == EpochIn(executed))
    decreases |entries|
  {
    hide Group.Execute, Generation, History, ProperGroup;
    if entries != [] {
      var earlier, last := entries[..|entries| - 1], entries[|entries| - 1];
      var before, executed := ExecutedIn(earlier, ty, p, g), ExecutedIn(entries, ty, p, g);
      EpochIs(earlier, ty, p, g);
      if executed != before {
        var r := last.payload.request;
        assert executed[..|executed| - 1] == before;
        ExecuteEpoch(From(ProgressIn(before), r), r.groupEpoch, r.settings, r.command);
      }
    }
  }

  /** An executed request is one that the store finds valid, unfenced and not stale. */
  lemma ExecutesIs(hash: Catalogs.Hash, entries: seq<Entry>, e: Entry, ty: TypeId, p: nat, g: Text)
    requires ProgressOf(ApplyEntries(FRESH, hash, entries).store, ty, p, g) == ProgressIn(ExecutedIn(entries, ty, p, g))
    ensures var s := ApplyEntries(FRESH, hash, entries).store;
            (e.payload.Normal? && Over.Executes(s, e.payload.request, ty, p, g)) <==>
            && For(e, ty, p, g) && ProperGroup(e.payload.request)
            && e.payload.request.generation == Generation(History(entries), ty, p)
            && EpochIn(ExecutedIn(entries, ty, p, g)) <= e.payload.request.groupEpoch
  {
    LogReflects(hash, entries);
    ReadsAre(ApplyEntries(FRESH, hash, entries), hash, History(entries), ty, p);
    EpochIs(entries, ty, p, g);
    hide Reflects, ProgressOf, FenceOf, Generation, History, ApplyEntries, EventsReflect, StatesReflect, NextOf;
    hide TypeId.Valid, ValidIdentifier, Group.Settings.Valid, Group.Execute;
    var executed := ExecutedIn(entries, ty, p, g);
    hide ExecutedIn;
    assert ProgressIn(executed).Some? <==> executed != [];
  }

  lemma ProgressSnoc(entries: seq<Entry>, e: Entry, ty: TypeId, p: nat, g: Text)
    ensures var executed := ExecutedIn(entries, ty, p, g);
            ProgressIn(ExecutedIn(entries + [e], ty, p, g)) ==
            if && For(e, ty, p, g) && ProperGroup(e.payload.request)
               && e.payload.request.generation == Generation(History(entries), ty, p)
               && EpochIn(executed) <= e.payload.request.groupEpoch
            then var r := e.payload.request;
                 Some(Group.Execute(From(ProgressIn(executed), r), r.groupEpoch, r.settings, r.command).state)
            else ProgressIn(executed)
  {
    hide Group.Execute, Generation, History, ProperGroup, For;
    assert (entries + [e])[..|entries|] == entries;
    var executed, more := ExecutedIn(entries, ty, p, g), ExecutedIn(entries + [e], ty, p, g);
    if more != executed {
      assert more[..|more| - 1] == executed;
    }
  }

  lemma FromIsEnter(progress: Option<Group.Partition>, r: Request)
    requires r.GroupPartition?
    ensures From(progress, r) == EnterEpoch(progress, r.groupEpoch, r.start)
  {
  }

  /**
   * Stored progress is what the log's own requests make of it: those that are well formed, carry the generation
   * installed last and an epoch no older than the ones before, executed one after the other, each newer epoch from its
   * own start.
   */
  lemma {:induction false} ProgressIsRun(hash: Catalogs.Hash, entries: seq<Entry>, ty: TypeId, p: nat, g: Text)
    ensures ProgressOf(ApplyEntries(FRESH, hash, entries).store, ty, p, g) == ProgressIn(ExecutedIn(entries, ty, p, g))
    decreases |entries|
  {
    hide ApplyEntry, Over.Executes, ExecutedIn, ProgressIn, For, ProperGroup, Generation, History, Group.Execute;
    hide EnterEpoch;
    if entries == [] {
      EmptyProgress(hash, ty, p, g);
    } else {
      var before, last := entries[..|entries| - 1], entries[|entries| - 1];
      assert entries == before + [last];
      ProgressIsRun(hash, before, ty, p, g);
      var n := ApplyEntries(FRESH, hash, before);
      ApplySnoc(FRESH, hash, before, last);
      hide ApplyEntries, ProgressOf;
      Over.EntryProgress(n, hash, last, ty, p, g);
      ExecutesIs(hash, before, last, ty, p, g);
      ProgressSnoc(before, last, ty, p, g);
      if last.payload.Normal? && last.payload.request.GroupPartition? {
        FromIsEnter(ProgressOf(n.store, ty, p, g), last.payload.request);
      }
      ForIsGroup(last, ty, p, g);
    }
  }

  lemma ForIsGroup(e: Entry, ty: TypeId, p: nat, g: Text)
    ensures For(e, ty, p, g) ==> e.payload.Normal? && e.payload.request.GroupPartition?
  {
  }

  lemma EmptyProgress(hash: Catalogs.Hash, ty: TypeId, p: nat, g: Text)
    ensures ProgressOf(ApplyEntries(FRESH, hash, []).store, ty, p, g) == ProgressIn(ExecutedIn([], ty, p, g))
  {
  }

  /** And the next request is answered as the log alone tells. */
  lemma GroupRequestTold(hash: Catalogs.Hash, entries: seq<Entry>, next: Entry)
    requires next.payload.Normal? && next.payload.request.GroupPartition?
    ensures Responses(FRESH, hash, entries + [next]) ==
            Responses(FRESH, hash, entries) + [ToldGroup(entries, next.payload.request)]
  {
    var r := next.payload.request;
    var n := ApplyEntries(FRESH, hash, entries);
    ApplySnoc(FRESH, hash, entries, next);
    ProgressIsRun(hash, entries, r.ty, r.partition, r.group);
    EpochIs(entries, r.ty, r.partition, r.group);
    LogReflects(hash, entries);
    ReadsAre(n, hash, History(entries), r.ty, r.partition);
    var executed := ExecutedIn(entries, r.ty, r.partition, r.group);
    FromIsEnter(ProgressIn(executed), r);
    SomeProgress(executed);
    hide Reflects, ProgressOf, FenceOf, Generation, History, ApplyEntries, EventsReflect, StatesReflect, NextOf;
    hide TypeId.Valid, ValidIdentifier, Group.Settings.Valid, Group.Execute, ExecutedIn, ProgressIn, From, EnterEpoch;
    hide Responses;
  }

  lemma SomeProgress(executed: seq<Request>)
    requires forall i :: 0 <= i < |executed| ==> executed[i].GroupPartition?
    ensures ProgressIn(executed).Some? <==> executed != []
    ensures executed == [] ==> EpochIn(executed) == 0
  {
  }
}
