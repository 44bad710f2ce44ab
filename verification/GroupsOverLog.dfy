/**
 * The consumer-group guarantees for the progress the state machine stores. Applying the log drives every stored
 * partition progress through an admissible run of its own, over the partition's log as it is stored.
 */
module GroupsOverLog {
  import opened Base
  import opened Aggregate
  import opened Keys
  import opened StateMachine
  import opened ApplyRefinement
  import opened StoreInvariant
  import opened StoreReads
  import Group = AggregateGroup
  import Invariant = AggregateGroupInvariant
  import Runs = AggregateGroupRuns
  import Fetch = GroupFetch
  import Catalogs = AggregateCatalog
  import GroupCatalog

  // ---------------------------------------------------------------- the partition's log

  /** What has been announced of a partition, as a consumer group sees it. */
  function LogOf(events: seq<StoredEvent>): (log: Invariant.Log)
    ensures |log| == |events|
  {
    seq(|events|, q requires 0 <= q < |events| => Fetch.AsSeen(events[q]))
  }

  /** It is the stored log. */
  lemma AnnouncedIsGroupLog(n: Node, ty: TypeId, p: nat)
    requires Sound(n.store, ty, p) && SentIsLog(n, ty, p)
    ensures LogOf(Announced(n.sent, ty, p)) == Fetch.GroupLog(n.store, ty, p)
  {
    hide Announced, Typed, EventsIndexed, VersionsDense, VersionsOrdered, RecordsExact, NextOf;
    var log, stored := LogOf(Announced(n.sent, ty, p)), Fetch.GroupLog(n.store, ty, p);
    forall q | 0 <= q < |log| ensures log[q] == stored[q] {
      assert Resolves(n.store, ty, p, q) && Announced(n.sent, ty, p)[q] == EventOf(n.store, ty, p, q);
    }
  }

  // ---------------------------------------------------------------- what an entry does to one group's progress

  /** The request is for this group and partition, and is neither refused, fenced off nor of an older epoch. */
  predicate Executes(s: Store, r: Request, ty: TypeId, p: nat, g: Text) {
    && r.GroupPartition? && r.ty == ty && r.partition == p && r.group == g
    && r.ty.Valid() && ValidIdentifier(r.group) && r.settings.Valid()
    && FenceOf(s, ty, p) == r.generation
    && (ProgressOf(s, ty, p, g).Some? ==> ProgressOf(s, ty, p, g).value.epoch <= r.groupEpoch)
  }

  predicate Resets(s: Store, r: Request, ty: TypeId, p: nat, g: Text)
    requires r.GroupPartition?
  {
    ProgressOf(s, ty, p, g).None? || ProgressOf(s, ty, p, g).value.epoch < r.groupEpoch
  }

  function Executed(s: Store, r: Request, ty: TypeId, p: nat, g: Text): Group.Executed
    requires r.GroupPartition?
  {
    Group.Execute(EnterEpoch(ProgressOf(s, ty, p, g), r.groupEpoch, r.start), r.groupEpoch, r.settings, r.command)
  }

  /** An entry moves the stored progress exactly when it carries such a request. */
  lemma EntryProgress(n: Node, hash: Catalogs.Hash, e: Entry, ty: TypeId, p: nat, g: Text)
    ensures ProgressOf(ApplyEntry(n, hash, e).store, ty, p, g) ==
            if e.payload.Normal? && Executes(n.store, e.payload.request, ty, p, g)
            then Some(Executed(n.store, e.payload.request, ty, p, g).state)
            else ProgressOf(n.store, ty, p, g)
  {
    if e.payload.Normal? {
      DecideProgress(n.store, hash, e.payload.request, ty, p, g);
    }
    hide Decide, Executes, Executed;
  }

  lemma DecideProgress(s: Store, hash: Catalogs.Hash, r: Request, ty: TypeId, p: nat, g: Text)
    ensures var puts, key := Decide(s, hash, r).puts, GroupPartitionKey(ty, p, g);
            && (key in puts <==> Executes(s, r, ty, p, g))
            && (key in puts ==> puts[key] == Progress(Executed(s, r, ty, p, g).state))
  {
    hide VersionOf, StateOf, NextOf, FenceOf, RecordOf, ProgressOf, CatalogOf, GroupsOf;
    hide StoredAt, Fingerprint, TypeId.Valid, Group.Settings.Valid, Group.Execute, Catalogs.Apply;
    hide GroupCatalog.Apply, ValidIdentifier;
  }

  // ---------------------------------------------------------------- the history of an epoch

  /** Where the stored progress's epoch began, and everything that has happened in it. */
  datatype Course = Course(start: nat, trace: seq<Group.Outcome>)

  function CourseAfter(s: Store, c: Course, e: Entry, ty: TypeId, p: nat, g: Text): Course {
    if e.payload.Normal? && Executes(s, e.payload.request, ty, p, g) then
      var r := e.payload.request;
      var base := if Resets(s, r, ty, p, g) then Course(r.start, []) else c;
      base.(trace := base.trace + Executed(s, r, ty, p, g).trace)
    else c
  }

  function CourseOver(n: Node, hash: Catalogs.Hash, entries: seq<Entry>, c: Course, ty: TypeId, p: nat, g: Text): Course
    decreases entries
  {
    if entries == [] then c
    else CourseOver(ApplyEntry(n, hash, entries[0]), hash, entries[1..],
                    CourseAfter(n.store, c, entries[0], ty, p, g), ty, p, g)
  }

  /** A claim was built as the server builds it, from the log as it stands when the claim is applied. */
  ghost predicate Built(n: Node, e: Entry, ty: TypeId, p: nat, g: Text) {
    e.payload.Normal? && Executes(n.store, e.payload.request, ty, p, g) ==>
      var r := e.payload.request;
      var log := LogOf(Announced(n.sent, ty, p));
      && r.start <= |log|
      && Runs.WellBuilt(Runs.System(EnterEpoch(ProgressOf(n.store, ty, p, g), r.groupEpoch, r.start), r.start, log,
                                    []), r.command)
  }

  ghost predicate AllBuilt(n: Node, hash: Catalogs.Hash, entries: seq<Entry>, ty: TypeId, p: nat, g: Text)
    decreases entries
  {
    entries == [] || (Built(n, entries[0], ty, p, g) && AllBuilt(ApplyEntry(n, hash, entries[0]), hash, entries[1..],
                                                                 ty, p, g))
  }

  /** The stored progress satisfies the group invariant over the partition's log and the epoch's history. */
  ghost predicate Kept(n: Node, c: Course, ty: TypeId, p: nat, g: Text) {
    var log := LogOf(Announced(n.sent, ty, p));
    && |log| <= U64_MAX
    && (ProgressOf(n.store, ty, p, g).Some? ==> Invariant.Inv(ProgressOf(n.store, ty, p, g).value, c.start, log,
                                                              c.trace))
  }

  /** A group request applied to the progress of its group. */
  lemma RequestKeeps(n: Node, c: Course, e: Entry, ty: TypeId, p: nat, g: Text)
    requires Kept(n, c, ty, p, g) && Built(n, e, ty, p, g) && e.payload.Normal? &&
             Executes(n.store, e.payload.request, ty, p, g)
    ensures var c' := CourseAfter(n.store, c, e, ty, p, g);
            Invariant.Inv(Executed(n.store, e.payload.request, ty, p, g).state, c'.start,
                          LogOf(Announced(n.sent, ty, p)), c'.trace)
  {
    hide Invariant.Inv, Group.Execute, Announced, ProgressOf, FenceOf, LogOf, Runs.WellBuilt;
    var r := e.payload.request;
    var log := LogOf(Announced(n.sent, ty, p));
    var base := if Resets(n.store, r, ty, p, g) then Course(r.start, []) else c;
    var state := EnterEpoch(ProgressOf(n.store, ty, p, g), r.groupEpoch, r.start);
    if Resets(n.store, r, ty, p, g) {
      FreshCourse(r.groupEpoch, r.start, log);
    }
    WellBuiltAnywhere(state, r.start, base.start, log, base.trace, r.command);
    Runs.ExecuteKeeps(state, r.groupEpoch, r.settings, r.command, base.start, log, base.trace);
  }

  lemma FreshCourse(epoch: nat, start: nat, log: Invariant.Log)
    requires start <= |log| <= U64_MAX
    ensures Invariant.Inv(Group.New(epoch, start), start, log, [])
  {
    Runs.NewIsGood(epoch, start, log);
    hide Invariant.Inv;
  }

  lemma WellBuiltAnywhere(state: Group.Partition, a: nat, b: nat, log: Invariant.Log, trace: seq<Group.Outcome>,
                          command: Group.Command)
    requires Runs.WellBuilt(Runs.System(state, a, log, []), command)
    ensures Runs.WellBuilt(Runs.System(state, b, log, trace), command)
  {
  }

  /** An event appended to the partition. */
  lemma AppendKeeps(state: Group.Partition, c: Course, events: seq<StoredEvent>, e: StoredEvent)
    requires Invariant.Inv(state, c.start, LogOf(events), c.trace) && |events| < U64_MAX
    ensures Invariant.Inv(state, c.start, LogOf(events + [e]), c.trace)
  {
    hide Invariant.Inv;
    assert LogOf(events + [e]) == LogOf(events) + [Fetch.AsSeen(e)];
    InvIsGood(Runs.System(state, c.start, LogOf(events), c.trace));
    Runs.AppendKeeps(Runs.System(state, c.start, LogOf(events), c.trace), Fetch.AsSeen(e));
    InvIsGood(Runs.System(state, c.start, LogOf(events) + [Fetch.AsSeen(e)], c.trace));
  }

  lemma InvIsGood(sys: Runs.System)
    ensures Runs.Good(sys) <==> Invariant.Inv(sys.state, sys.start, sys.log, sys.trace)
  {
  }

  lemma AppendsBelow(s: Store, hash: Catalogs.Hash, r: Request)
    requires Appends(s, hash, r)
    ensures NextOf(s, r.ty, r.partition) + 1 <= U64_MAX
  {
    hide VersionOf, FenceOf, RecordOf, NextOf, AppendPuts, StoredAt, Fingerprint;
  }

  /** One more entry. */
  lemma EntryKeeps(n: Node, hash: Catalogs.Hash, e: Entry, c: Course, ty: TypeId, p: nat, g: Text)
    requires Good(n) && Kept(n, c, ty, p, g) && Built(n, e, ty, p, g)
    ensures Kept(ApplyEntry(n, hash, e), CourseAfter(n.store, c, e, ty, p, g), ty, p, g)
  {
    var m := ApplyEntry(n, hash, e);
    EntryProgress(n, hash, e, ty, p, g);
    EntrySent(n, hash, e, ty, p);
    hide Good, ApplyEntry, Announced, Executes, Executed, LogOf, Invariant.Inv, ProgressOf, Built;
    if e.payload.Normal? && Executes(n.store, e.payload.request, ty, p, g) {
      RequestKeeps(n, c, e, ty, p, g);
      ExecutesSendsNothing(n, hash, e, ty, p, g);
    } else if Announced(m.sent, ty, p) != Announced(n.sent, ty, p) && ProgressOf(n.store, ty, p, g).Some? {
      AppendKeeps(ProgressOf(n.store, ty, p, g).value, c, Announced(n.sent, ty, p), m.sent[|n.sent|]);
    }
  }

  /** What an entry announces of one partition: nothing, or one event below the last position. */
  lemma EntrySent(n: Node, hash: Catalogs.Hash, e: Entry, ty: TypeId, p: nat)
    requires Good(n)
    ensures var m := ApplyEntry(n, hash, e);
            || Announced(m.sent, ty, p) == Announced(n.sent, ty, p)
            || (|n.sent| < |m.sent| && Announced(m.sent, ty, p) == Announced(n.sent, ty, p) + [m.sent[|n.sent|]]
                && |Announced(n.sent, ty, p)| < U64_MAX)
  {
    EntryShape(n, hash, e);
    hide AllSound, SameFamilies, Conserved, VersionOf, NextOf, RecordOf, Accepted, AppendPuts, ApplyEntry, Announced;
    hide Appends;
    var m := ApplyEntry(n, hash, e);
    if e.payload.Normal? && Appends(n.store, hash, e.payload.request) {
      var r := e.payload.request;
      var event := StoredAt(r, NextVersion(VersionOf(n.store, r.ty, r.partition, r.aggregateId)),
                            NextOf(n.store, r.ty, r.partition));
      AnnouncedSnoc(n.sent, event, ty, p);
      AppendsBelow(n.store, hash, r);
      assert SentIsLog(n, ty, p);
    }
  }

  lemma ExecutesSendsNothing(n: Node, hash: Catalogs.Hash, e: Entry, ty: TypeId, p: nat, g: Text)
    requires e.payload.Normal? && Executes(n.store, e.payload.request, ty, p, g)
    ensures ApplyEntry(n, hash, e).sent == n.sent
  {
    hide ProgressOf, FenceOf, Group.Execute, TypeId.Valid, Group.Settings.Valid, ValidIdentifier;
    assert n.sent + [] == n.sent;
  }

  lemma {:induction false} LogKeeps(n: Node, hash: Catalogs.Hash, entries: seq<Entry>, c: Course, ty: TypeId, p: nat,
                                    g: Text)
    requires Good(n) && Kept(n, c, ty, p, g) && AllBuilt(n, hash, entries, ty, p, g)
    ensures Kept(ApplyEntries(n, hash, entries), CourseOver(n, hash, entries, c, ty, p, g), ty, p, g)
    decreases entries
  {
    hide Good, Kept, Built, ApplyEntry, CourseAfter;
    if entries != [] {
      OneGood(n, hash, entries[0]);
      EntryKeeps(n, hash, entries[0], c, ty, p, g);
      LogKeeps(ApplyEntry(n, hash, entries[0]), hash, entries[1..], CourseAfter(n.store, c, entries[0], ty, p, g), ty,
               p, g);
    }
  }

  lemma OneGood(n: Node, hash: Catalogs.Hash, e: Entry)
    requires Good(n)
    ensures Good(ApplyEntry(n, hash, e))
  {
    hide Good, ApplyEntry;
    assert [e][1..] == [];
    RunsKeepGood(n, hash, [e]);
  }

  lemma NothingYet(c: Course, ty: TypeId, p: nat, g: Text)
    ensures Kept(FRESH, c, ty, p, g)
  {
  }

  /** The history of a group's current epoch in a log applied from the start. */
  function History(hash: Catalogs.Hash, log: seq<Entry>, ty: TypeId, p: nat, g: Text): Course {
    CourseOver(FRESH, hash, log, Course(0, []), ty, p, g)
  }

  /**
   * In every node a log reaches, with claims built as the server builds them, the progress stored for a group and a
   * partition satisfies the group invariant over the partition's stored log and the history of its epoch.
   */
  lemma StoredProgressKept(hash: Catalogs.Hash, log: seq<Entry>, ty: TypeId, p: nat, g: Text)
    requires AllBuilt(FRESH, hash, log, ty, p, g)
    ensures var s := ApplyEntries(FRESH, hash, log).store;
            && Sound(s, ty, p)
            && (ProgressOf(s, ty, p, g).Some? ==>
                  var c := History(hash, log, ty, p, g);
                  Invariant.Inv(ProgressOf(s, ty, p, g).value, c.start, Fetch.GroupLog(s, ty, p), c.trace))
  {
    FreshGood();
    RunsKeepGood(FRESH, hash, log);
    NothingYet(Course(0, []), ty, p, g);
    LogKeeps(FRESH, hash, log, Course(0, []), ty, p, g);
    var n := ApplyEntries(FRESH, hash, log);
    hide ApplyEntries, Sound, SentIsLog, Conserved, Invariant.Inv, CourseOver, LogOf, Announced, ProgressOf;
    assert Sound(n.store, ty, p) && SentIsLog(n, ty, p);
    AnnouncedIsGroupLog(n, ty, p);
  }

  /**
   * So a replica's stored checkpoint is exact, and its epoch respected per-instance order: the positions below the
   * checkpoint or in the gap set are those settled, and no event was handed out before all earlier events of its instance.
   */
  lemma StoredOrder(hash: Catalogs.Hash, log: seq<Entry>, ty: TypeId, p: nat, g: Text)
    requires AllBuilt(FRESH, hash, log, ty, p, g)
    requires ProgressOf(ApplyEntries(FRESH, hash, log).store, ty, p, g).Some?
    ensures var s := ApplyEntries(FRESH, hash, log).store;
            var state := ProgressOf(s, ty, p, g).value;
            var c := History(hash, log, ty, p, g);
            && Sound(s, ty, p)
            && (forall q: nat :: c.start <= q ==> (Invariant.WasSettled(c.trace,
                q) <==> q < state.next || q in state.gaps))
            && (forall i, q :: 0 <= i < |c.trace| && c.trace[i].HandedOut?
                               && c.start <= q < c.trace[i].position < |Fetch.GroupLog(s, ty, p)|
                               && Fetch.GroupLog(s, ty, p)[q].aggregateId ==
                                  Fetch.GroupLog(s, ty, p)[c.trace[i].position].aggregateId
                  ==> Invariant.WasSettled(c.trace[..i], q))
  {
    hide ApplyEntries, AllBuilt, History, Sound, Fetch.GroupLog, ProgressOf;
    StoredProgressKept(hash, log, ty, p, g);
    var s := ApplyEntries(FRESH, hash, log).store;
    var c := History(hash, log, ty, p, g);
    var state := ProgressOf(s, ty, p, g).value;
    forall q: nat | c.start <= q ensures Invariant.WasSettled(c.trace, q) <==> q < state.next || q in state.gaps {
      assert Invariant.WasSettled(c.trace, q) <==> Invariant.Resolved(state, q);
    }
  }
}
