/**
 * Groups that are deleted and created again. The catalog forgets a deleted group and creates it anew in its first
 * epoch, but the progress stored with the partitions outlives it.
 */
module GroupLives {
  import opened Base
  import opened Aggregate
  import opened Keys
  import opened StateMachine
  import opened ApplyRefinement
  import opened StoreReads
  import opened GroupsOverLog
  import Group = AggregateGroup
  import Catalogs = AggregateCatalog
  import GroupCatalog

  // ---------------------------------------------------------------- the catalog's side

  /** The epoch the stored catalog has for a group, if it has the group. */
  function EpochOf(s: Store, ty: TypeId, g: Text): Option<nat> {
    if (ty, g) in GroupsOf(s).groups then Some(GroupsOf(s).groups[(ty, g)].epoch) else None
  }

  predicate Deletes(e: Entry, ty: TypeId, g: Text) {
    && IsGroupCommand(e) && e.payload.request.groupCommand.DeleteGroup?
    && e.payload.request.groupCommand.ty == ty && e.payload.request.groupCommand.name == g
  }

  predicate Creates(e: Entry, ty: TypeId, g: Text) {
    && IsGroupCommand(e) && e.payload.request.groupCommand.CreateGroup?
    && e.payload.request.groupCommand.definition.ty == ty && e.payload.request.groupCommand.definition.name == g
  }

  /** What an entry leaves of a group that is not there: nothing, or a group in its first epoch if it creates it. */
  lemma AbsentAfter(n: Node, hash: Catalogs.Hash, e: Entry, ty: TypeId, g: Text)
    requires EpochOf(n.store, ty, g).None?
    ensures var after := EpochOf(ApplyEntry(n, hash, e).store, ty, g);
            after.None? || (Creates(e, ty, g) && after == Some(1))
  {
    ApplyKeepsGroups(n, hash, e);
    hide ApplyEntry, GroupsOf, DecideEntry, GroupCatalog.GroupDefinition.Valid;
    if IsGroupCommand(e) {
      GroupCommandStores(n.store, hash, e);
    } else {
      OtherKeepsGroups(n.store, hash, e);
    }
  }

  ghost predicate NoCreation(entries: seq<Entry>, ty: TypeId, g: Text) {
    forall i :: 0 <= i < |entries| ==> !Creates(entries[i], ty, g)
  }

  lemma {:induction false} AbsentStays(n: Node, hash: Catalogs.Hash, entries: seq<Entry>, ty: TypeId, g: Text)
    requires EpochOf(n.store, ty, g).None? && NoCreation(entries, ty, g)
    ensures EpochOf(ApplyEntries(n, hash, entries).store, ty, g).None?
    decreases entries
  {
    if entries != [] {
      AbsentAfter(n, hash, entries[0], ty, g);
      hide ApplyEntry, EpochOf, Creates;
      AbsentStays(ApplyEntry(n, hash, entries[0]), hash, entries[1..], ty, g);
    }
  }

  /** The control shard's log from the end of one life of a group to the beginning of the next. */
  datatype Rebirth = Rebirth(deletion: Entry, between: seq<Entry>, creation: Entry) {
    function Entries(): seq<Entry> {
      [deletion] + between + [creation]
    }
  }

  /** Both commands took effect in the stored catalog, and nothing created the group in between. */
  ghost predicate Reborn(control: Node, hash: Catalogs.Hash, b: Rebirth, ty: TypeId, g: Text) {
    && Deletes(b.deletion, ty, g) && Creates(b.creation, ty, g) && NoCreation(b.between, ty, g)
    && EpochOf(control.store, ty, g).Some?
    && EpochOf(ApplyEntry(control, hash, b.deletion).store, ty, g).None?
    && EpochOf(ApplyEntries(control, hash, b.Entries()).store, ty, g).Some?
  }

  /** A group that is created again is in its first epoch, whatever epoch its earlier life had reached. */
  lemma RebornInFirstEpoch(control: Node, hash: Catalogs.Hash, b: Rebirth, ty: TypeId, g: Text)
    requires Reborn(control, hash, b, ty, g)
    ensures EpochOf(ApplyEntries(control, hash, b.Entries()).store, ty, g) == Some(1)
  {
    var deleted := ApplyEntry(control, hash, b.deletion);
    var before := ApplyEntries(deleted, hash, b.between);
    RebirthSteps(control, hash, b);
    hide ApplyEntry, ApplyEntries, EpochOf, Creates, Deletes;
    AbsentStays(deleted, hash, b.between, ty, g);
    AbsentAfter(before, hash, b.creation, ty, g);
  }

  lemma RebirthSteps(control: Node, hash: Catalogs.Hash, b: Rebirth)
    ensures ApplyEntries(control, hash, b.Entries()) ==
            ApplyEntry(ApplyEntries(ApplyEntry(control, hash, b.deletion), hash, b.between), hash, b.creation)
  {
    hide ApplyEntry;
    ApplyConcat(control, hash, [b.deletion] + b.between, [b.creation]);
    ApplyConcat(control, hash, [b.deletion], b.between);
    ApplyOne(control, hash, b.deletion);
    ApplyOne(ApplyEntries(ApplyEntry(control, hash, b.deletion), hash, b.between), hash, b.creation);
  }

  lemma ApplyOne(n: Node, hash: Catalogs.Hash, e: Entry)
    ensures ApplyEntries(n, hash, [e]) == ApplyEntry(n, hash, e)
  {
    hide ApplyEntry;
    assert [e][1..] == [];
  }

  // ---------------------------------------------------------------- the partition's side

  /** Nothing in these entries is a command for this group's partition. */
  ghost predicate NoCommands(entries: seq<Entry>, ty: TypeId, p: nat, g: Text) {
    forall i :: 0 <= i < |entries| && entries[i].payload.Normal? && entries[i].payload.request.GroupPartition? ==>
      var r := entries[i].payload.request;
      (r.ty, r.partition, r.group) != (ty, p, g)
  }

  lemma {:induction false} ProgressStays(n: Node, hash: Catalogs.Hash, entries: seq<Entry>, ty: TypeId, p: nat, g: Text)
    requires NoCommands(entries, ty, p, g)
    ensures ProgressOf(ApplyEntries(n, hash, entries).store, ty, p, g) == ProgressOf(n.store, ty, p, g)
    decreases entries
  {
    if entries != [] {
      EntryProgress(n, hash, entries[0], ty, p, g);
      hide ApplyEntry, ProgressOf;
      ProgressStays(ApplyEntry(n, hash, entries[0]), hash, entries[1..], ty, p, g);
    }
  }

  /** The progress a command runs on; nothing when it is of an older epoch than what is stored. */
  function RunsOn(stored: Option<Group.Partition>, r: Request): Option<Group.Partition>
    requires r.GroupPartition?
  {
    if stored.Some? && stored.value.epoch > r.groupEpoch then None else Some(EnterEpoch(stored, r.groupEpoch, r.start))
  }

  /**
   * The command is valid and carries the partition's generation, so it is not turned away before its epoch is
   * looked at.
   */
  predicate Admitted(s: Store, r: Request) {
    && r.GroupPartition? && r.ty.Valid() && ValidIdentifier(r.group) && r.settings.Valid()
    && FenceOf(s, r.ty, r.partition) == r.generation
  }

  /** What a command decides when it runs on this progress. */
  function RunOn(r: Request, state: Group.Partition): Decision
    requires r.GroupPartition?
  {
    var done := Group.Execute(state, r.groupEpoch, r.settings, r.command);
    Decision(map[GroupPartitionKey(r.ty, r.partition, r.group) := Progress(done.state)], GroupReply(done.reply), [])
  }

  /** An admitted command does nothing but run on that progress, or be refused as stale. */
  lemma AdmittedDecides(s: Store, hash: Catalogs.Hash, r: Request)
    requires Admitted(s, r)
    ensures var stored := ProgressOf(s, r.ty, r.partition, r.group);
            && (RunsOn(stored, r).Some? ==> Decide(s, hash, r) == RunOn(r, RunsOn(stored, r).value))
            && (RunsOn(stored, r).None? ==> Decide(s, hash, r) == Answer(StaleEpoch(stored.value.epoch)))
  {
    hide ProgressOf, FenceOf, Group.Execute, TypeId.Valid, ValidIdentifier, Group.Settings.Valid;
  }

  /**
   * A group deleted and created again. The control shard, which may or may not be the one that holds the partition, goes
   * through the deletion and the creation; the partition's shard applies anything but commands for the group. The first
   * command of the new life carries the epoch the catalog then has. It runs on fresh progress exactly when none was
   * stored, or progress of epoch zero, or progress that is itself fresh with the same start. Otherwise it goes on where
   * the earlier life stood, or is refused as stale exactly when that life had been reset.
   */
  lemma ProgressOutlivesGroup(control: Node, b: Rebirth, data: Node, entries: seq<Entry>, hash: Catalogs.Hash,
                              r: Request)
    requires r.GroupPartition? && Reborn(control, hash, b, r.ty, r.group)
    requires Some(r.groupEpoch) == EpochOf(ApplyEntries(control, hash, b.Entries()).store, r.ty, r.group)
    requires NoCommands(entries, r.ty, r.partition, r.group) && Admitted(ApplyEntries(data, hash, entries).store, r)
    ensures var before := ProgressOf(data.store, r.ty, r.partition, r.group);
            var s := ApplyEntries(data, hash, entries).store;
            var on := RunsOn(ProgressOf(s, r.ty, r.partition, r.group), r);
            && (on == Some(Group.New(1, r.start)) <==>
                before.None? || before.value.epoch == 0 || before.value == Group.New(1, r.start))
            && (on.None? <==> before.Some? && before.value.epoch > 1)
            && (before.Some? && before.value.epoch == 1 ==> on == before)
            && Decide(s, hash, r) == (if on.Some? then RunOn(r, on.value) else Answer(StaleEpoch(before.value.epoch)))
  {
    RebornInFirstEpoch(control, hash, b, r.ty, r.group);
    ProgressStays(data, hash, entries, r.ty, r.partition, r.group);
    AdmittedDecides(ApplyEntries(data, hash, entries).store, hash, r);
    hide ApplyEntries, ProgressOf, Group.Execute, NoCommands, Admitted, Reborn, EpochOf, Decide, RunOn;
  }

  // ---------------------------------------------------------------- two runs

  /** What a run shows of one group and one partition. */
  datatype Look = Look(groups: GroupCatalog.Groups, fence: nat, progress: Option<Group.Partition>,
                       events: seq<StoredEvent>)

  function LookAt(n: Node, ty: TypeId, p: nat, g: Text): Look {
    Look(GroupsOf(n.store), FenceOf(n.store, ty, p), ProgressOf(n.store, ty, p, g), Announced(n.sent, ty, p))
  }

  function CatalogEntry(at: LogId, command: GroupCatalog.Command): Entry {
    Entry(at, Normal(CommitGroupCatalog(command)))
  }

  lemma CatalogStep(n: Node, hash: Catalogs.Hash, at: LogId, command: GroupCatalog.Command, ty: TypeId, p: nat, g: Text)
    requires GroupsOf(n.store).revision < U64_MAX
    ensures var m := ApplyEntry(n, hash, CatalogEntry(at, command));
            && LookAt(m, ty, p, g) == LookAt(n, ty, p, g).(groups := GroupCatalog.Apply(GroupsOf(n.store),
                command).groups)
            && m.sent == n.sent
  {
    var e := CatalogEntry(at, command);
    GroupCatalog.StagedExactly(GroupsOf(n.store), command);
    ApplyKeepsGroups(n, hash, e);
    GroupCommandStores(n.store, hash, e);
    EntryProgress(n, hash, e, ty, p, g);
    hide GroupsOf, ProgressOf, GroupCatalog.Apply, GroupCatalog.Fits, Announced;
    assert n.sent + [] == n.sent;
  }

  lemma CommandStep(n: Node, hash: Catalogs.Hash, at: LogId, r: Request)
    requires Admitted(n.store, r) && RunsOn(ProgressOf(n.store, r.ty, r.partition, r.group), r).Some?
    ensures var m := ApplyEntry(n, hash, Entry(at, Normal(r)));
            var state := RunsOn(ProgressOf(n.store, r.ty, r.partition, r.group), r).value;
            && LookAt(m, r.ty, r.partition, r.group) == LookAt(n, r.ty, r.partition, r.group)
               .(progress := Some(Group.Execute(state, r.groupEpoch, r.settings, r.command).state))
            && m.sent == n.sent
  {
    var e := Entry(at, Normal(r));
    ApplyKeepsGroups(n, hash, e);
    OtherKeepsGroups(n.store, hash, e);
    AdmittedDecides(n.store, hash, r);
    EntryProgress(n, hash, e, r.ty, r.partition, r.group);
    hide GroupsOf, ProgressOf, Group.Execute, Announced, Decide, TypeId.Valid, ValidIdentifier, Group.Settings.Valid;
    assert n.sent + [] == n.sent;
  }
}
