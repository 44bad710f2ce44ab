/** Two runs from an empty node in which a group is deleted and created again and does not start afresh. */
module GroupRebirth {
  import opened Base
  import opened Aggregate
  import opened Keys
  import opened StateMachine
  import opened ApplyRefinement
  import opened StoreReads
  import opened GroupsOverLog
  import opened GroupLives
  import Group = AggregateGroup
  import Invariant = AggregateGroupInvariant
  import Redelivery = AggregateGroupRedelivery
  import Fetch = GroupFetch
  import Catalogs = AggregateCatalog
  import GroupCatalog

  /**
   * A group, one of its partitions, an event to append there, and the operations that end its life and begin the
   * next.
   */
  datatype Story = Story(group: GroupCatalog.GroupDefinition, count: nat, p: nat, aggregateId: Text, event: NewEvent,
                         hlc: Hlc,
                         resetId: Uuid, deleteId: Uuid, again: GroupCatalog.GroupDefinition)
  {
    ghost predicate Valid() {
      && group.Valid(count) && ValidIdentifier(aggregateId) && event.eventType != []
      && again.Valid(count) && again.ty == group.ty && again.name == group.name
      && resetId != group.createOperationId && deleteId != group.createOperationId && deleteId != resetId
    }

    function Id(): GroupCatalog.GroupId {
      (group.ty, group.name)
    }
  }

  /** There is such a story. */
  lemma StoriesExist()
    ensures exists u: Story :: u.Valid()
  {
    var settings := Group.Settings(1, 1, 1, 1, 1, 1);
    var d := GroupCatalog.GroupDefinition(TypeId([97], [98]), [99], 0, 0, GroupCatalog.Beginning, map[], settings, 0,
                                          0);
    var u := Story(d, 0, 0, [97], NewEvent(0, [97], [], []), Hlc(0, 0), 1, 2, d);
    assert d.Valid(0);
    assert u.Valid();
  }

  function At(index: nat): LogId {
    LogId(1, 1, index)
  }

  function FenceEntry(u: Story): Entry {
    Entry(At(0), Normal(InstallFence(u.group.ty, u.p, 1)))
  }

  function AppendEntry(u: Story): Entry {
    Entry(At(1), Normal(Append(u.group.ty, u.p, 1, u.aggregateId, Any, u.event, u.hlc)))
  }

  function FirstEvent(u: Story): StoredEvent {
    StoredAt(AppendEntry(u).payload.request, 0, 0)
  }

  function Command(u: Story, epoch: nat, command: Group.Command): Request {
    GroupPartition(u.group.ty, u.p, 1, u.group.name, epoch, 0, u.group.settings, command)
  }

  const CONSUMER: Text := [97]

  function ClaimIt(u: Story): Group.Command {
    Group.ClaimCommand(CONSUMER, 0, 1, 1, 1, [Fetch.CandidateFor(FirstEvent(u), 0)])
  }

  const ACK_IT: Group.Command := Group.SettleCommand(CONSUMER, 0, [Group.Settlement(0, Group.Ack, [])])

  // ---------------------------------------------------------------- before any group

  lemma Fenced(hash: Catalogs.Hash, u: Story)
    requires u.Valid()
    ensures var n := ApplyEntry(FRESH, hash, FenceEntry(u));
            && n.store == map[FenceKey(u.group.ty, u.p) := Fence(1),
                              AppliedState := Applied(Some(At(0)), NO_MEMBERSHIP)]
            && n.sent == []
  {
    hide TypeId.Valid;
    assert u.group.ty.Valid();
  }

  lemma FencedLook(s: Store, u: Story)
    requires s == map[FenceKey(u.group.ty, u.p) := Fence(1), AppliedState := Applied(Some(At(0)), NO_MEMBERSHIP)]
    ensures FenceOf(s, u.group.ty, u.p) == 1 && NextOf(s, u.group.ty, u.p) == 0
    ensures VersionOf(s, u.group.ty, u.p, u.aggregateId).None? && RecordOf(s, u.group.ty, u.p, u.event.eventId).None?
    ensures ProgressOf(s, u.group.ty, u.p, u.group.name).None? && GroupsOf(s) == GroupCatalog.EMPTY
  {
  }

  lemma AppendDecides(s: Store, hash: Catalogs.Hash, u: Story)
    requires u.Valid() && FenceOf(s, u.group.ty, u.p) == 1 && NextOf(s, u.group.ty, u.p) == 0
    requires VersionOf(s, u.group.ty, u.p, u.aggregateId).None? && RecordOf(s, u.group.ty, u.p, u.event.eventId).None?
    ensures Decide(s, hash, AppendEntry(u).payload.request).events == [FirstEvent(u)]
    ensures FenceKey(u.group.ty, u.p) !in Decide(s, hash, AppendEntry(u).payload.request).puts
  {
    hide FenceOf, NextOf, VersionOf, RecordOf, TypeId.Valid, ValidIdentifier, Fingerprint;
    hide GroupCatalog.GroupDefinition.Valid;
    assert u.group.ty.Valid() by {
      DefinitionType(u.group, u.count);
    }
  }

  lemma DefinitionType(d: GroupCatalog.GroupDefinition, count: nat)
    requires d.Valid(count)
    ensures d.ty.Valid() && ValidIdentifier(d.name) && d.settings.Valid()
  {
  }

  /** One event is appended to the fenced partition. */
  lemma Appended(hash: Catalogs.Hash, u: Story)
    requires u.Valid()
    ensures var n := ApplyEntry(ApplyEntry(FRESH, hash, FenceEntry(u)), hash, AppendEntry(u));
            && LookAt(n, u.group.ty, u.p, u.group.name) == Look(GroupCatalog.EMPTY, 1, None, [FirstEvent(u)])
            && n.sent == [FirstEvent(u)]
  {
    var ty, p, g := u.group.ty, u.p, u.group.name;
    Fenced(hash, u);
    var m := ApplyEntry(FRESH, hash, FenceEntry(u));
    FencedLook(m.store, u);
    AppendDecides(m.store, hash, u);
    ApplyKeepsGroups(m, hash, AppendEntry(u));
    OtherKeepsGroups(m.store, hash, AppendEntry(u));
    EntryProgress(m, hash, AppendEntry(u), ty, p, g);
    AnnouncedSnoc([], FirstEvent(u), ty, p);
    hide Decide, GroupsOf, ProgressOf, NextOf, VersionOf, RecordOf, Announced, Story.Valid;
    assert [] + [FirstEvent(u)] == [FirstEvent(u)];
    assert Announced([], ty, p) == [] by {
      NothingAnnounced(ty, p);
    }
    assert FenceOf(ApplyEntry(m, hash, AppendEntry(u)).store, ty, p) == 1;
  }

  lemma NothingAnnounced(ty: TypeId, p: nat)
    ensures Announced([], ty, p) == []
  {
  }

  // ---------------------------------------------------------------- a life that reaches a checkpoint

  /** Progress of the first epoch with position zero settled and nothing outstanding. */
  const SETTLED: Group.Partition := Group.Partition(1, 1, {}, map[], map[], map[], map[])

  /** The progress while the event is out. */
  function Holding(u: Story): Group.Partition {
    var e := FirstEvent(u);
    Group.Partition(1, 0, {}, map[e.aggregateId := Group.Lease(CONSUMER, 1, 1)],
                    map[0 := Group.Delivery(0, CONSUMER, 0, e.aggregateId, e.version, e.eventId, 0, 1, 1,
                                            false)], map[], map[])
  }

  lemma Claimed(u: Story)
    requires u.Valid()
    ensures Group.Execute(Group.New(1, 0), 1, u.group.settings, ClaimIt(u)).state == Holding(u)
  {
    var s, settings := Group.New(1, 0), u.group.settings;
    var c := Fetch.CandidateFor(FirstEvent(u), 0);
    var d := Group.DeliveryFor(s, CONSUMER, 1, c);
    assert !Group.PassedOver(s, CONSUMER, 0, c);
    assert s.pending - {0} == map[];
    assert Group.HandOut(s, d) == Holding(u);
    hide Group.PassedOver, Group.HandOut, Group.DeliveryFor, Group.Claim, TypeId.Valid, ValidIdentifier;
    Redelivery.ClaimOne(s, CONSUMER, 0, 1, settings, c);
  }

  lemma Acked(u: Story)
    ensures Group.Execute(Holding(u), 1, u.group.settings, ACK_IT).state == SETTLED
  {
    var s := Holding(u);
    var t := Group.WithoutDelivery(s, 0);
    assert t.deliveries == map[];
    assert Group.Absorb(0, {0}) == (1, {}) by {
      assert {0} - {0} == {};
      assert Group.Absorb(1, {}) == (1, {});
    }
    assert {} + {0} == {0};
    var v := Group.Resolve(t, 0);
    assert v == t.(next := 1, gaps := {});
    assert Group.ReleaseUnusedLeases(v) == SETTLED;
    var items := [Group.Settlement(0, Group.Ack, [])];
    assert items[1..] == [];
  }

  /** The first life: the group is created, its event claimed and acknowledged. */
  function FirstLife(u: Story): seq<Entry> {
    [FenceEntry(u), AppendEntry(u), CatalogEntry(At(2), GroupCatalog.CreateGroup(u.group, u.count)),
     Entry(At(3), Normal(Command(u, 1, ClaimIt(u)))), Entry(At(4), Normal(Command(u, 1, ACK_IT)))]
  }

  /** The group is deleted at its current revision and created again. */
  function Born(u: Story, revision: nat, index: nat): Rebirth {
    Rebirth(CatalogEntry(At(index), GroupCatalog.DeleteGroup(u.group.ty, u.group.name, revision, u.deleteId)), [],
            CatalogEntry(At(index + 1), GroupCatalog.CreateGroup(u.again, u.count)))
  }

  /** The catalog with the group in it as it is created, and the one after its deletion and second creation. */
  function Created(d: GroupCatalog.GroupDefinition): GroupCatalog.GroupDefinition {
    d.(revision := 1, epoch := 1, lastOperationId := d.createOperationId)
  }

  lemma CatalogCreated(groups: GroupCatalog.Groups, d: GroupCatalog.GroupDefinition, count: nat)
    requires d.Valid(count) && (d.ty, d.name) !in groups.groups && groups.revision < U64_MAX
    ensures var after := GroupCatalog.Apply(groups, GroupCatalog.CreateGroup(d, count)).groups;
            after.groups == groups.groups[(d.ty, d.name) := Created(d)] && after.revision == groups.revision + 1
  {
  }

  lemma CatalogDeleted(groups: GroupCatalog.Groups, u: Story)
    requires u.Valid() && u.Id() in groups.groups && groups.revision < U64_MAX
    requires groups.groups[u.Id()].lastOperationId != u.deleteId
    ensures var after := GroupCatalog.Apply(groups, GroupCatalog.DeleteGroup(u.group.ty, u.group.name,
        groups.groups[u.Id()].revision, u.deleteId)).groups;
            after.groups == groups.groups - {u.Id()} && after.revision == groups.revision + 1
  {
  }

  /** Deleting and creating again: the catalog's side is a rebirth, the partition's side stays as it is. */
  lemma Rebirths(n: Node, hash: Catalogs.Hash, u: Story, index: nat)
    requires u.Valid() && u.Id() in GroupsOf(n.store).groups && GroupsOf(n.store).revision + 1 < U64_MAX
    requires GroupsOf(n.store).groups[u.Id()].lastOperationId != u.deleteId
    ensures var b := Born(u, GroupsOf(n.store).groups[u.Id()].revision, index);
            var m := ApplyEntries(n, hash, b.Entries());
            && Reborn(n, hash, b, u.group.ty, u.group.name)
            && NoCommands(b.Entries(), u.group.ty, u.p, u.group.name)
            && FenceOf(m.store, u.group.ty, u.p) == FenceOf(n.store, u.group.ty, u.p)
            && ProgressOf(m.store, u.group.ty, u.p, u.group.name) == ProgressOf(n.store, u.group.ty, u.p, u.group.name)
            && EpochOf(m.store, u.group.ty, u.group.name) == Some(1)
  {
    hide ApplyEntry, GroupsOf, FenceOf, ProgressOf, GroupCatalog.Apply, Announced;
    var ty, p, g := u.group.ty, u.p, u.group.name;
    var b := Born(u, GroupsOf(n.store).groups[u.Id()].revision, index);
    RebirthSteps(n, hash, b);
    var deleted := ApplyEntry(n, hash, b.deletion);
    CatalogStep(n, hash, At(index), b.deletion.payload.request.groupCommand, ty, p, g);
    CatalogDeleted(GroupsOf(n.store), u);
    CatalogStep(deleted, hash, At(index + 1), b.creation.payload.request.groupCommand, ty, p, g);
    CatalogCreated(GroupsOf(deleted.store), u.again, u.count);
    hide Story.Valid;
    assert ApplyEntries(deleted, hash, []) == deleted;
    assert NoCreation([], ty, g);
    assert b.Entries() == [b.deletion, b.creation];
  }

  lemma Cons(n: Node, hash: Catalogs.Hash, e: Entry, rest: seq<Entry>, ty: TypeId, p: nat, g: Text)
    ensures ApplyEntries(n, hash, [e] + rest) == ApplyEntries(ApplyEntry(n, hash, e), hash, rest)
    ensures Built(n, e, ty, p, g) && AllBuilt(ApplyEntry(n, hash, e), hash, rest, ty, p, g) ==>
            AllBuilt(n, hash, [e] + rest, ty, p, g)
  {
    hide ApplyEntry, Built;
    assert ([e] + rest)[1..] == rest;
  }

  lemma Five(n: Node, hash: Catalogs.Hash, a: Entry, b: Entry, c: Entry, d: Entry, e: Entry, ty: TypeId, p: nat,
             g: Text)
    ensures var m1 := ApplyEntry(n, hash, a);
            var m2 := ApplyEntry(m1, hash, b);
            var m3 := ApplyEntry(m2, hash, c);
            var m4 := ApplyEntry(m3, hash, d);
            && ApplyEntries(n, hash, [a, b, c, d, e]) == ApplyEntry(m4, hash, e)
            && (Built(n, a, ty, p, g) && Built(m1, b, ty, p, g) && Built(m2, c, ty, p, g) && Built(m3, d, ty, p, g) &&
                Built(m4, e, ty, p, g)
                ==> AllBuilt(n, hash, [a, b, c, d, e], ty, p, g))
  {
    hide ApplyEntry, Built;
    var m1 := ApplyEntry(n, hash, a);
    var m2 := ApplyEntry(m1, hash, b);
    var m3 := ApplyEntry(m2, hash, c);
    var m4 := ApplyEntry(m3, hash, d);
    assert [a, b, c, d, e] == [a] + ([b] + ([c] + ([d] + ([e] + []))));
    Cons(n, hash, a, [b] + ([c] + ([d] + ([e] + []))), ty, p, g);
    Cons(m1, hash, b, [c] + ([d] + ([e] + [])), ty, p, g);
    Cons(m2, hash, c, [d] + ([e] + []), ty, p, g);
    Cons(m3, hash, d, [e] + [], ty, p, g);
    Cons(m4, hash, e, [], ty, p, g);
  }

  /** A claim of the only event is built as the server builds it. */
  lemma ClaimIsBuilt(n: Node, u: Story, at: LogId)
    requires LookAt(n, u.group.ty, u.p, u.group.name).progress.None?
    requires LookAt(n, u.group.ty, u.p, u.group.name).events == [FirstEvent(u)]
    ensures Built(n, Entry(at, Normal(Command(u, 1, ClaimIt(u)))), u.group.ty, u.p, u.group.name)
  {
    hide ProgressOf, Announced, FenceOf;
    var log := LogOf([FirstEvent(u)]);
    var c := Fetch.CandidateFor(FirstEvent(u), 0);
    assert log[0] == Fetch.AsSeen(FirstEvent(u));
    assert Invariant.Window([c], log);
  }

  lemma AckIsBuilt(n: Node, u: Story, at: LogId)
    ensures Built(n, Entry(at, Normal(Command(u, 1, ACK_IT))), u.group.ty, u.p, u.group.name)
  {
    hide ProgressOf, Announced, FenceOf;
  }

  lemma StoryAdmits(n: Node, u: Story, epoch: nat, command: Group.Command)
    requires u.Valid() && FenceOf(n.store, u.group.ty, u.p) == 1
    ensures Admitted(n.store, Command(u, epoch, command))
  {
    DefinitionType(u.group, u.count);
    hide FenceOf, TypeId.Valid, ValidIdentifier, Group.Settings.Valid, GroupCatalog.GroupDefinition.Valid;
  }

  lemma Made(hash: Catalogs.Hash, u: Story, n: Node)
    requires u.Valid() && LookAt(n, u.group.ty, u.p, u.group.name) == Look(GroupCatalog.EMPTY, 1, None, [FirstEvent(u)])
    ensures var look := LookAt(ApplyEntry(n, hash, FirstLife(u)[2]), u.group.ty, u.p, u.group.name);
            && look.fence == 1 && look.progress.None? && look.events == [FirstEvent(u)]
            && look.groups.revision == 1 && look.groups.groups == map[u.Id() := Created(u.group)]
  {
    hide ApplyEntry, GroupsOf, FenceOf, ProgressOf, GroupCatalog.Apply, Announced;
    CatalogStep(n, hash, At(2), GroupCatalog.CreateGroup(u.group, u.count), u.group.ty, u.p, u.group.name);
    CatalogCreated(GroupCatalog.EMPTY, u.group, u.count);
  }

  lemma ClaimedAndAcked(hash: Catalogs.Hash, u: Story, n: Node)
    requires u.Valid()
    requires var look := LookAt(n, u.group.ty, u.p, u.group.name);
             look.fence == 1 && look.progress.None? && look.events == [FirstEvent(u)]
    ensures var m := ApplyEntry(n, hash, FirstLife(u)[3]);
            && LookAt(ApplyEntry(m, hash, FirstLife(u)[4]), u.group.ty, u.p, u.group.name)
               == LookAt(n, u.group.ty, u.p, u.group.name).(progress := Some(SETTLED))
            && Built(n, FirstLife(u)[3], u.group.ty, u.p, u.group.name) && Built(m, FirstLife(u)[4], u.group.ty, u.p,
                u.group.name)
  {
    hide ApplyEntry, GroupsOf, FenceOf, ProgressOf, Story.Valid, Announced, Built, Admitted, Group.Execute, ClaimIt;
    var m := ApplyEntry(n, hash, FirstLife(u)[3]);
    ClaimIsBuilt(n, u, At(3));
    StoryAdmits(n, u, 1, ClaimIt(u));
    CommandStep(n, hash, At(3), Command(u, 1, ClaimIt(u)));
    Claimed(u);
    AckIsBuilt(m, u, At(4));
    StoryAdmits(m, u, 1, ACK_IT);
    CommandStep(m, hash, At(4), Command(u, 1, ACK_IT));
    Acked(u);
  }

  /** From an empty node the first life ends with position zero settled, every claim built as the server builds it. */
  lemma FirstLifeReaches(hash: Catalogs.Hash, u: Story)
    requires u.Valid()
    ensures var n := ApplyEntries(FRESH, hash, FirstLife(u));
            var look := LookAt(n, u.group.ty, u.p, u.group.name);
            && AllBuilt(FRESH, hash, FirstLife(u), u.group.ty, u.p, u.group.name)
            && look.progress == Some(SETTLED) && look.fence == 1
            && look.groups.revision == 1 && look.groups.groups == map[u.Id() := Created(u.group)]
  {
    var ty, p, g := u.group.ty, u.p, u.group.name;
    var entries := FirstLife(u);
    assert entries == [entries[0], entries[1], entries[2], entries[3], entries[4]];
    assert entries[0] == FenceEntry(u) && entries[1] == AppendEntry(u);
    hide ApplyEntry, ApplyEntries, AllBuilt, LookAt, Story.Valid, Built, FirstLife, FenceEntry, AppendEntry;
    var n1 := ApplyEntry(FRESH, hash, entries[0]);
    var n2 := ApplyEntry(n1, hash, entries[1]);
    Appended(hash, u);
    Made(hash, u, n2);
    ClaimedAndAcked(hash, u, ApplyEntry(n2, hash, entries[2]));
    OthersBuilt(FRESH, u, ty, p, g);
    OthersBuilt(n1, u, ty, p, g);
    OthersBuilt(n2, u, ty, p, g);
    Five(FRESH, hash, entries[0], entries[1], entries[2], entries[3], entries[4], ty, p, g);
  }

  lemma OthersBuilt(n: Node, u: Story, ty: TypeId, p: nat, g: Text)
    ensures Built(n, FirstLife(u)[0], ty, p, g) && Built(n, FirstLife(u)[1], ty, p, g) && Built(n, FirstLife(u)[2],
        ty, p, g)
  {
  }

  /**
   * A run that goes on from an old checkpoint. The group's only event is claimed and acknowledged, the group is deleted
   * and created again, and the first command of the new life, though it asks to start at zero, runs on checkpoint one.
   */
  lemma NewLifeResumes(hash: Catalogs.Hash, u: Story, command: Group.Command)
    requires u.Valid()
    ensures var n := ApplyEntries(FRESH, hash, FirstLife(u));
            var b := Born(u, 1, 5);
            var m := ApplyEntries(n, hash, b.Entries());
            var r := Command(u, 1, command);
            && AllBuilt(FRESH, hash, FirstLife(u), u.group.ty, u.p, u.group.name)
            && Reborn(n, hash, b, u.group.ty, u.group.name) &&
               EpochOf(m.store, u.group.ty, u.group.name) == Some(r.groupEpoch)
            && r.start == 0 && SETTLED.next == 1
            && Decide(m.store, hash, r) == RunOn(r, SETTLED)
  {
    hide ApplyEntries, AllBuilt, Reborn, NoCommands, EpochOf, GroupsOf, FenceOf, ProgressOf, Decide, RunOn, Admitted;
    hide FirstLife;
    FirstLifeReaches(hash, u);
    var n := ApplyEntries(FRESH, hash, FirstLife(u));
    Rebirths(n, hash, u, 5);
    var m := ApplyEntries(n, hash, Born(u, 1, 5).Entries());
    StoryAdmits(m, u, 1, command);
    AdmittedDecides(m.store, hash, Command(u, 1, command));
  }

  // ---------------------------------------------------------------- a life that is reset

  /** The group is created, reset to its second epoch, and its partition asked once. */
  function ResetLife(u: Story): seq<Entry> {
    [FenceEntry(u), AppendEntry(u), CatalogEntry(At(2), GroupCatalog.CreateGroup(u.group, u.count)),
     CatalogEntry(At(3), GroupCatalog.ReplaceGroup(u.group.(lastOperationId := u.resetId), 1, u.count, true)),
     Entry(At(4), Normal(Command(u, 2, Group.ExpireCommand(0))))]
  }

  lemma CatalogReset(groups: GroupCatalog.Groups, u: Story)
    requires u.Valid() && groups.revision == 1 && groups.groups == map[u.Id() := Created(u.group)]
    ensures var d := u.group.(lastOperationId := u.resetId);
            var after := GroupCatalog.Apply(groups, GroupCatalog.ReplaceGroup(d, 1, u.count, true)).groups;
            && after.revision == 2 && u.Id() in after.groups
            && after.groups[u.Id()].revision == 2 && after.groups[u.Id()].epoch == 2
            && after.groups[u.Id()].lastOperationId == u.resetId
  {
    var d := u.group.(lastOperationId := u.resetId);
    assert d.Valid(u.count);
  }

  lemma ResetAndAsked(hash: Catalogs.Hash, u: Story, n: Node)
    requires u.Valid()
    requires var look := LookAt(n, u.group.ty, u.p, u.group.name);
             && look.fence == 1 && look.progress.None?
             && look.groups.revision == 1 && look.groups.groups == map[u.Id() := Created(u.group)]
    ensures var m := ApplyEntry(ApplyEntry(n, hash, ResetLife(u)[3]), hash, ResetLife(u)[4]);
            var look := LookAt(m, u.group.ty, u.p, u.group.name);
            && look.fence == 1 && look.progress == Some(Group.New(2, 0))
            && look.groups.revision == 2 && u.Id() in look.groups.groups
            && look.groups.groups[u.Id()].revision == 2 && look.groups.groups[u.Id()].lastOperationId == u.resetId
  {
    hide ApplyEntry, GroupsOf, FenceOf, ProgressOf, GroupCatalog.Apply, Announced, Admitted, Group.Expire;
    var d := u.group.(lastOperationId := u.resetId);
    CatalogStep(n, hash, At(3), GroupCatalog.ReplaceGroup(d, 1, u.count, true), u.group.ty, u.p, u.group.name);
    CatalogReset(GroupsOf(n.store), u);
    hide Story.Valid;
    var m := ApplyEntry(n, hash, ResetLife(u)[3]);
    StoryAdmits(m, u, 2, Group.ExpireCommand(0));
    CommandStep(m, hash, At(4), Command(u, 2, Group.ExpireCommand(0)));
    Redelivery.IdleExpires(Group.New(2, 0), 0, u.group.settings);
  }

  lemma ResetLifeReaches(hash: Catalogs.Hash, u: Story)
    requires u.Valid()
    ensures var n := ApplyEntries(FRESH, hash, ResetLife(u));
            var look := LookAt(n, u.group.ty, u.p, u.group.name);
            && look.fence == 1 && look.progress == Some(Group.New(2, 0))
            && look.groups.revision == 2 && u.Id() in look.groups.groups
            && look.groups.groups[u.Id()].revision == 2 && look.groups.groups[u.Id()].lastOperationId == u.resetId
  {
    var entries := ResetLife(u);
    assert entries == [entries[0], entries[1], entries[2], entries[3], entries[4]];
    assert entries[0] == FenceEntry(u) && entries[1] == AppendEntry(u) && entries[2] == FirstLife(u)[2];
    hide ApplyEntry, ApplyEntries, AllBuilt, LookAt, Story.Valid, Built, FirstLife, ResetLife, FenceEntry, AppendEntry;
    var n2 := ApplyEntry(ApplyEntry(FRESH, hash, entries[0]), hash, entries[1]);
    Appended(hash, u);
    Made(hash, u, n2);
    ResetAndAsked(hash, u, ApplyEntry(n2, hash, entries[2]));
    Five(FRESH, hash, entries[0], entries[1], entries[2], entries[3], entries[4], u.group.ty, u.p, u.group.name);
  }

  /**
   * A run that is refused. The group was reset to its second epoch before it was deleted; created again, it is in its
   * first, and its partition answers every command with the old epoch.
   */
  lemma NewLifeIsStale(hash: Catalogs.Hash, u: Story, command: Group.Command)
    requires u.Valid()
    ensures var n := ApplyEntries(FRESH, hash, ResetLife(u));
            var b := Born(u, 2, 5);
            var m := ApplyEntries(n, hash, b.Entries());
            var r := Command(u, 1, command);
            && Reborn(n, hash, b, u.group.ty, u.group.name) &&
               EpochOf(m.store, u.group.ty, u.group.name) == Some(r.groupEpoch)
            && Decide(m.store, hash, r) == Answer(StaleEpoch(2))
  {
    hide ApplyEntries, Reborn, NoCommands, EpochOf, GroupsOf, FenceOf, ProgressOf, Decide, RunOn, Admitted, ResetLife;
    ResetLifeReaches(hash, u);
    var n := ApplyEntries(FRESH, hash, ResetLife(u));
    assert GroupsOf(n.store).groups[u.Id()].lastOperationId != u.deleteId;
    Rebirths(n, hash, u, 5);
    var m := ApplyEntries(n, hash, Born(u, 2, 5).Entries());
    StoryAdmits(m, u, 1, command);
    AdmittedDecides(m.store, hash, Command(u, 1, command));
  }
}
