/** The control shard's catalog of consumer groups. */
module GroupCatalog {
  import opened Base
  import opened Aggregate
  import AggregateGroup

  datatype StartKind = Beginning | Now

  datatype GroupDefinition = GroupDefinition(
    ty: TypeId,
    name: Text,
    revision: nat,
    epoch: nat,
    start: StartKind,
    starts: map<nat, nat>,
    settings: AggregateGroup.Settings,
    createOperationId: Uuid,
    lastOperationId: Uuid)
  {
    predicate Valid(partitionCount: nat) {
      && ty.Valid()
      && ValidIdentifier(name)
      && settings.Valid()
      && |starts| == partitionCount
      && forall p :: 0 <= p < partitionCount ==> p in starts
    }
  }

  type GroupId = (TypeId, Text)

  datatype Groups = Groups(revision: nat, groups: map<GroupId, GroupDefinition>, deleted: map<GroupId, Uuid>)

  datatype Command =
    | CreateGroup(definition: GroupDefinition, partitionCount: nat)
    | ReplaceGroup(definition: GroupDefinition, expectedRevision: nat, partitionCount: nat, reset: bool)
    | DeleteGroup(ty: TypeId, name: Text, expectedRevision: nat, operationId: Uuid)

  datatype Outcome =
    | Group(definition: GroupDefinition)
    | Deleted
    | NotFound
    | Conflict(actualRevision: Option<nat>)
    | Invalid

  datatype Applied = Applied(groups: Groups, outcome: Outcome)

  const EMPTY: Groups := Groups(0, map[], map[])

  function ApplyCreate(g: Groups, definition: GroupDefinition, partitionCount: nat): Applied {
    var id := (definition.ty, definition.name);
    if !definition.Valid(partitionCount) then Applied(g, Invalid)
    else if id in g.groups then
      var existing := g.groups[id];
      if existing.createOperationId == definition.createOperationId then Applied(g, Group(existing))
      else Applied(g, Conflict(Some(existing.revision)))
    else
      var d := definition.(revision := 1, epoch := 1, lastOperationId := definition.createOperationId);
      Applied(Groups(SatAdd64(g.revision, 1), g.groups[id := d], g.deleted - {id}), Group(d))
  }

  function ApplyReplace(g: Groups, definition: GroupDefinition, expectedRevision: nat, partitionCount: nat,
                        reset: bool): Applied {
    var id := (definition.ty, definition.name);
    if !definition.Valid(partitionCount) then Applied(g, Invalid)
    else if id !in g.groups then Applied(g, NotFound)
    else
      var existing := g.groups[id];
      if existing.lastOperationId == definition.lastOperationId then Applied(g, Group(existing))
      else if existing.revision != expectedRevision then Applied(g, Conflict(Some(existing.revision)))
      else
        var d := definition.(createOperationId := existing.createOperationId,
                             revision := SatAdd64(existing.revision, 1),
                             epoch := if reset then SatAdd64(existing.epoch, 1) else existing.epoch);
        Applied(Groups(SatAdd64(g.revision, 1), g.groups[id := d], g.deleted), Group(d))
  }

  function ApplyDelete(g: Groups, ty: TypeId, name: Text, expectedRevision: nat, operationId: Uuid): Applied {
    var id := (ty, name);
    if !ty.Valid() || !ValidIdentifier(name) then Applied(g, Invalid)
    else if id !in g.groups then
      if id in g.deleted && g.deleted[id] == operationId then Applied(g, Deleted) else Applied(g, NotFound)
    else if g.groups[id].lastOperationId == operationId then Applied(g, Deleted)
    else if g.groups[id].revision != expectedRevision then Applied(g, Conflict(Some(g.groups[id].revision)))
    else Applied(Groups(SatAdd64(g.revision, 1), g.groups - {id}, g.deleted[id := operationId]), Deleted)
  }

  function Apply(g: Groups, command: Command): Applied {
    match command
    case CreateGroup(definition, partitionCount) => ApplyCreate(g, definition, partitionCount)
    case ReplaceGroup(definition, expectedRevision, partitionCount, reset) =>
      ApplyReplace(g, definition, expectedRevision, partitionCount, reset)
    case DeleteGroup(ty, name, expectedRevision, operationId) => ApplyDelete(g, ty, name, expectedRevision, operationId)
  }

  /** A command the revision can account for: below the top of `u64` any, at the top only one that changes nothing. */
  predicate Fits(g: Groups, command: Command) {
    g.revision != U64_MAX || Apply(g, command).groups == g
  }

  /** The store writes a catalog when its revision moved. That loses no change exactly when the command fits. */
  lemma StagedExactly(g: Groups, command: Command)
    ensures var t := Apply(g, command).groups;
            && ((t.revision == g.revision ==> t == g) <==> Fits(g, command))
            && (g.revision < U64_MAX ==> t == g || t.revision == g.revision + 1)
            && (g.revision == U64_MAX ==> t.revision == U64_MAX)
  {
    hide GroupDefinition.Valid;
  }

  /** What the commands can tell apart: a change that was not written shows in the answer to some next command. */
  lemma UnwrittenIsVisible(g: Groups, command: Command)
    requires !Fits(g, command)
    ensures exists next: Command :: Apply(Apply(g, command).groups, next).outcome != Apply(g, next).outcome
  {
    var t := Apply(g, command).groups;
    match command
    case CreateGroup(d, count) =>
      var rival := d.(createOperationId := d.createOperationId + 1);
      SameValidity(d, rival, count);
      Differs(t, g, CreateGroup(rival, count));
    case ReplaceGroup(d, expected, _, _) =>
      hide GroupDefinition.Valid;
      Differs(t, g, DeleteGroup(d.ty, d.name, expected + 1, d.lastOperationId));
    case DeleteGroup(ty, name, expected, operationId) =>
      hide GroupDefinition.Valid;
      Differs(t, g, DeleteGroup(ty, name, expected, operationId + 1));
  }

  /** Two creators of one name at the top of the revision: refused after the first, accepted without it. */
  lemma TwoCreators(g: Groups, first: GroupDefinition, second: GroupDefinition)
    requires g.revision == U64_MAX && (first.ty, first.name) !in g.groups
    requires first.Valid(1) && second.Valid(1) && (first.ty, first.name) == (second.ty, second.name)
    requires first.createOperationId != second.createOperationId
    ensures var t := Apply(g, CreateGroup(first, 1)).groups;
            && t.revision == U64_MAX
            && Apply(t, CreateGroup(second, 1)) == Applied(t, Conflict(Some(1)))
            && Apply(g, CreateGroup(second, 1)).groups.revision == U64_MAX
            && Apply(g, CreateGroup(second, 1)).outcome ==
               Group(second.(revision := 1, epoch := 1, lastOperationId := second.createOperationId))
  {
    hide GroupDefinition.Valid;
  }

  lemma SameValidity(d: GroupDefinition, e: GroupDefinition, count: nat)
    requires e == d.(createOperationId := e.createOperationId)
    ensures e.Valid(count) <==> d.Valid(count)
  {
  }

  lemma Differs(t: Groups, g: Groups, next: Command)
    requires Apply(t, next).outcome != Apply(g, next).outcome
    ensures exists c: Command :: Apply(t, c).outcome != Apply(g, c).outcome
  {
  }

  /** Sending any command a second time changes nothing and gets the first answer again. */
  lemma RetryIsIdempotent(g: Groups, command: Command)
    ensures var first := Apply(g, command);
            Apply(first.groups, command) == first
  {
    hide GroupDefinition.Valid;
  }

  // ---------------------------------------------------------------- over runs

  /**
   * A deletion can be confirmed without deleting. That happens exactly when its operation id is the one that last wrote
   * the group, whatever revision was expected.
   */
  lemma DeletedButThere(g: Groups, ty: TypeId, name: Text, expectedRevision: nat, operationId: Uuid)
    ensures var r := Apply(g, DeleteGroup(ty, name, expectedRevision, operationId));
            (r.outcome == Deleted && (ty, name) in r.groups.groups) <==>
            (ty.Valid() && ValidIdentifier(name) && (ty, name) in g.groups &&
              g.groups[(ty, name)].lastOperationId == operationId)
  {
    hide TypeId.Valid;
  }

  /**
   * A run that does it: a group is created, and deleting it with the id of its creation is confirmed and leaves it
   * there.
   */
  lemma ConfirmedNotDeleted(definition: GroupDefinition, partitionCount: nat, expectedRevision: nat)
    requires definition.Valid(partitionCount)
    ensures var create := CreateGroup(definition, partitionCount);
            var delete := DeleteGroup(definition.ty, definition.name, expectedRevision, definition.createOperationId);
            && Apply(RunAll(EMPTY, [create]), delete).outcome == Deleted
            && (definition.ty, definition.name) in RunAll(EMPTY, [create] + [delete]).groups
  {
    var create := CreateGroup(definition, partitionCount);
    var delete := DeleteGroup(definition.ty, definition.name, expectedRevision, definition.createOperationId);
    var g := Apply(EMPTY, create).groups;
    RunOne(EMPTY, create, []);
    RunOne(EMPTY, create, [delete]);
    RunOne(g, delete, []);
    assert [create] + [] == [create] && [delete] + [] == [delete];
    DeletedButThere(g, definition.ty, definition.name, expectedRevision, definition.createOperationId);
  }

  lemma RunOne(g: Groups, command: Command, rest: seq<Command>)
    ensures RunAll(g, [command] + rest) == RunAll(Apply(g, command).groups, rest)
  {
    hide Apply;
    assert ([command] + rest)[1..] == rest;
  }

  function RunAll(g: Groups, commands: seq<Command>): Groups
    decreases commands
  {
    if commands == [] then g else RunAll(Apply(g, commands[0]).groups, commands[1..])
  }

  /** Numbers fit their widths, every group is filed under its own name, and no group is remembered as deleted. */
  ghost predicate WellKept(g: Groups) {
    && g.revision <= U64_MAX
    && (forall id :: id in g.groups ==>
          && g.groups[id].ty == id.0 && g.groups[id].name == id.1
          && 1 <= g.groups[id].revision <= U64_MAX && 1 <= g.groups[id].epoch <= U64_MAX)
    && g.groups.Keys !! g.deleted.Keys
  }

  lemma ApplyKeeps(g: Groups, command: Command)
    requires WellKept(g)
    ensures WellKept(Apply(g, command).groups)
  {
    hide GroupDefinition.Valid, TypeId.Valid;
  }

  /** In every catalog reached from the empty one a name is either a group or remembered as deleted, never both. */
  lemma {:induction false} RunsKeep(g: Groups, commands: seq<Command>)
    requires WellKept(g)
    ensures WellKept(RunAll(g, commands))
    decreases commands
  {
    if commands != [] {
      ApplyKeeps(g, commands[0]);
      hide WellKept, Apply;
      RunsKeep(Apply(g, commands[0]).groups, commands[1..]);
    }
  }

  lemma ReachableIsWellKept(commands: seq<Command>)
    ensures WellKept(RunAll(EMPTY, commands))
  {
    RunsKeep(EMPTY, commands);
  }

  /** The group is there before, between and after the commands. */
  ghost predicate Lives(g: Groups, commands: seq<Command>, id: GroupId)
    decreases commands
  {
    id in g.groups && (commands == [] || Lives(Apply(g, commands[0]).groups, commands[1..], id))
  }

  lemma ApplyRaises(g: Groups, command: Command, id: GroupId)
    requires WellKept(g) && id in g.groups && id in Apply(g, command).groups.groups
    ensures var d, e := g.groups[id], Apply(g, command).groups.groups[id];
            && d.revision <= e.revision && d.epoch <= e.epoch && e.createOperationId == d.createOperationId
            && (d.epoch != e.epoch ==> command.ReplaceGroup? && command.reset)
  {
    hide GroupDefinition.Valid, TypeId.Valid;
  }

  /** While a group lives its epoch and its revision never fall, and it keeps the operation that created it. */
  lemma {:induction false} LivingGroupRises(g: Groups, commands: seq<Command>, id: GroupId)
    requires WellKept(g) && Lives(g, commands, id)
    ensures id in RunAll(g, commands).groups
    ensures var d, e := g.groups[id], RunAll(g, commands).groups[id];
            d.revision <= e.revision && d.epoch <= e.epoch && e.createOperationId == d.createOperationId
    decreases commands
  {
    if commands != [] {
      ApplyKeeps(g, commands[0]);
      ApplyRaises(g, commands[0], id);
      hide WellKept, Apply;
      LivingGroupRises(Apply(g, commands[0]).groups, commands[1..], id);
    }
  }

  class AggregateGroupCatalog {
    var revision: nat
    var groups: map<GroupId, GroupDefinition>
    var deleted: map<GroupId, Uuid>

    /** The stored catalog, read back. */
    constructor Load(stored: Groups)
      ensures View() == stored
    {
      revision, groups, deleted := stored.revision, stored.groups, stored.deleted;
    }

    function View(): Groups
      reads this
    {
      Groups(revision, groups, deleted)
    }

    method Create(definition: GroupDefinition, partitionCount: nat) returns (outcome: Outcome)
      modifies this
      ensures Applied(View(), outcome) == ApplyCreate(old(View()), definition, partitionCount)
    {
      var id := (definition.ty, definition.name);
      if !definition.Valid(partitionCount) { return Invalid; }
      if id in groups {
        var existing := groups[id];
        return if existing.createOperationId == definition.createOperationId then Group(existing)
               else Conflict(Some(existing.revision));
      }
      var d := definition.(revision := 1, epoch := 1, lastOperationId := definition.createOperationId);
      groups := groups[id := d];
      deleted := deleted - {id};
      revision := SatAdd64(revision, 1);
      outcome := Group(d);
    }

    method Replace(definition: GroupDefinition, expectedRevision: nat, partitionCount: nat,
                   reset: bool) returns (outcome: Outcome)
      modifies this
      ensures Applied(View(), outcome) == ApplyReplace(old(View()), definition, expectedRevision, partitionCount, reset)
    {
      var id := (definition.ty, definition.name);
      if !definition.Valid(partitionCount) { return Invalid; }
      if id !in groups { return NotFound; }
      var existing := groups[id];
      if existing.lastOperationId == definition.lastOperationId { return Group(existing); }
      if existing.revision != expectedRevision { return Conflict(Some(existing.revision)); }
      var d := definition.(createOperationId := existing.createOperationId, revision := SatAdd64(existing.revision, 1),
                           epoch := if reset then SatAdd64(existing.epoch, 1) else existing.epoch);
      groups := groups[id := d];
      revision := SatAdd64(revision, 1);
      outcome := Group(d);
    }

    method Delete(ty: TypeId, name: Text, expectedRevision: nat, operationId: Uuid) returns (outcome: Outcome)
      modifies this
      ensures Applied(View(), outcome) == ApplyDelete(old(View()), ty, name, expectedRevision, operationId)
    {
      var id := (ty, name);
      if !ty.Valid() || !ValidIdentifier(name) { return Invalid; }
      if id !in groups {
        return if id in deleted && deleted[id] == operationId then Deleted else NotFound;
      }
      if groups[id].lastOperationId == operationId { return Deleted; }
      if groups[id].revision != expectedRevision { return Conflict(Some(groups[id].revision)); }
      groups := groups - {id};
      deleted := deleted[id := operationId];
      revision := SatAdd64(revision, 1);
      outcome := Deleted;
    }

    /** One command of the replicated log. */
    method ApplyCommand(command: Command) returns (outcome: Outcome)
      modifies this
      ensures Applied(View(), outcome) == Apply(old(View()), command)
    {
      hide ApplyCreate, ApplyReplace, ApplyDelete;
      match command
      case CreateGroup(definition, partitionCount) => outcome := Create(definition, partitionCount);
      case ReplaceGroup(definition, expectedRevision, partitionCount, reset) =>
        outcome := Replace(definition, expectedRevision, partitionCount, reset);
      case DeleteGroup(ty, name, expectedRevision, operationId) =>
        outcome := Delete(ty, name, expectedRevision, operationId);
    }
  }
}
