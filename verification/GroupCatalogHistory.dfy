/**
 * The catalog of consumer groups told by its history: what it holds, what it accepts and what it answers are read off
 * the commands accepted so far.
 */
module GroupCatalogHistory {
  import opened Base
  import opened Aggregate
  import opened GroupCatalog
  import AggregateCatalog

  // ---------------------------------------------------------------- reading a history

  function IdOf(command: Command): GroupId {
    match command
    case CreateGroup(d, _) => (d.ty, d.name)
    case ReplaceGroup(d, _, _, _) => (d.ty, d.name)
    case DeleteGroup(ty, name, _, _) => (ty, name)
  }

  /** The accepted commands of a group since it was last created; none when it is not there. */
  function Life(h: seq<Command>, id: GroupId): (r: seq<Command>)
    ensures forall i :: 0 <= i < |r| ==> !r[i].DeleteGroup?
  {
    if h == [] then []
    else
      var before, last := Life(h[..|h| - 1], id), h[|h| - 1];
      if IdOf(last) != id then before
      else if last.DeleteGroup? then []
      else if last.CreateGroup? then [last]
      else before + [last]
  }

  /** The deletion that ended a group, while it is not created again. */
  function EndedBy(h: seq<Command>, id: GroupId): Option<Uuid> {
    if h == [] then None
    else
      var before, last := EndedBy(h[..|h| - 1], id), h[|h| - 1];
      if IdOf(last) != id then before
      else if last.DeleteGroup? then Some(last.operationId)
      else if last.CreateGroup? then None
      else before
  }

  function Resets(life: seq<Command>): nat {
    if life == [] then 0
    else
      var last := life[|life| - 1];
      Resets(life[..|life| - 1]) + (if last.ReplaceGroup? && last.reset then 1 else 0)
  }

  /** The revision of a living group: how many commands it took, as far as `u64` counts. */
  function RevisionIn(life: seq<Command>): nat {
    Min(|life|, U64_MAX)
  }

  /** The operation that last wrote a living group. */
  function LastWriter(life: seq<Command>): Uuid
    requires life != [] && !life[|life| - 1].DeleteGroup?
  {
    var last := life[|life| - 1].definition;
    if |life| == 1 then last.createOperationId else last.lastOperationId
  }

  /**
   * A living group: start and settings as the last command wanted them, created by the first command, in the epoch
   * after as many resets.
   */
  function GroupIn(life: seq<Command>): GroupDefinition
    requires life != [] && !life[0].DeleteGroup? && !life[|life| - 1].DeleteGroup?
  {
    var last := life[|life| - 1].definition;
    GroupDefinition(last.ty, last.name, RevisionIn(life), Min(1 + Resets(life), U64_MAX), last.start, last.starts,
                    last.settings, life[0].definition.createOperationId, LastWriter(life))
  }

  // ---------------------------------------------------------------- what is accepted and what is answered

  /** A definition with proper names and settings and a start for every partition, and for nothing else. */
  ghost predicate WellFormed(d: GroupDefinition, partitionCount: nat) {
    && d.ty.Valid() && ValidIdentifier(d.name) && d.settings.Valid()
    && forall p: nat :: p in d.starts <==> p < partitionCount
  }

  ghost predicate Proper(command: Command) {
    match command
    case CreateGroup(d, count) => WellFormed(d, count)
    case ReplaceGroup(d, _, count, _) => WellFormed(d, count)
    case DeleteGroup(ty, name, _, _) => ty.Valid() && ValidIdentifier(name)
  }

  /** The operation that a replacement or a deletion is made by. */
  function Writer(command: Command): Uuid {
    match command
    case CreateGroup(d, _) => d.createOperationId
    case ReplaceGroup(d, _, _, _) => d.lastOperationId
    case DeleteGroup(_, _, _, operationId) => operationId
  }

  /** A change creates what is not there, or meets the revision it expects and is not the last writer again. */
  ghost predicate Legal(h: seq<Command>, command: Command) {
    var life := Life(h, IdOf(command));
    && Proper(command)
    && (command.CreateGroup? <==> life == [])
    && (!command.CreateGroup? ==> Writer(command) != LastWriter(life) && command.expectedRevision == RevisionIn(life))
  }

  /** A command that changes nothing because what it asks for was done by the same operation. */
  ghost predicate Repeats(h: seq<Command>, command: Command) {
    var life := Life(h, IdOf(command));
    match command
    case CreateGroup(d, _) => life != [] && GroupIn(life).createOperationId == d.createOperationId
    case ReplaceGroup(d, _, _, _) => life != [] && LastWriter(life) == d.lastOperationId
    case DeleteGroup(_, _, _, operationId) =>
      if life == [] then EndedBy(h, IdOf(command)) == Some(operationId) else LastWriter(life) == operationId
  }

  ghost function Told(h: seq<Command>, command: Command): Outcome {
    var life := Life(h, IdOf(command));
    if !Proper(command) then Invalid
    else if command.DeleteGroup? && (Legal(h, command) || Repeats(h, command)) then Deleted
    else if Legal(h, command) && Life(h + [command], IdOf(command)) != [] then
      Group(GroupIn(Life(h + [command], IdOf(command))))
    else if life == [] then NotFound
    else if Repeats(h, command) then Group(GroupIn(life))
    else Conflict(Some(RevisionIn(life)))
  }

  ghost function After(h: seq<Command>, command: Command): seq<Command> {
    if Legal(h, command) then h + [command] else h
  }

  ghost function History(commands: seq<Command>): seq<Command> {
    if commands == [] then [] else After(History(commands[..|commands| - 1]), commands[|commands| - 1])
  }

  ghost predicate Reflects(g: Groups, h: seq<Command>) {
    && g.revision == Min(|h|, U64_MAX)
    && (forall id :: id in g.groups <==> Life(h, id) != [])
    && (forall id :: id in g.groups ==> g.groups[id] == GroupIn(Life(h, id)))
    && (forall id :: id in g.deleted <==> EndedBy(h, id).Some?)
    && (forall id :: id in g.deleted ==> g.deleted[id] == EndedBy(h, id).value)
  }

  // ---------------------------------------------------------------- one more command

  lemma ReadSnoc(h: seq<Command>, command: Command, id: GroupId)
    ensures Life(h + [command], id) ==
            if IdOf(command) != id then Life(h, id)
            else if command.DeleteGroup? then []
            else if command.CreateGroup? then [command]
            else Life(h, id) + [command]
    ensures EndedBy(h + [command], id) ==
            if IdOf(command) != id then EndedBy(h, id)
            else if command.DeleteGroup? then Some(command.operationId)
            else if command.CreateGroup? then None
            else EndedBy(h, id)
  {
    assert (h + [command])[..|h|] == h;
  }

  lemma WellFormedIsValid(d: GroupDefinition, partitionCount: nat)
    ensures d.Valid(partitionCount) <==> WellFormed(d, partitionCount)
  {
    hide TypeId.Valid;
    var all := AggregateCatalog.Below(partitionCount);
    if d.Valid(partitionCount) {
      assert |d.starts.Keys| == |d.starts|;
      AggregateCatalog.SameSizeSubset(all, d.starts.Keys);
      assert forall p: nat :: p in d.starts <==> p in all;
    }
    if WellFormed(d, partitionCount) {
      assert d.starts.Keys == all;
      assert |d.starts| == |d.starts.Keys|;
    }
  }

  lemma ProperIsValid(command: Command)
    ensures Proper(command) <==>
            match command
            case CreateGroup(d, count) => d.Valid(count)
            case ReplaceGroup(d, _, count, _) => d.Valid(count)
            case DeleteGroup(ty, name, _, _) => ty.Valid() && ValidIdentifier(name)
  {
    match command
    case CreateGroup(d, count) => WellFormedIsValid(d, count);
    case ReplaceGroup(d, _, count, _) => WellFormedIsValid(d, count);
    case DeleteGroup(_, _, _, _) =>
  }

  lemma ReplacedGroup(life: seq<Command>, command: Command)
    requires life != [] && !life[0].DeleteGroup? && !life[|life| - 1].DeleteGroup? && command.ReplaceGroup?
    ensures var d := GroupIn(life);
            GroupIn(life + [command]) ==
            command.definition.(createOperationId := d.createOperationId, revision := SatAdd64(d.revision, 1),
                                epoch := if command.reset then SatAdd64(d.epoch, 1) else d.epoch)
  {
    assert (life + [command])[..|life|] == life;
  }

  lemma CreatedGroup(command: Command)
    requires command.CreateGroup?
    ensures var d := command.definition;
            GroupIn([command]) == d.(revision := 1, epoch := 1, lastOperationId := d.createOperationId)
  {
    var life := [command];
    assert life[..|life| - 1] == [];
    assert Resets(life) == 0;
  }

  lemma LastWriterIn(life: seq<Command>)
    requires life != [] && !life[0].DeleteGroup? && !life[|life| - 1].DeleteGroup?
    ensures GroupIn(life).lastOperationId == LastWriter(life) && GroupIn(life).revision == RevisionIn(life)
  {
  }

  /** A command that is not accepted changes nothing and is answered as the history says. */
  lemma RefusedAnswer(g: Groups, h: seq<Command>, command: Command)
    requires Reflects(g, h) && !Legal(h, command)
    ensures Apply(g, command) == Applied(g, Told(h, command))
  {
    ProperIsValid(command);
    hide GroupDefinition.Valid, Proper, TypeId.Valid, RevisionIn, LastWriter, EndedBy;
    var life := Life(h, IdOf(command));
    hide Life;
    if life != [] { LastWriterIn(life); }
    hide GroupIn;
  }

  /** An accepted command leaves what the longer history says of its own group, and answers with it. */
  lemma AcceptedAnswer(g: Groups, h: seq<Command>, command: Command)
    requires Reflects(g, h) && Legal(h, command)
    ensures var r := Apply(g, command);
            var life := Life(h + [command], IdOf(command));
            && r.outcome == Told(h, command)
            && r.groups.revision == SatAdd64(g.revision, 1)
            && r.groups.groups == (if life == [] then g.groups - {IdOf(command)}
                                   else g.groups[IdOf(command) := GroupIn(life)])
            && r.groups.deleted == (if command.CreateGroup? then g.deleted - {IdOf(command)}
                                    else if command.DeleteGroup? then g.deleted[IdOf(command) := command.operationId]
                                    else g.deleted)
  {
    var life := Life(h, IdOf(command));
    ProperIsValid(command);
    ReadSnoc(h, command, IdOf(command));
    hide GroupDefinition.Valid, Proper, TypeId.Valid, Life, EndedBy;
    if command.CreateGroup? {
      CreatedGroup(command);
    } else {
      LastWriterIn(life);
      if command.ReplaceGroup? { ReplacedGroup(life, command); }
    }
    hide RevisionIn, LastWriter, GroupIn;
  }

  /** The groups after an accepted command are those of the longer history. */
  lemma LivesAfter(g: Groups, h: seq<Command>, command: Command)
    requires Reflects(g, h) && Legal(h, command)
    ensures var t := Apply(g, command).groups;
            && (forall id :: id in t.groups <==> Life(h + [command], id) != [])
            && (forall id :: id in t.groups ==> t.groups[id] == GroupIn(Life(h + [command], id)))
  {
    AcceptedAnswer(g, h, command);
    hide Apply, Legal, Told, GroupIn, Life, EndedBy;
    forall id: GroupId | id != IdOf(command) ensures Life(h + [command], id) == Life(h, id) {
      ReadSnoc(h, command, id);
    }
  }

  lemma EndsAfter(g: Groups, h: seq<Command>, command: Command)
    requires Reflects(g, h) && Legal(h, command)
    ensures var t := Apply(g, command).groups;
            && (forall id :: id in t.deleted <==> EndedBy(h + [command], id).Some?)
            && (forall id :: id in t.deleted ==> t.deleted[id] == EndedBy(h + [command], id).value)
  {
    AcceptedAnswer(g, h, command);
    ReadSnoc(h, command, IdOf(command));
    hide Apply, Legal, Told, GroupIn, Life, EndedBy;
    forall id: GroupId | id != IdOf(command) ensures EndedBy(h + [command], id) == EndedBy(h, id) {
      ReadSnoc(h, command, id);
    }
  }

  lemma AcceptedReflects(g: Groups, h: seq<Command>, command: Command)
    requires Reflects(g, h) && Legal(h, command)
    ensures Reflects(Apply(g, command).groups, h + [command])
  {
    AcceptedAnswer(g, h, command);
    LivesAfter(g, h, command);
    EndsAfter(g, h, command);
    hide Apply, Legal, Told, GroupIn, Life, EndedBy;
  }

  lemma StepReflects(g: Groups, h: seq<Command>, command: Command)
    requires Reflects(g, h)
    ensures Apply(g, command).outcome == Told(h, command)
    ensures Reflects(Apply(g, command).groups, After(h, command))
  {
    hide Reflects, Legal, Told, Apply;
    if Legal(h, command) {
      AcceptedAnswer(g, h, command);
      AcceptedReflects(g, h, command);
    } else {
      RefusedAnswer(g, h, command);
    }
  }

  // ---------------------------------------------------------------- every run

  lemma {:induction false} RunSnoc(g: Groups, commands: seq<Command>, command: Command)
    ensures RunAll(g, commands + [command]) == Apply(RunAll(g, commands), command).groups
    decreases commands
  {
    hide Apply;
    var all := commands + [command];
    if commands == [] {
      assert all[1..] == [];
    } else {
      assert all[0] == commands[0] && all[1..] == commands[1..] + [command];
      RunSnoc(Apply(g, commands[0]).groups, commands[1..], command);
    }
  }

  lemma EmptyReflects()
    ensures Reflects(EMPTY, [])
  {
  }

  /**
   * A group catalog is its history. After any run from the empty catalog a group is there exactly when its last
   * accepted command is not a deletion; its start and settings are those of that command, its revision and epoch count
   * the commands and the resets since it was created; and the next command, whatever it is, is answered as the history
   * alone tells.
   */
  lemma {:induction false} GroupsAreHistory(commands: seq<Command>)
    ensures Reflects(RunAll(EMPTY, commands), History(commands))
    ensures forall next: Command :: Apply(RunAll(EMPTY, commands), next).outcome == Told(History(commands), next)
    decreases |commands|
  {
    hide After, Told, Apply;
    hide Reflects;
    if commands == [] {
      EmptyReflects();
    } else {
      var before, last := commands[..|commands| - 1], commands[|commands| - 1];
      assert commands == before + [last];
      GroupsAreHistory(before);
      RunSnoc(EMPTY, before, last);
      StepReflects(RunAll(EMPTY, before), History(before), last);
    }
    forall next: Command ensures Apply(RunAll(EMPTY, commands), next).outcome == Told(History(commands), next) {
      StepReflects(RunAll(EMPTY, commands), History(commands), next);
    }
  }
}
