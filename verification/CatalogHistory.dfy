/**
 * The type catalog told by its history. What a catalog holds, which commands it accepts and what it answers are all
 * read off the commands it accepted so far, without looking at a catalog.
 */
module CatalogHistory {
  import opened Base
  import opened Aggregate
  import opened AggregateCatalog

  // ---------------------------------------------------------------- reading a history

  /** The accepted registration of a type. */
  function Registration(h: seq<Command>, ty: TypeId): (r: Option<Command>)
    ensures r.Some? ==> r.value.Create? && r.value.ty == ty
  {
    if h == [] then None
    else
      var last := h[|h| - 1];
      if last.Create? && last.ty == ty then Some(last) else Registration(h[..|h| - 1], ty)
  }

  predicate Activated(h: seq<Command>, ty: TypeId) {
    h != [] && (var last := h[|h| - 1]; (last.Activate? && last.ty == ty) || Activated(h[..|h| - 1], ty))
  }

  predicate Concerns(command: Command, ty: TypeId, p: nat) {
    (command.PrepareMove? || command.CompleteMove?) && command.ty == ty && command.partition == p
  }

  /** The accepted prepares and completions of a partition, in order. */
  function Moves(h: seq<Command>, ty: TypeId, p: nat): seq<Command> {
    if h == [] then []
    else
      var before, last := Moves(h[..|h| - 1], ty, p), h[|h| - 1];
      if Concerns(last, ty, p) then before + [last] else before
  }

  /** Where the last prepare wanted to go. */
  function Target(registered: nat, moves: seq<Command>): nat {
    if moves == [] then registered
    else
      var last := moves[|moves| - 1];
      if last.PrepareMove? then last.target else Target(registered, moves[..|moves| - 1])
  }

  /** Where a partition is: where its last completed move wanted to go, or where it was registered. */
  function Home(registered: nat, moves: seq<Command>): nat {
    if moves == [] then registered
    else
      var last := moves[|moves| - 1];
      if last.CompleteMove? then Target(registered, moves[..|moves| - 1]) else Home(registered, moves[..|moves| - 1])
  }

  function Completed(moves: seq<Command>): nat {
    if moves == [] then 0
    else Completed(moves[..|moves| - 1]) + (if moves[|moves| - 1].CompleteMove? then 1 else 0)
  }

  /** The prepare that waits for its completion. */
  function Waiting(moves: seq<Command>): (r: Option<Command>)
    ensures r.Some? ==> r.value.PrepareMove?
  {
    if moves != [] && moves[|moves| - 1].PrepareMove? then Some(moves[|moves| - 1]) else None
  }

  function LastDone(moves: seq<Command>): Option<Uuid> {
    if moves == [] then None
    else
      var last := moves[|moves| - 1];
      if last.CompleteMove? then Some(last.operationId) else LastDone(moves[..|moves| - 1])
  }

  function PlacementIn(registered: nat, moves: seq<Command>): Placement {
    var home, generation := Home(registered, moves), 1 + Completed(moves);
    Placement(home, generation,
              if Waiting(moves).None? then None
              else Some(Move(Waiting(moves).value.operationId, home, Waiting(moves).value.target, generation + 1)),
              LastDone(moves))
  }

  function DefinitionIn(h: seq<Command>, hash: Hash, ty: TypeId): Definition
    requires Registration(h, ty).Some?
  {
    var c := Registration(h, ty).value;
    Definition(ty, c.operationId, hash(PlanInput(c.seed, c.shards)), c.seed, EVENT_PARTITION_COUNT,
               if Activated(h, ty) then Active else Registering,
               map p | p in c.shards :: PlacementIn(c.shards[p], Moves(h, ty, p)))
  }

  // ---------------------------------------------------------------- what is accepted and what is answered

  /** Every partition is placed and nothing else. */
  ghost predicate PlacesAll(shards: map<nat, nat>) {
    forall p: nat :: p in shards <==> p < EVENT_PARTITION_COUNT
  }

  /** The commands a catalog with this history accepts as a change. */
  ghost predicate Legal(h: seq<Command>, command: Command) {
    var registered := Registration(h, command.ty);
    match command
    case Create(ty, _, _, shards) => ty.Valid() && registered.None? && PlacesAll(shards)
    case Activate(ty, operationId) =>
      registered.Some? && registered.value.operationId == operationId && !Activated(h, ty)
    case PrepareMove(ty, p, expectedGeneration, target, _) =>
      && registered.Some? && Activated(h, ty) && p in registered.value.shards
      && var moves := Moves(h, ty, p);
         && Waiting(moves).None? && expectedGeneration == 1 + Completed(moves)
         && target != Home(registered.value.shards[p], moves)
         && expectedGeneration < U64_MAX
    case CompleteMove(ty, p, operationId) =>
      && registered.Some? && p in registered.value.shards
      && var waiting := Waiting(Moves(h, ty, p)); waiting.Some? && waiting.value.operationId == operationId
  }

  /** A command that is not a change but repeats one that was: it is answered with the definition as it stands. */
  ghost predicate Repeats(h: seq<Command>, hash: Hash, command: Command) {
    var registered := Registration(h, command.ty);
    && registered.Some?
    && match command
       case Create(ty, operationId, seed, shards) =>
         && ty.Valid() && registered.value.operationId == operationId
         && hash(PlanInput(registered.value.seed, registered.value.shards)) == hash(PlanInput(seed, shards))
       case Activate(ty, operationId) => registered.value.operationId == operationId && Activated(h, ty)
       case PrepareMove(ty, p, _, target, operationId) =>
         && Activated(h, ty) && p in registered.value.shards
         && var waiting := Waiting(Moves(h, ty, p));
            waiting.Some? && waiting.value.operationId == operationId && waiting.value.target == target
       case CompleteMove(ty, p, operationId) =>
         && p in registered.value.shards
         && Waiting(Moves(h, ty, p)).None? && LastDone(Moves(h, ty, p)) == Some(operationId)
  }

  /** A command no catalog with this history could take, whatever else was asked for. */
  ghost predicate Malformed(h: seq<Command>, command: Command) {
    var registered := Registration(h, command.ty);
    match command
    case Create(ty, _, _, shards) => !ty.Valid() || (registered.None? && !PlacesAll(shards))
    case Activate(_, _) => false
    case PrepareMove(ty, p, expectedGeneration, target, _) =>
      && registered.Some?
      && (|| !Activated(h, ty) || p !in registered.value.shards
          || var moves := Moves(h, ty, p);
             && Waiting(moves).None? && expectedGeneration == 1 + Completed(moves)
             && (target == Home(registered.value.shards[p], moves) || expectedGeneration >= U64_MAX))
    case CompleteMove(_, p, _) => registered.Some? && p !in registered.value.shards
  }

  ghost function After(h: seq<Command>, command: Command): seq<Command> {
    if Legal(h, command) then h + [command] else h
  }

  ghost function Told(h: seq<Command>, hash: Hash, command: Command): Outcome {
    if Registration(h, command.ty).None? && !command.Create? then NotFound
    else if Malformed(h, command) then Invalid
    else if Legal(h, command) && Registration(h + [command], command.ty).Some? then
      Answered(DefinitionIn(h + [command], hash, command.ty), true)
    else if Repeats(h, hash, command) then Answered(DefinitionIn(h, hash, command.ty), false)
    else Conflict
  }

  /** The history of a run: the commands accepted, one after the other. */
  ghost function History(commands: seq<Command>): seq<Command> {
    if commands == [] then [] else After(History(commands[..|commands| - 1]), commands[|commands| - 1])
  }

  /** The catalog holds what the history says. */
  ghost predicate Reflects(c: Catalog, hash: Hash, h: seq<Command>) {
    && c.revision == |h| % (U64_MAX + 1)
    && (forall ty :: ty in c.types <==> Registration(h, ty).Some?)
    && (forall ty :: ty in c.types ==> c.types[ty] == DefinitionIn(h, hash, ty))
    && (forall ty :: ty in c.types ==> PlacesAll(Registration(h, ty).value.shards))
  }

  // ---------------------------------------------------------------- one more command

  lemma ReadSnoc(h: seq<Command>, command: Command, ty: TypeId)
    ensures Registration(h + [command], ty) ==
            if command.Create? && command.ty == ty then Some(command) else Registration(h, ty)
    ensures Activated(h + [command], ty) <==> (command.Activate? && command.ty == ty) || Activated(h, ty)
  {
    assert (h + [command])[..|h|] == h;
  }

  lemma MovesSnoc(h: seq<Command>, command: Command, ty: TypeId, p: nat)
    ensures Moves(h + [command], ty, p) ==
            if Concerns(command, ty, p) then Moves(h, ty, p) + [command] else Moves(h, ty, p)
  {
    assert (h + [command])[..|h|] == h;
  }

  lemma PreparedPlacement(registered: nat, moves: seq<Command>, command: Command)
    requires command.PrepareMove? && Waiting(moves).None?
    ensures var p := PlacementIn(registered, moves);
            PlacementIn(registered, moves + [command]) ==
            p.(pending := Some(Move(command.operationId, p.shard, command.target, p.generation + 1)))
  {
    assert (moves + [command])[..|moves|] == moves;
  }

  lemma CompletedPlacement(registered: nat, moves: seq<Command>, command: Command)
    requires command.CompleteMove? && Waiting(moves).Some?
    ensures var m := PlacementIn(registered, moves).pending.value;
            PlacementIn(registered, moves + [command]) ==
            Placement(m.targetShard, m.nextGeneration, None, Some(command.operationId))
  {
    assert (moves + [command])[..|moves|] == moves;
  }

  /** A command leaves the definitions of the other types alone. */
  lemma OtherTypes(h: seq<Command>, hash: Hash, command: Command, ty: TypeId)
    requires command.ty != ty
    ensures Registration(h + [command], ty) == Registration(h, ty)
    ensures Registration(h, ty).Some? ==> DefinitionIn(h + [command], hash, ty) == DefinitionIn(h, hash, ty)
  {
    hide PlanInput, PlacementIn;
    ReadSnoc(h, command, ty);
    if Registration(h, ty).Some? {
      forall p: nat ensures Moves(h + [command], ty, p) == Moves(h, ty, p) { MovesSnoc(h, command, ty, p); }
      hide Registration, Activated, Moves;
      assert DefinitionIn(h + [command], hash, ty).placements == DefinitionIn(h, hash, ty).placements;
    }
  }

  /** Nothing has moved in a type that was not there. */
  lemma {:induction false} NoMovesYet(commands: seq<Command>, ty: TypeId)
    requires Registration(History(commands), ty).None?
    ensures !Activated(History(commands), ty) && forall p :: Moves(History(commands), ty, p) == []
    decreases |commands|
  {
    if commands != [] {
      var before, last := commands[..|commands| - 1], commands[|commands| - 1];
      var h := History(before);
      if Legal(h, last) {
        ReadSnoc(h, last, ty);
        NoMovesYet(before, ty);
        forall p: nat ensures Moves(h + [last], ty, p) == [] { MovesSnoc(h, last, ty, p); }
      } else {
        NoMovesYet(before, ty);
      }
    }
  }

  ghost predicate Unmoved(h: seq<Command>, ty: TypeId) {
    Registration(h, ty).None? ==> !Activated(h, ty) && forall p :: Moves(h, ty, p) == []
  }

  // ---------------------------------------------------------------- the four commands

  lemma CompleteIsPlacesAll(shards: map<nat, nat>)
    ensures Complete(shards) <==> PlacesAll(shards)
  {
    if Complete(shards) { CompleteIsAll(shards); }
    if PlacesAll(shards) {
      assert shards.Keys == Below(EVENT_PARTITION_COUNT);
      assert |shards| == |shards.Keys|;
    }
  }

  lemma CreatedDefinition(h: seq<Command>, hash: Hash, command: Command)
    requires command.Create? && Registration(h, command.ty).None? && Unmoved(h, command.ty)
    ensures Registration(h + [command], command.ty) == Some(command)
    ensures DefinitionIn(h + [command], hash, command.ty) ==
            NewDefinition(command.ty, command.operationId, command.seed, command.shards, hash)
  {
    hide PlanInput;
    var ty := command.ty;
    ReadSnoc(h, command, ty);
    forall p: nat ensures Moves(h + [command], ty, p) == [] { MovesSnoc(h, command, ty, p); }
    hide Registration, Activated, Moves;
  }

  lemma ActivatedDefinition(h: seq<Command>, hash: Hash, command: Command)
    requires command.Activate? && Registration(h, command.ty).Some?
    ensures Registration(h + [command], command.ty) == Registration(h, command.ty)
    ensures DefinitionIn(h + [command], hash, command.ty) == DefinitionIn(h, hash, command.ty).(status := Active)
  {
    hide PlanInput, PlacementIn;
    var ty := command.ty;
    ReadSnoc(h, command, ty);
    forall p: nat ensures Moves(h + [command], ty, p) == Moves(h, ty, p) { MovesSnoc(h, command, ty, p); }
    hide Registration, Activated, Moves;
  }

  lemma MovedDefinition(h: seq<Command>, hash: Hash, command: Command)
    requires (command.PrepareMove? || command.CompleteMove?) && Registration(h, command.ty).Some?
    requires command.partition in Registration(h, command.ty).value.shards
    ensures Registration(h + [command], command.ty) == Registration(h, command.ty)
    ensures var p := command.partition;
            var registered := Registration(h, command.ty).value.shards[p];
            DefinitionIn(h + [command], hash, command.ty) ==
            WithPlacement(DefinitionIn(h, hash, command.ty), p,
                          PlacementIn(registered, Moves(h, command.ty, p) + [command]))
  {
    hide PlanInput, PlacementIn;
    var ty := command.ty;
    ReadSnoc(h, command, ty);
    forall p: nat ensures Moves(h + [command], ty, p) ==
      if p == command.partition then Moves(h, ty, p) + [command] else Moves(h, ty, p) {
      MovesSnoc(h, command, ty, p);
    }
    hide Registration, Activated, Moves;
  }

  /** What a command the catalog accepts is answered, and what it leaves, is what the longer history says. */
  lemma AcceptedAnswer(c: Catalog, hash: Hash, h: seq<Command>, command: Command)
    requires Reflects(c, hash, h) && Unmoved(h, command.ty) && Legal(h, command)
    ensures Registration(h + [command], command.ty).Some?
    ensures Apply(c, hash, command) == Commit(c, command.ty, DefinitionIn(h + [command], hash, command.ty))
  {
    hide PlanInput, Registration, Activated, Moves, TypeId.Valid, Bump, Home, Completed, Waiting, LastDone;
    match command
    case Create(ty, _, _, shards) =>
      CompleteIsPlacesAll(shards);
      CreatedDefinition(h, hash, command);
      hide PlacesAll, Complete, NewDefinition, PlacementIn;
    case Activate(ty, _) =>
      ActivatedDefinition(h, hash, command);
      hide PlacesAll, PlacementIn;
    case PrepareMove(ty, p, _, _, _) =>
      MovedDefinition(h, hash, command);
      PreparedPlacement(Registration(h, ty).value.shards[p], Moves(h, ty, p), command);
      hide PlacesAll;
    case CompleteMove(ty, p, _) =>
      MovedDefinition(h, hash, command);
      CompletedPlacement(Registration(h, ty).value.shards[p], Moves(h, ty, p), command);
      hide PlacesAll;
  }

  lemma OwnRegistration(h: seq<Command>, command: Command)
    requires Legal(h, command)
    ensures var r := Registration(h + [command], command.ty);
            r.Some? ==> PlacesAll(r.value.shards) || r == Registration(h, command.ty)
  {
    ReadSnoc(h, command, command.ty);
    hide Registration, Activated, Moves, Home, Completed, Waiting, TypeId.Valid;
  }

  lemma AcceptedReflects(c: Catalog, hash: Hash, h: seq<Command>, command: Command)
    requires Reflects(c, hash, h) && Legal(h, command) && Registration(h + [command], command.ty).Some?
    ensures Reflects(Commit(c, command.ty, DefinitionIn(h + [command], hash, command.ty)).catalog, hash, h + [command])
  {
    hide DefinitionIn, Registration, Bump, PlacesAll, Legal;
    var ty, h' := command.ty, h + [command];
    OwnRegistration(h, command);
    NextRevision(|h|);
    var t := Commit(c, ty, DefinitionIn(h', hash, ty)).catalog;
    assert t.types == c.types[ty := DefinitionIn(h', hash, ty)] && t.revision == Bump(c.revision);
    forall ty' | ty' != ty
      ensures Registration(h', ty') == Registration(h, ty')
      ensures Registration(h', ty').Some? ==> DefinitionIn(h', hash, ty') == DefinitionIn(h, hash, ty')
    {
      OtherTypes(h, hash, command, ty');
    }
    hide Commit;
  }

  lemma NextRevision(n: nat)
    ensures Bump(n % (U64_MAX + 1)) == (n + 1) % (U64_MAX + 1)
  {
  }

  /** A command that is not accepted changes nothing and is answered as the history says. */
  lemma RefusedAnswer(c: Catalog, hash: Hash, h: seq<Command>, command: Command)
    requires Reflects(c, hash, h) && !Legal(h, command)
    ensures Apply(c, hash, command) == Applied(c, Told(h, hash, command))
  {
    hide PlanInput, Registration, Activated, Moves, TypeId.Valid, Bump, Home, Completed, LastDone, NewDefinition;
    match command
    case Create(ty, _, _, shards) =>
      CompleteIsPlacesAll(shards);
      hide PlacesAll, Complete, PlacementIn;
    case Activate(ty, _) =>
      hide PlacesAll, PlacementIn;
    case PrepareMove(ty, p, _, _, _) =>
      hide PlacesAll;
    case CompleteMove(ty, p, _) =>
      hide PlacesAll;
  }

  lemma LegalIsTold(h: seq<Command>, hash: Hash, command: Command)
    requires Legal(h, command) && Registration(h + [command], command.ty).Some?
    ensures Told(h, hash, command) == Answered(DefinitionIn(h + [command], hash, command.ty), true)
  {
    hide Registration, Activated, Moves, TypeId.Valid, Home, Completed, LastDone, DefinitionIn, PlacesAll;
  }

  lemma StepReflects(c: Catalog, hash: Hash, h: seq<Command>, command: Command)
    requires Reflects(c, hash, h) && Unmoved(h, command.ty)
    ensures Apply(c, hash, command).outcome == Told(h, hash, command)
    ensures Reflects(Apply(c, hash, command).catalog, hash, After(h, command))
  {
    hide Reflects, Legal, Told, Apply, DefinitionIn, Registration;
    if Legal(h, command) {
      AcceptedAnswer(c, hash, h, command);
      AcceptedReflects(c, hash, h, command);
      LegalIsTold(h, hash, command);
    } else {
      RefusedAnswer(c, hash, h, command);
    }
  }

  // ---------------------------------------------------------------- every run

  lemma {:induction false} RunSnoc(r: Run, hash: Hash, commands: seq<Command>, command: Command)
    ensures RunAll(r, hash, commands + [command]) == Step(RunAll(r, hash, commands), hash, command)
    decreases commands
  {
    hide Step;
    var all := commands + [command];
    if commands == [] {
      assert all[1..] == [];
    } else {
      assert all[0] == commands[0] && all[1..] == commands[1..] + [command];
      RunSnoc(Step(r, hash, commands[0]), hash, commands[1..], command);
    }
  }

  lemma EmptyReflects(hash: Hash)
    ensures Reflects(EMPTY, hash, [])
  {
  }

  /**
   * A catalog is its history. After any run from the empty catalog it holds, for every registered type, what its
   * accepted commands say: a partition is where its last completed move wanted to go, or where it was registered if
   * none was completed; a prepare that waits names that place and the next generation; and the next command, whatever
   * it is, is answered as the history alone tells.
   */
  lemma {:induction false} CatalogIsHistory(hash: Hash, commands: seq<Command>)
    ensures Reflects(RunAll(Run(EMPTY, []), hash, commands).catalog, hash, History(commands))
    ensures forall next: Command ::
              Apply(RunAll(Run(EMPTY, []), hash, commands).catalog, hash, next).outcome ==
              Told(History(commands), hash, next)
    decreases |commands|
  {
    hide Reflects, After, Told, Apply, Step;
    if commands == [] {
      EmptyReflects(hash);
    } else {
      var before, last := commands[..|commands| - 1], commands[|commands| - 1];
      assert commands == before + [last];
      CatalogIsHistory(hash, before);
      RunSnoc(Run(EMPTY, []), hash, before, last);
      var r := RunAll(Run(EMPTY, []), hash, before);
      AllUnmoved(before, last.ty);
      StepReflects(r.catalog, hash, History(before), last);
      StepIs(r, hash, last);
    }
    forall next: Command
      ensures Apply(RunAll(Run(EMPTY, []), hash, commands).catalog, hash, next).outcome ==
              Told(History(commands), hash, next)
    {
      AllUnmoved(commands, next.ty);
      StepReflects(RunAll(Run(EMPTY, []), hash, commands).catalog, hash, History(commands), next);
    }
  }

  lemma StepIs(r: Run, hash: Hash, command: Command)
    ensures Step(r, hash, command).catalog == Apply(r.catalog, hash, command).catalog
  {
    hide Apply, CompletedBy;
  }

  lemma AllUnmoved(commands: seq<Command>, ty: TypeId)
    ensures Unmoved(History(commands), ty)
  {
    if Registration(History(commands), ty).None? { NoMovesYet(commands, ty); }
  }

  // ---------------------------------------------------------------- what follows for moves

  /** The shard and the generation a catalog reached by these commands has for a partition. */
  function PlacedBy(hash: Hash, commands: seq<Command>, ty: TypeId, p: nat): Option<Placement> {
    var c := RunAll(Run(EMPTY, []), hash, commands).catalog;
    if ty in c.types && p in c.types[ty].placements then Some(c.types[ty].placements[p]) else None
  }

  lemma PlacedAsHistory(hash: Hash, commands: seq<Command>, ty: TypeId, p: nat)
    ensures var h := History(commands);
            PlacedBy(hash, commands, ty, p) ==
            if Registration(h, ty).Some? && p in Registration(h, ty).value.shards
            then Some(PlacementIn(Registration(h, ty).value.shards[p], Moves(h, ty, p))) else None
  {
    CatalogIsHistory(hash, commands);
    hide RunAll, Registration, Moves, PlacementIn, Told, History, PlanInput;
  }

  /** A completion that is answered as a change takes the partition to where its prepare wanted it, one generation on. */
  lemma CompletionMoves(hash: Hash, commands: seq<Command>, command: Command)
    requires command.CompleteMove? && Legal(History(commands), command)
    ensures var before := PlacedBy(hash, commands, command.ty, command.partition);
            var after := PlacedBy(hash, commands + [command], command.ty, command.partition);
            && before.Some? && before.value.pending.Some? && after.Some?
            && after.value == Placement(before.value.pending.value.targetShard, before.value.generation + 1, None,
                                        Some(command.operationId))
  {
    var ty, p, h := command.ty, command.partition, History(commands);
    assert (commands + [command])[..|commands|] == commands;
    PlacedAsHistory(hash, commands, ty, p);
    PlacedAsHistory(hash, commands + [command], ty, p);
    ReadSnoc(h, command, ty);
    MovesSnoc(h, command, ty, p);
    hide PlacedBy, Registration, Moves, History;
    CompletedPlacement(Registration(h, ty).value.shards[p], Moves(h, ty, p), command);
  }

  /** Whatever a command is answered, it changes no placement but the one it names, and no shard but by a completion. */
  lemma OnlyOwnPlacement(hash: Hash, commands: seq<Command>, command: Command, ty: TypeId, p: nat)
    requires PlacedBy(hash, commands, ty, p).Some?
    ensures var before := PlacedBy(hash, commands, ty, p);
            var after := PlacedBy(hash, commands + [command], ty, p);
            && after.Some?
            && (!Concerns(command, ty, p) ==> after == before)
            && (!command.CompleteMove? ==> after.value.shard == before.value.shard)
  {
    var h := History(commands);
    assert (commands + [command])[..|commands|] == commands;
    PlacedAsHistory(hash, commands, ty, p);
    PlacedAsHistory(hash, commands + [command], ty, p);
    ReadSnoc(h, command, ty);
    MovesSnoc(h, command, ty, p);
    hide PlacedBy, Registration, Moves, History;
    if Legal(h, command) && command.PrepareMove? && Concerns(command, ty, p) {
      PreparedPlacement(Registration(h, ty).value.shards[p], Moves(h, ty, p), command);
    }
  }
}
