/**
 * The control shard's catalog of aggregate types: registration, activation and the two-phase move of a
 * virtual partition to another shard. The hash is a parameter: nothing here depends on its values.
 */
module AggregateCatalog {
  import opened Base
  import opened Lexicographic
  import opened Aggregate

  type Hash = Bytes -> nat

  datatype Status = Registering | Active

  datatype Move = Move(operationId: Uuid, sourceShard: nat, targetShard: nat, nextGeneration: nat)

  datatype Placement = Placement(shard: nat, generation: nat, pending: Option<Move>, lastCompleted: Option<Uuid>)

  datatype Definition = Definition(
    id: TypeId,
    createOperationId: Uuid,
    createPlan: nat,
    seed: Bytes,
    partitionCount: nat,
    status: Status,
    placements: map<nat, Placement>)

  datatype Catalog = Catalog(revision: nat, types: map<TypeId, Definition>)

  datatype Command =
    | Create(ty: TypeId, operationId: Uuid, seed: Bytes, shards: map<nat, nat>)
    | Activate(ty: TypeId, operationId: Uuid)
    | PrepareMove(ty: TypeId, partition: nat, expectedGeneration: nat, target: nat, operationId: Uuid)
    | CompleteMove(ty: TypeId, partition: nat, operationId: Uuid)

  datatype Outcome =
    | Answered(definition: Definition, changed: bool)
    | NotFound
    | Conflict
    | Invalid

  datatype Applied = Applied(catalog: Catalog, outcome: Outcome)

  const EMPTY: Catalog := Catalog(0, map[])

  /** The bytes hashed into a registration's plan fingerprint. */
  function PlanInput(seed: Bytes, shards: map<nat, nat>): Bytes {
    seed + BE(|shards|, 8) + PlanEntries(Ascending(shards.Keys), shards)
  }

  function PlanEntries(partitions: seq<nat>, shards: map<nat, nat>): Bytes
    requires forall p :: p in partitions ==> p in shards
  {
    if partitions == [] then []
    else BE(partitions[0], 2) + BE(shards[partitions[0]], 8) + PlanEntries(partitions[1..], shards)
  }

  predicate Complete(shards: map<nat, nat>) {
    |shards| == EVENT_PARTITION_COUNT && forall p :: 0 <= p < EVENT_PARTITION_COUNT ==> p in shards
  }

  function NewDefinition(ty: TypeId, operationId: Uuid, seed: Bytes, shards: map<nat, nat>, hash: Hash): Definition {
    Definition(ty, operationId, hash(PlanInput(seed, shards)), seed, EVENT_PARTITION_COUNT, Registering,
               map p | p in shards :: Placement(shards[p], 1, None, None))
  }

  /** `self.revision += 1` on a `u64`, wrapping as a release build does. */
  function Bump(revision: nat): nat {
    (revision + 1) % (U64_MAX + 1)
  }

  /** Store a changed definition and raise the revision. */
  function Commit(c: Catalog, ty: TypeId, d: Definition): Applied {
    Applied(Catalog(Bump(c.revision), c.types[ty := d]), Answered(d, true))
  }

  function ApplyCreate(c: Catalog, hash: Hash, ty: TypeId, operationId: Uuid, seed: Bytes, shards: map<nat,
                       nat>): Applied {
    if !ty.Valid() then Applied(c, Invalid)
    else if ty in c.types then
      var existing := c.types[ty];
      if existing.createOperationId == operationId && existing.createPlan == hash(PlanInput(seed, shards)) then
        Applied(c, Answered(existing, false))
      else
        Applied(c, Conflict)
    else if !Complete(shards) then Applied(c, Invalid)
    else Commit(c, ty, NewDefinition(ty, operationId, seed, shards, hash))
  }

  function ApplyActivate(c: Catalog, ty: TypeId, operationId: Uuid): Applied {
    if ty !in c.types then Applied(c, NotFound)
    else
      var d := c.types[ty];
      if d.createOperationId != operationId then Applied(c, Conflict)
      else if d.status == Active then Applied(c, Answered(d, false))
      else Commit(c, ty, d.(status := Active))
  }

  function WithPlacement(d: Definition, partition: nat, p: Placement): Definition {
    d.(placements := d.placements[partition := p])
  }

  function ApplyPrepareMove(c: Catalog, ty: TypeId, partition: nat, expectedGeneration: nat, target: nat,
                            operationId: Uuid): Applied {
    if ty !in c.types then Applied(c, NotFound)
    else
      var d := c.types[ty];
      if d.status != Active || partition !in d.placements then Applied(c, Invalid)
      else
        var p := d.placements[partition];
        if p.pending.Some? then
          var m := p.pending.value;
          if m.operationId == operationId && m.targetShard == target && m.sourceShard == p.shard then
            Applied(c, Answered(d, false))
          else
            Applied(c, Conflict)
        else if p.generation != expectedGeneration then Applied(c, Conflict)
        else if p.shard == target || p.generation + 1 > U64_MAX then Applied(c, Invalid)
        else
          Commit(c, ty, WithPlacement(d, partition, p.(pending := Some(Move(operationId, p.shard, target,
              p.generation + 1)))))
  }

  function ApplyCompleteMove(c: Catalog, ty: TypeId, partition: nat, operationId: Uuid): Applied {
    if ty !in c.types then Applied(c, NotFound)
    else
      var d := c.types[ty];
      if partition !in d.placements then Applied(c, Invalid)
      else
        var p := d.placements[partition];
        if p.pending.None? then
          Applied(c, if p.lastCompleted == Some(operationId) then Answered(d, false) else Conflict)
        else if p.pending.value.operationId != operationId then Applied(c, Conflict)
        else
          var m := p.pending.value;
          Commit(c, ty, WithPlacement(d, partition, Placement(m.targetShard, m.nextGeneration, None,
                                                              Some(operationId))))
  }

  function Apply(c: Catalog, hash: Hash, command: Command): Applied {
    match command
    case Create(ty, operationId, seed, shards) => ApplyCreate(c, hash, ty, operationId, seed, shards)
    case Activate(ty, operationId) => ApplyActivate(c, ty, operationId)
    case PrepareMove(ty, partition, expectedGeneration, target, operationId) =>
      ApplyPrepareMove(c, ty, partition, expectedGeneration, target, operationId)
    case CompleteMove(ty, partition, operationId) => ApplyCompleteMove(c, ty, partition, operationId)
  }

  // ---------------------------------------------------------------- one command

  lemma BumpMoves(revision: nat)
    ensures Bump(revision) != revision
    ensures revision < U64_MAX ==> Bump(revision) == revision + 1
    ensures revision == U64_MAX ==> Bump(revision) == 0
  {
  }

  /**
   * The catalog changes exactly when the command says so, and then its revision moves: up by one, and from the top
   * to zero.
   */
  lemma ChangeIsRevision(c: Catalog, hash: Hash, command: Command)
    ensures var r := Apply(c, hash, command);
            var changed := r.outcome.Answered? && r.outcome.changed;
            && (r.catalog != c <==> changed) && (r.catalog.revision != c.revision <==> changed)
            && (changed && c.revision < U64_MAX ==> r.catalog.revision == c.revision + 1)
            && (changed && c.revision == U64_MAX ==> r.catalog.revision == 0)
  {
    BumpMoves(c.revision);
    hide Bump, PlanInput, WithPlacement, NewDefinition, Complete;
  }

  /** A command that is not reported as a change leaves the catalog as it was, at every revision. */
  lemma NoChangeNoEffect(c: Catalog, hash: Hash, command: Command)
    ensures var r := Apply(c, hash, command);
            !(r.outcome.Answered? && r.outcome.changed) ==> r.catalog == c
  {
    hide Bump, PlanInput, WithPlacement, NewDefinition, Complete;
  }

  /** Retrying a command that changed the catalog answers with the same definition and changes nothing more. */
  lemma RetryIsIdempotent(c: Catalog, hash: Hash, command: Command)
    requires CatalogOk(c)
    requires var o := Apply(c, hash, command).outcome; o.Answered? && o.changed
    ensures var once := Apply(c, hash, command);
            Apply(once.catalog, hash, command) == Applied(once.catalog, Answered(once.outcome.definition, false))
  {
    hide Bump, PlanInput, Complete;
  }

  // ---------------------------------------------------------------- over runs

  /** A placement never names its own shard as a move target and moves to the next generation. */
  predicate PlacementOk(p: Placement) {
    && 1 <= p.generation <= U64_MAX
    && (p.pending.Some? ==>
          && p.pending.value.sourceShard == p.shard
          && p.pending.value.targetShard != p.shard
          && p.pending.value.nextGeneration == p.generation + 1 <= U64_MAX)
  }

  /** Exactly partitions 0 to 255 are placed, and only an active type has moves. */
  ghost predicate DefinitionOk(d: Definition) {
    && d.id.Valid()
    && d.partitionCount == EVENT_PARTITION_COUNT
    && (forall p :: p in d.placements <==> 0 <= p < EVENT_PARTITION_COUNT)
    && (forall p :: p in d.placements ==> PlacementOk(d.placements[p]))
    && (d.status == Registering ==> forall p :: p in d.placements ==> d.placements[p].pending.None? && d.placements[p].generation == 1)
  }

  ghost predicate CatalogOk(c: Catalog) {
    forall ty :: ty in c.types ==> c.types[ty].id == ty && DefinitionOk(c.types[ty])
  }

  datatype Completion = Completion(ty: TypeId, partition: nat)

  /** The move a command completed, if it did. */
  function CompletedBy(c: Catalog, hash: Hash, command: Command): seq<Completion> {
    var o := Apply(c, hash, command).outcome;
    if command.CompleteMove? && o.Answered? && o.changed then [Completion(command.ty, command.partition)] else []
  }

  /** A catalog with the moves completed so far. */
  datatype Run = Run(catalog: Catalog, completed: seq<Completion>)

  function Step(r: Run, hash: Hash, command: Command): Run {
    Run(Apply(r.catalog, hash, command).catalog, r.completed + CompletedBy(r.catalog, hash, command))
  }

  function RunAll(r: Run, hash: Hash, commands: seq<Command>): Run
    decreases commands
  {
    if commands == [] then r else RunAll(Step(r, hash, commands[0]), hash, commands[1..])
  }

  function Completions(completed: seq<Completion>, ty: TypeId, p: nat): nat {
    multiset(completed)[Completion(ty, p)]
  }

  /** Every generation is one plus the number of completed moves of its partition. */
  ghost predicate Counted(r: Run) {
    && (forall ty, p :: ty in r.catalog.types && p in r.catalog.types[ty].placements ==>
          r.catalog.types[ty].placements[p].generation == 1 + Completions(r.completed, ty, p))
    && (forall ty, p: nat :: ty !in r.catalog.types ==> Completions(r.completed, ty, p) == 0)
  }

  ghost predicate RunOk(r: Run) {
    CatalogOk(r.catalog) && Counted(r)
  }

  // ---------------------------------------------------------------- registration

  /** The numbers below `n`. */
  function Below(n: nat): (r: set<nat>)
    ensures forall p :: p in r <==> 0 <= p < n
    ensures |r| == n
  {
    if n == 0 then {} else Below(n - 1) + {n - 1}
  }

  lemma SameSizeSubset(a: set<nat>, b: set<nat>)
    requires a <= b && |a| == |b|
    ensures a == b
  {
    assert b == a + (b - a);
  }

  lemma CompleteIsAll(shards: map<nat, nat>)
    requires Complete(shards)
    ensures forall p :: p in shards <==> 0 <= p < EVENT_PARTITION_COUNT
  {
    SameSizeSubset(Below(EVENT_PARTITION_COUNT), shards.Keys);
    assert forall p :: p in Below(EVENT_PARTITION_COUNT) <==> p in shards;
  }

  lemma NewDefinitionOk(ty: TypeId, operationId: Uuid, seed: Bytes, shards: map<nat, nat>, hash: Hash)
    requires ty.Valid() && Complete(shards)
    ensures DefinitionOk(NewDefinition(ty, operationId, seed, shards, hash))
  {
    hide PlanInput, Complete, TypeId.Valid, PlacementOk;
    CompleteIsAll(shards);
    forall p | p in shards ensures PlacementOk(Placement(shards[p], 1, None, None)) {
      FirstPlacementOk(shards[p]);
    }
  }

  lemma FirstPlacementOk(shard: nat)
    ensures PlacementOk(Placement(shard, 1, None, None))
  {
  }

  // ---------------------------------------------------------------- steps keep the invariant

  lemma CommitOk(c: Catalog, ty: TypeId, d: Definition)
    requires CatalogOk(c) && d.id == ty && DefinitionOk(d)
    ensures CatalogOk(Commit(c, ty, d).catalog)
  {
    hide DefinitionOk, Bump;
  }

  lemma PlacementReplaced(d: Definition, partition: nat, p: Placement)
    requires DefinitionOk(d) && partition in d.placements && PlacementOk(p) && d.status == Active
    ensures DefinitionOk(WithPlacement(d, partition, p))
  {
    hide TypeId.Valid;
  }

  lemma ApplyOk(c: Catalog, hash: Hash, command: Command)
    requires CatalogOk(c)
    ensures CatalogOk(Apply(c, hash, command).catalog)
  {
    hide PlanInput, NewDefinition, Complete, TypeId.Valid, WithPlacement, Commit;
    var ty := command.ty;
    var o := Apply(c, hash, command).outcome;
    NoChangeNoEffect(c, hash, command);
    if !(o.Answered? && o.changed) { return; }
    AnsweredOk(c, hash, command);
    CommitOk(c, ty, o.definition);
    CommittedBy(c, hash, command);
  }

  lemma CommittedBy(c: Catalog, hash: Hash, command: Command)
    requires var o := Apply(c, hash, command).outcome; o.Answered? && o.changed
    ensures var r := Apply(c, hash, command);
            r.catalog == Commit(c, command.ty, r.outcome.definition).catalog
  {
    hide PlanInput, NewDefinition, Complete, TypeId.Valid, WithPlacement, Bump;
  }

  lemma AnsweredOk(c: Catalog, hash: Hash, command: Command)
    requires CatalogOk(c)
    requires var o := Apply(c, hash, command).outcome; o.Answered? && o.changed
    ensures var d := Apply(c, hash, command).outcome.definition;
            d.id == command.ty && DefinitionOk(d)
  {
    match command
    case Create(ty, operationId, seed, shards) =>
      NewDefinitionOk(ty, operationId, seed, shards, hash);
    case Activate(ty, operationId) =>
      assert DefinitionOk(c.types[ty]);
    case PrepareMove(ty, partition, _, target, operationId) =>
      var p := c.types[ty].placements[partition];
      PlacementReplaced(c.types[ty], partition, p.(pending := Some(Move(operationId, p.shard, target,
          p.generation + 1))));
    case CompleteMove(ty, partition, operationId) =>
      var m := c.types[ty].placements[partition].pending.value;
      assert c.types[ty].status == Active;
      PlacementReplaced(c.types[ty], partition, Placement(m.targetShard, m.nextGeneration, None, Some(operationId)));
  }

  lemma CompletionsSnoc(completed: seq<Completion>, o: Completion, ty: TypeId, p: nat)
    ensures Completions(completed + [o], ty, p) ==
            Completions(completed, ty, p) + (if o == Completion(ty, p) then 1 else 0)
  {
    assert multiset(completed + [o]) == multiset(completed) + multiset{o};
  }

  /** What a changing command does to generations: only a completed move raises one, by one. */
  lemma GenerationsAfter(c: Catalog, hash: Hash, command: Command, ty: TypeId, p: nat)
    requires CatalogOk(c)
    requires var t := Apply(c, hash, command).catalog; ty in t.types && p in t.types[ty].placements
    ensures var t := Apply(c, hash, command).catalog;
            t.types[ty].placements[p].generation ==
            (if ty in c.types && p in c.types[ty].placements then c.types[ty].placements[p].generation else 1)
            + (if CompletedBy(c, hash, command) == [Completion(ty, p)] then 1 else 0)
    ensures ty in c.types ==> p in c.types[ty].placements
  {
    hide PlanInput, Complete, TypeId.Valid, Bump;
    if ty in c.types {
      assert DefinitionOk(c.types[ty]);
      ApplyOk(c, hash, command);
      assert DefinitionOk(Apply(c, hash, command).catalog.types[ty]);
      hide DefinitionOk;
    }
  }

  lemma TypesKept(c: Catalog, hash: Hash, command: Command)
    ensures var t := Apply(c, hash, command).catalog;
            && c.types.Keys <= t.types.Keys
            && (CompletedBy(c, hash, command) != [] ==>
                command.ty in c.types && CompletedBy(c, hash, command) == [Completion(command.ty, command.partition)])
  {
    hide PlanInput, Complete, TypeId.Valid, Bump, NewDefinition, WithPlacement;
  }

  lemma CompletionsAfter(r: Run, hash: Hash, command: Command, ty: TypeId, p: nat)
    ensures Completions(Step(r, hash, command).completed, ty, p)
            == Completions(r.completed, ty, p) + (if CompletedBy(r.catalog, hash,
                                                                 command) == [Completion(ty, p)] then 1 else 0)
  {
    TypesKept(r.catalog, hash, command);
    var done := CompletedBy(r.catalog, hash, command);
    hide CompletedBy, Completions;
    if done == [] {
      assert r.completed + [] == r.completed;
    } else {
      assert done == [done[0]];
      CompletionsSnoc(r.completed, done[0], ty, p);
    }
  }

  lemma StepCounted(r: Run, hash: Hash, command: Command)
    requires RunOk(r)
    ensures Counted(Step(r, hash, command))
  {
    var t := Step(r, hash, command);
    TypesKept(r.catalog, hash, command);
    forall ty, p | ty in t.catalog.types && p in t.catalog.types[ty].placements
      ensures t.catalog.types[ty].placements[p].generation == 1 + Completions(t.completed, ty, p)
    {
      GenerationsAfter(r.catalog, hash, command, ty, p);
      CompletionsAfter(r, hash, command, ty, p);
      hide Apply, CompletedBy, Completions, CatalogOk;
    }
    forall ty, p: nat | ty !in t.catalog.types ensures Completions(t.completed, ty, p) == 0 {
      CompletionsAfter(r, hash, command, ty, p);
      hide Apply, Completions, CatalogOk;
    }
  }

  /**
   * In every catalog reached from the empty one, each type places exactly partitions 0 to 255, a pending
   * move leaves the current shard for another one at the next generation, and a generation is one plus
   * the number of moves completed for its partition.
   */
  lemma {:induction false} MovesOverRuns(r: Run, hash: Hash, commands: seq<Command>)
    requires RunOk(r)
    ensures RunOk(RunAll(r, hash, commands))
    decreases commands
  {
    if commands != [] {
      ApplyOk(r.catalog, hash, commands[0]);
      StepCounted(r, hash, commands[0]);
      hide CatalogOk, Counted, Apply, CompletedBy;
      MovesOverRuns(Step(r, hash, commands[0]), hash, commands[1..]);
    }
  }

  lemma EmptyOk()
    ensures RunOk(Run(EMPTY, []))
  {
  }

  // ---------------------------------------------------------------- the plan of a registration

  /** A plan whose numbers have their widths. */
  ghost predicate PlanFits(shards: map<nat, nat>) {
    |shards| <= U64_MAX && forall p :: p in shards ==> p <= U16_MAX && shards[p] <= U64_MAX
  }

  lemma SplitBE(a: nat, b: nat, width: nat, x: Bytes, y: Bytes)
    requires a < Pow256(width) && b < Pow256(width) && BE(a, width) + x == BE(b, width) + y
    ensures a == b && x == y
  {
    var l := BE(a, width) + x;
    assert l[..width] == BE(a, width) && l[..width] == BE(b, width);
    assert l[width..] == x && l[width..] == y;
    BEInjective(a, b, width);
  }

  lemma {:induction false} PlanEntriesInjective(ps: seq<nat>, qs: seq<nat>, a: map<nat, nat>, b: map<nat, nat>)
    requires forall p :: p in ps ==> p in a && p <= U16_MAX && a[p] <= U64_MAX
    requires forall p :: p in qs ==> p in b && p <= U16_MAX && b[p] <= U64_MAX
    requires |ps| == |qs| && PlanEntries(ps, a) == PlanEntries(qs, b)
    ensures ps == qs && forall p :: p in ps ==> a[p] == b[p]
    decreases |ps|
  {
    if ps != [] {
      var p, q := ps[0], qs[0];
      var x, y := PlanEntries(ps[1..], a), PlanEntries(qs[1..], b);
      Assoc(BE(p, 2), BE(a[p], 8), x);
      Assoc(BE(q, 2), BE(b[q], 8), y);
      Pow256Widths();
      SplitBE(p, q, 2, BE(a[p], 8) + x, BE(b[q], 8) + y);
      SplitBE(a[p], b[q], 8, x, y);
      PlanEntriesInjective(ps[1..], qs[1..], a, b);
      assert ps == [p] + ps[1..] && qs == [q] + qs[1..];
    }
  }

  /** The bytes hashed for a registration determine its seed and its placements. */
  lemma PlanInputInjective(seed: Bytes, shards: map<nat, nat>, seed': Bytes, shards': map<nat, nat>)
    requires |seed| == |seed'| == 16 && PlanFits(shards) && PlanFits(shards')
    requires PlanInput(seed, shards) == PlanInput(seed', shards')
    ensures seed == seed' && shards == shards'
  {
    hide BE, PlanEntries, Ascending;
    var x, y := PlanEntries(Ascending(shards.Keys), shards), PlanEntries(Ascending(shards'.Keys), shards');
    SplitSeed(seed, seed', BE(|shards|, 8), x, BE(|shards'|, 8), y);
    Pow256Widths();
    SplitBE(|shards|, |shards'|, 8, x, y);
    SamePlan(shards, shards');
  }

  lemma SplitSeed(seed: Bytes, seed': Bytes, a: Bytes, x: Bytes, b: Bytes, y: Bytes)
    requires |seed| == |seed'| && seed + a + x == seed' + b + y
    ensures seed == seed' && a + x == b + y
  {
    Assoc(seed, a, x);
    Assoc(seed', b, y);
    var l := seed + (a + x);
    assert l[..|seed|] == seed && l[..|seed|] == seed';
    assert l[|seed|..] == a + x && l[|seed|..] == b + y;
  }

  lemma SamePlan(a: map<nat, nat>, b: map<nat, nat>)
    requires PlanFits(a) && PlanFits(b) && |a| == |b|
    requires PlanEntries(Ascending(a.Keys), a) == PlanEntries(Ascending(b.Keys), b)
    ensures a == b
  {
    hide *;
    var ps, qs := Ascending(a.Keys), Ascending(b.Keys);
    PlanKeys(a);
    PlanKeys(b);
    PlanEntriesInjective(ps, qs, a, b);
    SameMaps(a, b, ps);
  }

  lemma PlanKeys(a: map<nat, nat>)
    requires PlanFits(a)
    ensures |Ascending(a.Keys)| == |a| && (forall p: nat :: p in Ascending(a.Keys) <==> p in a)
    ensures forall p :: p in Ascending(a.Keys) ==> p in a && p <= U16_MAX && a[p] <= U64_MAX
  {
    assert |a.Keys| == |a|;
  }

  lemma SameMaps(a: map<nat, nat>, b: map<nat, nat>, keys: seq<nat>)
    requires forall p: nat :: p in keys <==> p in a
    requires forall p: nat :: p in keys <==> p in b
    requires forall p :: p in keys ==> a[p] == b[p]
    ensures a == b
  {
  }

  // ---------------------------------------------------------------- the object

  class AggregateCatalog {
    var revision: nat
    var types: map<TypeId, Definition>

    function View(): Catalog
      reads this
    {
      Catalog(revision, types)
    }

    /** The stored catalog, read back. */
    constructor Load(catalog: Catalog)
      ensures View() == catalog
    {
      revision, types := catalog.revision, catalog.types;
    }

    /** Apply a command in place; a refused command leaves the object as it was. */
    method ApplyCommand(hash: Hash, command: Command) returns (outcome: Outcome)
      modifies this
      ensures Applied(View(), outcome) == Apply(old(View()), hash, command)
    {
      hide PlanInput, Complete, TypeId.Valid;
      match command {
        case Create(ty, operationId, seed, shards) =>
          if !ty.Valid() { return Invalid; }
          if ty in types {
            var existing := types[ty];
            if existing.createOperationId == operationId && existing.createPlan == hash(PlanInput(seed, shards)) {
              return Answered(existing, false);
            }
            return Conflict;
          }
          if !Complete(shards) { return Invalid; }
          var created := NewDefinition(ty, operationId, seed, shards, hash);
          revision := Bump(revision);
          types := types[ty := created];
          outcome := Answered(created, true);
        case Activate(ty, operationId) =>
          if ty !in types { return NotFound; }
          var d := types[ty];
          if d.createOperationId != operationId { return Conflict; }
          if d.status == Active { return Answered(d, false); }
          types := types[ty := d.(status := Active)];
          revision := Bump(revision);
          outcome := Answered(types[ty], true);
        case PrepareMove(ty, partition, expectedGeneration, target, operationId) =>
          outcome := Prepare(ty, partition, expectedGeneration, target, operationId);
        case CompleteMove(ty, partition, operationId) =>
          outcome := CompletePending(ty, partition, operationId);
      }
    }

    method Prepare(ty: TypeId, partition: nat, expectedGeneration: nat, target: nat,
                   operationId: Uuid) returns (outcome: Outcome)
      modifies this
      ensures Applied(View(), outcome) == ApplyPrepareMove(old(View()), ty, partition, expectedGeneration, target,
                                                           operationId)
    {
      if ty !in types { return NotFound; }
      var d := types[ty];
      if d.status != Active { return Invalid; }
      if partition !in d.placements { return Invalid; }
      var p := d.placements[partition];
      if p.pending.Some? {
        var m := p.pending.value;
        if m.operationId == operationId && m.targetShard == target && m.sourceShard == p.shard {
          return Answered(d, false);
        }
        return Conflict;
      }
      if p.generation != expectedGeneration { return Conflict; }
      if p.shard == target { return Invalid; }
      if p.generation + 1 > U64_MAX { return Invalid; }
      d := WithPlacement(d, partition, p.(pending := Some(Move(operationId, p.shard, target, p.generation + 1))));
      types := types[ty := d];
      revision := Bump(revision);
      outcome := Answered(d, true);
    }

    method CompletePending(ty: TypeId, partition: nat, operationId: Uuid) returns (outcome: Outcome)
      modifies this
      ensures Applied(View(), outcome) == ApplyCompleteMove(old(View()), ty, partition, operationId)
    {
      if ty !in types { return NotFound; }
      var d := types[ty];
      if partition !in d.placements { return Invalid; }
      var p := d.placements[partition];
      if p.pending.None? {
        if p.lastCompleted == Some(operationId) { return Answered(d, false); }
        return Conflict;
      }
      var m := p.pending.value;
      if m.operationId != operationId { return Conflict; }
      d := WithPlacement(d, partition, Placement(m.targetShard, m.nextGeneration, None, Some(operationId)));
      types := types[ty := d];
      revision := Bump(revision);
      outcome := Answered(d, true);
    }
  }
}
