/**
 * The replicated state machine, one entry at a time: what a committed entry reads, writes, answers and
 * announces. This is the reference the batched apply is proved against.
 */
module StateMachine {
  import opened Base
  import opened Aggregate
  import opened Keys
  import Group = AggregateGroup
  import Catalogs = AggregateCatalog
  import GroupCatalog

  datatype LogId = LogId(term: nat, node: nat, index: nat)

  datatype Membership = Membership(logId: Option<LogId>, config: Bytes)

  const NO_MEMBERSHIP: Membership := Membership(None, [])

  /** A value as its key family stores it. */
  datatype Value =
    | EventValue(event: StoredEvent)
    | Pointer(aggregateId: Text, version: nat)
    | Meta(version: nat)
    | Position(next: nat)
    | StateValue(state: AggregateState)
    | ModifiedAt(hlc: Hlc)
    | Record(fingerprint: nat, version: nat, position: nat)
    | Fence(generation: nat)
    | CatalogValue(catalog: Catalogs.Catalog)
    | GroupCatalogValue(groups: GroupCatalog.Groups)
    | Progress(partition: Group.Partition)
    | Applied(lastApplied: Option<LogId>, membership: Membership)

  /** The state-machine keys of one shard. */
  type Store = map<Key, Value>

  datatype Request =
    | Append(ty: TypeId, partition: nat, generation: nat, aggregateId: Text, expected: ExpectedVersion,
             event: NewEvent, hlc: Hlc)
    | PutState(ty: TypeId, partition: nat, generation: nat, aggregateId: Text, revision: ExpectedRevision,
               data: Bytes, hlc: Hlc)
    | InstallFence(ty: TypeId, partition: nat, generation: nat)
    | CommitCatalog(catalogCommand: Catalogs.Command)
    | CommitGroupCatalog(groupCommand: GroupCatalog.Command)
    | GroupPartition(ty: TypeId, partition: nat, generation: nat, group: Text, groupEpoch: nat, start: nat,
                     settings: Group.Settings, command: Group.Command)

  datatype Response =
    | Noop
    | AppendOk(version: nat, position: nat)
    | OptimisticConflict(actual: Option<nat>)
    | IdempotencyConflict
    | AggregateNotFound
    | StateStored(state: AggregateState, hlc: Hlc)
    | StateConflict(actualRevision: Option<nat>)
    | FenceInstalled(generation: nat)
    | Fenced(current: nat)
    | CatalogApplied(revision: nat, catalogOutcome: Catalogs.Outcome)
    | GroupCatalogApplied(revision: nat, groupOutcome: GroupCatalog.Outcome)
    | GroupReply(reply: Group.Reply)
    | StaleEpoch(currentEpoch: nat)
    | Invalid

  // ---------------------------------------------------------------- reads

  function VersionOf(s: Store, ty: TypeId, partition: nat, aggregateId: Text): Option<nat> {
    var k := MetaKey(ty, partition, aggregateId);
    if k in s && s[k].Meta? then Some(s[k].version) else None
  }

  function StateOf(s: Store, ty: TypeId, partition: nat, aggregateId: Text): Option<AggregateState> {
    var k := StateKey(ty, partition, aggregateId);
    if k in s && s[k].StateValue? then Some(s[k].state) else None
  }

  function NextOf(s: Store, ty: TypeId, partition: nat): nat {
    var k := NextPositionKey(ty, partition);
    if k in s && s[k].Position? then s[k].next else 0
  }

  function FenceOf(s: Store, ty: TypeId, partition: nat): nat {
    var k := FenceKey(ty, partition);
    if k in s && s[k].Fence? then s[k].generation else 0
  }

  function RecordOf(s: Store, ty: TypeId, partition: nat, eventId: Uuid): Option<Value> {
    var k := IdempotencyKey(ty, partition, eventId);
    if k in s && s[k].Record? then Some(s[k]) else None
  }

  function CatalogOf(s: Store): Catalogs.Catalog {
    if CatalogKey in s && s[CatalogKey].CatalogValue? then s[CatalogKey].catalog else Catalogs.EMPTY
  }

  function GroupsOf(s: Store): GroupCatalog.Groups {
    if GroupCatalogKey in s && s[GroupCatalogKey].GroupCatalogValue? then s[GroupCatalogKey].groups else GroupCatalog.EMPTY
  }

  function ProgressOf(s: Store, ty: TypeId, partition: nat, group: Text): Option<Group.Partition> {
    var k := GroupPartitionKey(ty, partition, group);
    if k in s && s[k].Progress? then Some(s[k].partition) else None
  }

  // ---------------------------------------------------------------- one request

  /** What a request decides: the keys it writes, its answer, and the events it announces. */
  datatype Decision = Decision(puts: map<Key, Value>, response: Response, events: seq<StoredEvent>)

  function Answer(response: Response): Decision {
    Decision(map[], response, [])
  }

  function Fingerprint(hash: Catalogs.Hash, ty: TypeId, aggregateId: Text, expected: ExpectedVersion,
                       event: NewEvent): nat {
    hash(FingerprintInput(ty, aggregateId, expected, event))
  }

  function NextVersion(current: Option<nat>): nat {
    if current.None? then 0 else current.value + 1
  }

  function StoredAt(r: Request, version: nat, position: nat): StoredEvent
    requires r.Append?
  {
    StoredEvent(r.ty, r.partition, r.aggregateId, version, r.event.eventId, r.event.eventType, r.event.data,
                r.event.metadata,
                r.hlc, position)
  }

  /** The five keys an accepted append writes. */
  function AppendPuts(r: Request, fingerprint: nat, version: nat, position: nat): map<Key, Value>
    requires r.Append?
  {
    map[EventKey(r.ty, r.partition, r.aggregateId, version) := EventValue(StoredAt(r, version, position)),
        IndexKey(r.ty, r.partition, position) := Pointer(r.aggregateId, version),
        MetaKey(r.ty, r.partition, r.aggregateId) := Meta(version),
        IdempotencyKey(r.ty, r.partition, r.event.eventId) := Record(fingerprint, version, position),
        NextPositionKey(r.ty, r.partition) := Position(position + 1)]
  }

  function DecideAppend(s: Store, hash: Catalogs.Hash, r: Request): Decision
    requires r.Append?
  {
    if !r.ty.Valid() || !ValidIdentifier(r.aggregateId) || r.event.eventType == [] then Answer(Invalid)
    else
      var fingerprint := Fingerprint(hash, r.ty, r.aggregateId, r.expected, r.event);
      var existing := RecordOf(s, r.ty, r.partition, r.event.eventId);
      if existing.Some? then
        Answer(if existing.value.fingerprint == fingerprint
               then AppendOk(existing.value.version, existing.value.position)
               else IdempotencyConflict)
      else
        var fence := FenceOf(s, r.ty, r.partition);
        var current := VersionOf(s, r.ty, r.partition, r.aggregateId);
        var position := NextOf(s, r.ty, r.partition);
        if fence != r.generation then Answer(Fenced(fence))
        else if !VersionMatches(r.expected, current) then Answer(OptimisticConflict(current))
        else if NextVersion(current) > U64_MAX then Answer(Invalid)
        else if position + 1 > U64_MAX then Answer(Invalid)
        else
          Decision(AppendPuts(r, fingerprint, NextVersion(current), position),
                   AppendOk(NextVersion(current), position),
                   [StoredAt(r, NextVersion(current), position)])
  }

  predicate RevisionMatches(expected: ExpectedRevision, current: Option<AggregateState>) {
    match expected
    case Absent => current.None?
    case ExactRevision(revision) => current.Some? && current.value.revision == revision
  }

  function DecidePutState(s: Store, r: Request): Decision
    requires r.PutState?
  {
    if !r.ty.Valid() || !ValidIdentifier(r.aggregateId) then Answer(Invalid)
    else
      var fence := FenceOf(s, r.ty, r.partition);
      var current := StateOf(s, r.ty, r.partition, r.aggregateId);
      if fence != r.generation then Answer(Fenced(fence))
      else if VersionOf(s, r.ty, r.partition, r.aggregateId).None? then Answer(AggregateNotFound)
      else if !RevisionMatches(r.revision, current) then
        Answer(StateConflict(if current.Some? then Some(current.value.revision) else None))
      else
        var revision := if current.None? then 0 else current.value.revision + 1;
        if revision > U64_MAX then Answer(Invalid)
        else
          Decision(map[StateKey(r.ty, r.partition, r.aggregateId) := StateValue(AggregateState(revision, r.data)),
                       StateModifiedKey(r.ty, r.partition, r.aggregateId) := ModifiedAt(r.hlc)],
                   StateStored(AggregateState(revision, r.data), r.hlc), [])
  }

  function DecideFence(s: Store, r: Request): Decision
    requires r.InstallFence?
  {
    if !r.ty.Valid() || r.generation == 0 then Answer(Invalid)
    else
      var installed := Max(FenceOf(s, r.ty, r.partition), r.generation);
      Decision(if installed == FenceOf(s, r.ty, r.partition) then map[] else map[FenceKey(r.ty,
          r.partition) := Fence(installed)],
               FenceInstalled(installed), [])
  }

  function DecideCatalog(s: Store, hash: Catalogs.Hash, command: Catalogs.Command): Decision {
    var applied := Catalogs.Apply(CatalogOf(s), hash, command);
    Decision(if applied.outcome.Answered? && applied.outcome.changed then map[CatalogKey := CatalogValue(applied.catalog)] else map[],
             CatalogApplied(applied.catalog.revision, applied.outcome), [])
  }

  function DecideGroupCatalog(s: Store, command: GroupCatalog.Command): Decision {
    var before := GroupsOf(s);
    var applied := GroupCatalog.Apply(before, command);
    Decision(if applied.groups.revision != before.revision then map[GroupCatalogKey := GroupCatalogValue(applied.groups)] else map[],
             GroupCatalogApplied(applied.groups.revision, applied.outcome), [])
  }

  /** Stored progress, or fresh progress when there is none or its epoch is older. */
  function EnterEpoch(stored: Option<Group.Partition>, groupEpoch: nat, start: nat): Group.Partition {
    if stored.None? || stored.value.epoch < groupEpoch then Group.New(groupEpoch, start) else stored.value
  }

  function DecideGroupPartition(s: Store, r: Request): Decision
    requires r.GroupPartition?
  {
    if !r.ty.Valid() || !ValidIdentifier(r.group) || !r.settings.Valid() then Answer(Invalid)
    else
      var fence := FenceOf(s, r.ty, r.partition);
      var stored := ProgressOf(s, r.ty, r.partition, r.group);
      if fence != r.generation then Answer(Fenced(fence))
      else if stored.Some? && stored.value.epoch > r.groupEpoch then Answer(StaleEpoch(stored.value.epoch))
      else
        var done := Group.Execute(EnterEpoch(stored, r.groupEpoch, r.start), r.groupEpoch, r.settings, r.command);
        Decision(map[GroupPartitionKey(r.ty, r.partition, r.group) := Progress(done.state)], GroupReply(done.reply), [])
  }

  function Decide(s: Store, hash: Catalogs.Hash, r: Request): Decision {
    match r
    case Append(_, _, _, _, _, _, _) => DecideAppend(s, hash, r)
    case PutState(_, _, _, _, _, _, _) => DecidePutState(s, r)
    case InstallFence(_, _, _) => DecideFence(s, r)
    case CommitCatalog(command) => DecideCatalog(s, hash, command)
    case CommitGroupCatalog(command) => DecideGroupCatalog(s, command)
    case GroupPartition(_, _, _, _, _, _, _, _) => DecideGroupPartition(s, r)
  }

  // ---------------------------------------------------------------- entries

  datatype Payload = Blank | Normal(request: Request) | Members(config: Bytes)

  datatype Entry = Entry(logId: LogId, payload: Payload)

  /** A replica's state machine: its store, the cached applied state, and everything broadcast so far. */
  datatype Node = Node(store: Store, lastApplied: Option<LogId>, membership: Membership, sent: seq<StoredEvent>)

  function DecideEntry(s: Store, hash: Catalogs.Hash, e: Entry): Decision {
    if e.payload.Normal? then Decide(s, hash, e.payload.request) else Answer(Noop)
  }

  function MembershipAfter(m: Membership, e: Entry): Membership {
    if e.payload.Members? then Membership(Some(e.logId), e.payload.config) else m
  }

  /** One committed entry, alone. */
  function ApplyEntry(n: Node, hash: Catalogs.Hash, e: Entry): Node {
    var d := DecideEntry(n.store, hash, e);
    var m := MembershipAfter(n.membership, e);
    Node((n.store + d.puts)[AppliedState := Applied(Some(e.logId), m)], Some(e.logId), m, n.sent + d.events)
  }

  function ApplyEntries(n: Node, hash: Catalogs.Hash, entries: seq<Entry>): Node
    decreases entries
  {
    if entries == [] then n else ApplyEntries(ApplyEntry(n, hash, entries[0]), hash, entries[1..])
  }

  function Responses(n: Node, hash: Catalogs.Hash, entries: seq<Entry>): seq<Response>
    decreases entries
  {
    if entries == [] then []
    else [DecideEntry(n.store, hash, entries[0]).response] + Responses(ApplyEntry(n, hash, entries[0]), hash,
        entries[1..])
  }

  /** A log splits anywhere. */
  lemma {:induction false} ApplyConcat(n: Node, hash: Catalogs.Hash, a: seq<Entry>, b: seq<Entry>)
    ensures ApplyEntries(n, hash, a + b) == ApplyEntries(ApplyEntries(n, hash, a), hash, b)
    ensures Responses(n, hash, a + b) == Responses(n, hash, a) + Responses(ApplyEntries(n, hash, a), hash, b)
    decreases a
  {
    if a == [] {
      assert a + b == b;
    } else {
      assert (a + b)[0] == a[0] && (a + b)[1..] == a[1..] + b;
      hide ApplyEntry, DecideEntry;
      ApplyConcat(ApplyEntry(n, hash, a[0]), hash, a[1..], b);
    }
  }
}
