/**
 * The batched apply against the entry-by-entry machine: which node a batch must produce, and what a run of
 * batches, crashes and restarts amounts to.
 */
module ApplyRefinement {
  import opened Base
  import opened Aggregate
  import opened Keys
  import opened StateMachine
  import opened ApplyBatch
  import Group = AggregateGroup
  import Catalogs = AggregateCatalog
  import GroupCatalog

  // ---------------------------------------------------------------- the applied state is nobody's input

  /** Everything but the applied state, which entry-by-entry apply rewrites each time and a batch writes once. */
  function Data(s: Store): Store {
    s - {AppliedState}
  }

  lemma DataReads(s: Store, ty: TypeId, p: nat, a: Text, e: Uuid)
    ensures VersionOf(Data(s), ty, p, a) == VersionOf(s, ty, p, a)
    ensures StateOf(Data(s), ty, p, a) == StateOf(s, ty, p, a)
    ensures NextOf(Data(s), ty, p) == NextOf(s, ty, p)
    ensures FenceOf(Data(s), ty, p) == FenceOf(s, ty, p)
    ensures RecordOf(Data(s), ty, p, e) == RecordOf(s, ty, p, e)
    ensures ProgressOf(Data(s), ty, p, a) == ProgressOf(s, ty, p, a)
    ensures CatalogOf(Data(s)) == CatalogOf(s)
    ensures GroupsOf(Data(s)) == GroupsOf(s)
  {
  }

  /** A decision depends on the data alone. */
  lemma DecideOnData(s: Store, hash: Catalogs.Hash, r: Request)
    ensures Decide(Data(s), hash, r) == Decide(s, hash, r)
  {
    hide VersionOf, StateOf, NextOf, FenceOf, RecordOf, ProgressOf, CatalogOf, GroupsOf, Data;
    hide AppendPuts, StoredAt, Fingerprint, TypeId.Valid, Group.Settings.Valid, Group.Execute, Catalogs.Apply;
    hide GroupCatalog.Apply;
    match r
    case Append(ty, p, _, a, _, event, _) => DataReads(s, ty, p, a, event.eventId);
    case PutState(ty, p, _, a, _, _, _) => DataReads(s, ty, p, a, 0);
    case InstallFence(ty, p, _) => DataReads(s, ty, p, [], 0);
    case CommitCatalog(command) => DataReads(s, TypeId([], []), 0, [], 0);
    case CommitGroupCatalog(command) => DataReads(s, TypeId([], []), 0, [], 0);
    case GroupPartition(ty, p, _, g, _, _, _, _) => DataReads(s, ty, p, g, 0);
  }

  lemma PutsAreData(s: Store, hash: Catalogs.Hash, r: Request)
    ensures AppliedState !in Decide(s, hash, r).puts
  {
    hide VersionOf, StateOf, NextOf, FenceOf, RecordOf, ProgressOf, CatalogOf, GroupsOf;
    hide StoredAt, Fingerprint, TypeId.Valid, Group.Settings.Valid, Group.Execute, Catalogs.Apply, GroupCatalog.Apply;
  }

  lemma EntryOnData(s: Store, t: Store, hash: Catalogs.Hash, e: Entry)
    requires Data(s) == Data(t)
    ensures DecideEntry(s, hash, e) == DecideEntry(t, hash, e)
    ensures AppliedState !in DecideEntry(s, hash, e).puts
  {
    hide Decide, Data;
    if e.payload.Normal? {
      DecideOnData(s, hash, e.payload.request);
      DecideOnData(t, hash, e.payload.request);
      PutsAreData(s, hash, e.payload.request);
    }
  }

  lemma DataPuts(s: Store, t: Store, puts: map<Key, Value>, x: Value)
    requires Data(s) == Data(t) && AppliedState !in puts
    ensures Data(s + puts) == Data((t + puts)[AppliedState := x])
  {
    assert forall k :: k in s && k != AppliedState ==> k in Data(s) && Data(s)[k] == s[k];
    assert forall k :: k in t && k != AppliedState ==> k in Data(t) && Data(t)[k] == t[k];
  }

  // ---------------------------------------------------------------- one batch

  /** The overlay has reached node `n`, having started from node `start`. */
  ghost predicate Tracks(tree: Store, b: Batch, start: Node, n: Node) {
    Coherent(tree, b) && Data(Virtual(tree, b)) == Data(n.store) && n.sent == start.sent + b.events
  }

  lemma TracksStart(start: Node)
    ensures Tracks(start.store, NEW_BATCH, start, start)
  {
    hide Coherent, Virtual;
    NewCoherent(start.store);
    assert start.sent + NEW_BATCH.events == start.sent;
  }

  lemma TracksStep(tree: Store, b: Batch, c: Batch, start: Node, n: Node, hash: Catalogs.Hash, e: Entry)
    requires Tracks(tree, b, start, n) && Took(tree, b, c, DecideEntry(Virtual(tree, b), hash, e))
    ensures DecideEntry(Virtual(tree, b), hash, e) == DecideEntry(n.store, hash, e)
    ensures Tracks(tree, c, start, ApplyEntry(n, hash, e))
  {
    hide Coherent, Virtual, DecideEntry, Data;
    var d := DecideEntry(n.store, hash, e);
    EntryOnData(Virtual(tree, b), n.store, hash, e);
    DataPuts(Virtual(tree, b), n.store, d.puts, Applied(Some(e.logId), MembershipAfter(n.membership, e)));
    assert start.sent + (b.events + d.events) == (start.sent + b.events) + d.events;
  }

  /** One more entry at the end of a log. */
  lemma {:induction false} ApplySnoc(n: Node, hash: Catalogs.Hash, a: seq<Entry>, e: Entry)
    ensures ApplyEntries(n, hash, a + [e]) == ApplyEntry(ApplyEntries(n, hash, a), hash, e)
    ensures Responses(n, hash, a + [e]) ==
            Responses(n, hash, a) + [DecideEntry(ApplyEntries(n, hash, a).store, hash, e).response]
  {
    ApplyConcat(n, hash, a, [e]);
    hide ApplyEntry, DecideEntry;
    var m := ApplyEntries(n, hash, a);
    assert ApplyEntries(ApplyEntry(m, hash, e), hash, [e][1..]) == ApplyEntry(m, hash, e);
    assert Responses(ApplyEntry(m, hash, e), hash, [e][1..]) == [];
  }

  /** The applied-state record of a node's store is what the node holds in memory. */
  ghost predicate Recorded(n: Node) {
    AppliedState in n.store && n.store[AppliedState] == Applied(n.lastApplied, n.membership)
  }

  lemma {:induction false} AppliedRecorded(n: Node, hash: Catalogs.Hash, entries: seq<Entry>)
    requires entries != []
    ensures Recorded(ApplyEntries(n, hash, entries))
    ensures ApplyEntries(n, hash, entries).lastApplied == Some(entries[|entries| - 1].logId)
  {
    var front, last := entries[..|entries| - 1], entries[|entries| - 1];
    ApplySnoc(n, hash, front, last);
    assert front + [last] == entries;
    hide ApplyEntries, DecideEntry;
  }

  lemma SameStore(s: Store, t: Store, x: Value)
    requires Data(s) == Data(t) && AppliedState in t && t[AppliedState] == x
    ensures s[AppliedState := x] == t
  {
    var l := s[AppliedState := x];
    forall k: Key ensures (k in l <==> k in t) && (k in l ==> l[k] == t[k]) {
      assert k != AppliedState ==> (k in Data(s) <==> k in s) && (k in Data(t) <==> k in t);
      assert k in Data(s) ==> Data(s)[k] == s[k];
      assert k in Data(t) ==> Data(t)[k] == t[k];
    }
  }

  /** What one call of `apply` leaves behind; an empty batch still records the applied state it knows. */
  function AfterBatch(n: Node, hash: Catalogs.Hash, entries: seq<Entry>): Node {
    if entries == [] then n.(store := n.store[AppliedState := Applied(n.lastApplied, n.membership)])
    else ApplyEntries(n, hash, entries)
  }

  // ---------------------------------------------------------------- the answers of a batch

  /** A batch answers a group-catalog command from its cached catalog, and everything else as the reference does. */
  function RequestAnswer(s: Store, cache: GroupCatalog.Groups, hash: Catalogs.Hash, r: Request): Response {
    if r.CommitGroupCatalog? then
      var applied := GroupCatalog.Apply(cache, r.groupCommand);
      GroupCatalogApplied(applied.groups.revision, applied.outcome)
    else Decide(s, hash, r).response
  }

  function CacheAfterRequest(cache: GroupCatalog.Groups, r: Request): GroupCatalog.Groups {
    if r.CommitGroupCatalog? then GroupCatalog.Apply(cache, r.groupCommand).groups else cache
  }

  function OverlayAnswer(s: Store, cache: GroupCatalog.Groups, hash: Catalogs.Hash, e: Entry): Response {
    if e.payload.Normal? then RequestAnswer(s, cache, hash, e.payload.request) else Noop
  }

  function CacheAfter(cache: GroupCatalog.Groups, e: Entry): GroupCatalog.Groups {
    if e.payload.Normal? then CacheAfterRequest(cache, e.payload.request) else cache
  }

  function CacheAfterAll(cache: GroupCatalog.Groups, entries: seq<Entry>): GroupCatalog.Groups {
    if entries == [] then cache else CacheAfter(CacheAfterAll(cache, entries[..|entries| - 1]), entries[|entries| - 1])
  }

  /** Everything one batch answers. */
  function OverlayResponses(n: Node, hash: Catalogs.Hash, entries: seq<Entry>): seq<Response> {
    if entries == [] then []
    else
      var front := entries[..|entries| - 1];
      OverlayResponses(n, hash, front)
      + [OverlayAnswer(ApplyEntries(n, hash, front).store, CacheAfterAll(GroupsOf(n.store), front), hash,
                       entries[|entries| - 1])]
  }

  lemma OverlaySnocs(n: Node, hash: Catalogs.Hash, a: seq<Entry>, e: Entry)
    ensures CacheAfterAll(GroupsOf(n.store), a + [e]) == CacheAfter(CacheAfterAll(GroupsOf(n.store), a), e)
    ensures OverlayResponses(n, hash, a + [e]) ==
            OverlayResponses(n, hash, a) + [OverlayAnswer(ApplyEntries(n, hash, a).store,
                                                          CacheAfterAll(GroupsOf(n.store), a), hash, e)]
  {
    hide OverlayAnswer, CacheAfter, ApplyEntries, GroupsOf;
    assert (a + [e])[..|a|] == a;
  }

  lemma SameAnswer(s: Store, t: Store, cache: GroupCatalog.Groups, hash: Catalogs.Hash, e: Entry)
    requires DecideEntry(s, hash, e) == DecideEntry(t, hash, e)
    ensures OverlayAnswer(s, cache, hash, e) == OverlayAnswer(t, cache, hash, e)
  {
    hide Decide, GroupCatalog.Apply;
  }

  predicate IsGroupCommand(e: Entry) {
    e.payload.Normal? && e.payload.request.CommitGroupCatalog?
  }

  predicate EntryFits(s: Store, e: Entry) {
    IsGroupCommand(e) ==> GroupCatalog.Fits(GroupsOf(s), e.payload.request.groupCommand)
  }

  /** Every group-catalog command of the batch finds a revision that can account for it. */
  ghost predicate Roomy(n: Node, hash: Catalogs.Hash, entries: seq<Entry>) {
    forall i :: 0 <= i < |entries| ==> EntryFits(ApplyEntries(n, hash, entries[..i]).store, entries[i])
  }

  /** From an exact cache the answer is the reference's, whatever the entry. */
  lemma ExactAnswer(s: Store, hash: Catalogs.Hash, e: Entry)
    ensures OverlayAnswer(s, GroupsOf(s), hash, e) == DecideEntry(s, hash, e).response
  {
    hide GroupsOf, GroupCatalog.Apply, DecideAppend, DecidePutState, DecideFence, DecideCatalog, DecideGroupPartition;
  }

  lemma OtherKeepsGroups(s: Store, hash: Catalogs.Hash, e: Entry)
    requires !IsGroupCommand(e)
    ensures GroupsOf(s + DecideEntry(s, hash, e).puts) == GroupsOf(s)
  {
    hide VersionOf, StateOf, NextOf, FenceOf, RecordOf, ProgressOf, CatalogOf;
    hide StoredAt, Fingerprint, TypeId.Valid, Group.Settings.Valid, Group.Execute, Catalogs.Apply;
  }

  lemma GroupCommandStores(s: Store, hash: Catalogs.Hash, e: Entry)
    requires IsGroupCommand(e)
    ensures var t := GroupCatalog.Apply(GroupsOf(s), e.payload.request.groupCommand).groups;
            GroupsOf(s + DecideEntry(s, hash, e).puts) == if t.revision != GroupsOf(s).revision then t else GroupsOf(s)
  {
    hide GroupCatalog.Apply;
  }

  lemma ApplyKeepsGroups(n: Node, hash: Catalogs.Hash, e: Entry)
    ensures GroupsOf(ApplyEntry(n, hash, e).store) == GroupsOf(n.store + DecideEntry(n.store, hash, e).puts)
  {
    hide DecideEntry;
  }

  /** An exact cache stays exact over an entry if and only if the entry fits. */
  lemma ExactCacheStays(n: Node, hash: Catalogs.Hash, e: Entry)
    ensures CacheAfter(GroupsOf(n.store), e) == GroupsOf(ApplyEntry(n, hash, e).store) <==> EntryFits(n.store, e)
  {
    ApplyKeepsGroups(n, hash, e);
    hide ApplyEntry, GroupsOf, DecideEntry, GroupCatalog.Apply, GroupCatalog.Fits;
    if IsGroupCommand(e) {
      GroupCommandStores(n.store, hash, e);
      GroupCatalog.StagedExactly(GroupsOf(n.store), e.payload.request.groupCommand);
    } else {
      OtherKeepsGroups(n.store, hash, e);
    }
  }

  lemma {:induction false} RoomyCache(n: Node, hash: Catalogs.Hash, entries: seq<Entry>)
    requires Roomy(n, hash, entries)
    ensures CacheAfterAll(GroupsOf(n.store), entries) == GroupsOf(ApplyEntries(n, hash, entries).store)
    ensures OverlayResponses(n, hash, entries) == Responses(n, hash, entries)
    decreases |entries|
  {
    if entries == [] {
      return;
    }
    var front, last := entries[..|entries| - 1], entries[|entries| - 1];
    assert entries == front + [last];
    RoomyFront(n, hash, front, last);
    RoomyCache(n, hash, front);
    ApplySnoc(n, hash, front, last);
    OverlaySnocs(n, hash, front, last);
    hide Roomy, EntryFits, GroupsOf, ApplyEntry, ApplyEntries, OverlayResponses, Responses, OverlayAnswer;
    hide DecideEntry, CacheAfter, CacheAfterAll;
    var m := ApplyEntries(n, hash, front);
    ExactCacheStays(m, hash, last);
    ExactAnswer(m.store, hash, last);
  }

  lemma RoomyFront(n: Node, hash: Catalogs.Hash, front: seq<Entry>, last: Entry)
    requires Roomy(n, hash, front + [last])
    ensures Roomy(n, hash, front) && EntryFits(ApplyEntries(n, hash, front).store, last)
  {
    hide EntryFits, ApplyEntries;
    var entries := front + [last];
    assert entries[..|front|] == front && entries[|front|] == last;
    forall i | 0 <= i < |front| ensures EntryFits(ApplyEntries(n, hash, front[..i]).store, front[i]) {
      assert entries[..i] == front[..i] && entries[i] == front[i];
    }
  }

  /** A batch whose group-catalog commands all fit answers exactly what entry-by-entry apply answers. */
  lemma RoomyAnswers(n: Node, hash: Catalogs.Hash, entries: seq<Entry>)
    requires Roomy(n, hash, entries)
    ensures OverlayResponses(n, hash, entries) == Responses(n, hash, entries)
  {
    RoomyCache(n, hash, entries);
  }

  /**
   * That is exactly the condition. While the cache is exact, an entry fits if and only if every possible next entry of
   * the batch still gets the answer that entry-by-entry apply gives it.
   */
  lemma FittingIsAnswering(n: Node, hash: Catalogs.Hash, e: Entry)
    ensures EntryFits(n.store, e) <==>
            forall next: Entry :: AnswersAlike(ApplyEntry(n, hash, e).store, CacheAfter(GroupsOf(n.store), e), hash,
                                               next)
  {
    hide ApplyEntry, GroupsOf, CacheAfter;
    var m := ApplyEntry(n, hash, e);
    ExactCacheStays(n, hash, e);
    if EntryFits(n.store, e) {
      forall next: Entry ensures AnswersAlike(m.store, CacheAfter(GroupsOf(n.store), e), hash, next) {
        ExactAnswer(m.store, hash, next);
      }
    } else {
      var next := SomeTell(n, hash, e);
      assert !AnswersAlike(m.store, CacheAfter(GroupsOf(n.store), e), hash, next);
    }
  }

  ghost predicate AnswersAlike(s: Store, cache: GroupCatalog.Groups, hash: Catalogs.Hash, next: Entry) {
    OverlayAnswer(s, cache, hash, next) == DecideEntry(s, hash, next).response
  }

  /** The entry that tells a cache that ran ahead from the stored catalog. */
  lemma SomeTell(n: Node, hash: Catalogs.Hash, e: Entry) returns (next: Entry)
    requires !EntryFits(n.store, e)
    ensures !AnswersAlike(ApplyEntry(n, hash, e).store, CacheAfter(GroupsOf(n.store), e), hash, next)
  {
    hide GroupsOf, GroupCatalog.Apply, ApplyEntry, DecideEntry, OverlayAnswer;
    var g, command := GroupsOf(n.store), e.payload.request.groupCommand;
    var m := ApplyEntry(n, hash, e);
    GroupCatalog.UnwrittenIsVisible(g, command);
    GroupCatalog.StagedExactly(g, command);
    ApplyKeepsGroups(n, hash, e);
    GroupCommandStores(n.store, hash, e);
    var tell: GroupCatalog.Command :| GroupCatalog.Apply(GroupCatalog.Apply(g, command).groups,
                                                         tell).outcome != GroupCatalog.Apply(g, tell).outcome;
    next := Entry(e.logId, Normal(CommitGroupCatalog(tell)));
    GroupAnswer(m.store, CacheAfter(g, e), hash, next);
  }

  lemma GroupAnswer(s: Store, cache: GroupCatalog.Groups, hash: Catalogs.Hash, e: Entry)
    requires IsGroupCommand(e)
    ensures var c, t := GroupCatalog.Apply(cache, e.payload.request.groupCommand), GroupCatalog.Apply(GroupsOf(s),
        e.payload.request.groupCommand);
            && OverlayAnswer(s, cache, hash, e) == GroupCatalogApplied(c.groups.revision, c.outcome)
            && DecideEntry(s, hash, e).response == GroupCatalogApplied(t.groups.revision, t.outcome)
  {
    hide GroupsOf, GroupCatalog.Apply;
  }

  lemma NoAnswers(n: Node, hash: Catalogs.Hash)
    ensures ApplyEntries(n, hash, []) == n && CacheAfterAll(GroupsOf(n.store), []) == GroupsOf(n.store)
    ensures OverlayResponses(n, hash, []) == [] && Responses(n, hash, []) == []
  {
  }

  lemma OneAnswer(n: Node, hash: Catalogs.Hash, a: Entry)
    ensures ApplyEntries(n, hash, [a]) == ApplyEntry(n, hash, a)
    ensures CacheAfterAll(GroupsOf(n.store), [a]) == CacheAfter(GroupsOf(n.store), a)
    ensures OverlayResponses(n, hash, [a]) == [OverlayAnswer(n.store, GroupsOf(n.store), hash, a)]
    ensures Responses(n, hash, [a]) == [DecideEntry(n.store, hash, a).response]
  {
    hide GroupsOf, ApplyEntry, ApplyEntries, Responses, OverlayResponses, OverlayAnswer, DecideEntry, CacheAfter;
    hide CacheAfterAll;
    NoAnswers(n, hash);
    OverlaySnocs(n, hash, [], a);
    ApplySnoc(n, hash, [], a);
    assert [] + [a] == [a];
  }

  /** The answers of a batch of two. */
  lemma TwoAnswers(n: Node, hash: Catalogs.Hash, a: Entry, b: Entry)
    ensures OverlayResponses(n, hash, [a, b]) ==
            [OverlayAnswer(n.store, GroupsOf(n.store), hash, a)]
            + [OverlayAnswer(ApplyEntry(n, hash, a).store, CacheAfter(GroupsOf(n.store), a), hash, b)]
    ensures Responses(n, hash, [a, b]) ==
            [DecideEntry(n.store, hash, a).response] + [DecideEntry(ApplyEntry(n, hash, a).store, hash, b).response]
  {
    hide GroupsOf, ApplyEntry, ApplyEntries, Responses, OverlayResponses, OverlayAnswer, DecideEntry, CacheAfter;
    hide CacheAfterAll;
    OneAnswer(n, hash, a);
    OverlaySnocs(n, hash, [a], b);
    ApplySnoc(n, hash, [a], b);
    assert [a] + [b] == [a, b];
  }

  /** The applied position and membership a batch holds in local variables until it commits. */
  ghost predicate Settled(start: Node, n: Node, last: Option<LogId>, members: Option<Membership>) {
    && n.lastApplied == (if last.Some? then last else start.lastApplied)
    && n.membership == (if members.Some? then members.value else start.membership)
  }

  lemma NothingApplied(start: Node, hash: Catalogs.Hash, entries: seq<Entry>)
    ensures ApplyEntries(start, hash, entries[..0]) == start && Responses(start, hash, entries[..0]) == []
  {
  }

  /** What a tracking overlay lets the group-catalog guard conclude. */
  lemma TracksReads(tree: Store, b: Batch, start: Node, n: Node)
    requires Tracks(tree, b, start, n)
    ensures Coherent(tree, b) && GroupsOf(Virtual(tree, b)) == GroupsOf(n.store)
  {
    hide Coherent, Virtual, Data, GroupsOf;
    DataReads(Virtual(tree, b), TypeId([], []), 0, [], 0);
    DataReads(n.store, TypeId([], []), 0, [], 0);
  }

  lemma AddLast(o: Store, puts: map<Key, Value>, op: Put)
    ensures (o + puts)[op.key := op.value] == o + puts[op.key := op.value]
  {
  }

  lemma FlushNone(tree: Store, ops: seq<Put>)
    ensures Overlay(tree, ops) == Overlay(tree, ops) + PositionPuts(map[])
  {
    hide Overlay;
    assert PositionPuts(map[]) == map[];
  }

  lemma FlushOne(tree: Store, start: seq<Put>, ops: seq<Put>, flushed: map<Partitioned, nat>, s: Partitioned, next: nat)
    requires Overlay(tree, ops) == Overlay(tree, start) + PositionPuts(flushed)
    ensures Overlay(tree, ops + [Put(NextPositionKey(s.0, s.1), Position(next))]) ==
            Overlay(tree, start) + PositionPuts(flushed[s := next])
  {
    hide Overlay, PositionPuts;
    var op := Put(NextPositionKey(s.0, s.1), Position(next));
    OverlaySnoc(tree, ops, op);
    PositionPutsUpdate(flushed, s.0, s.1, next);
    AddLast(Overlay(tree, start), PositionPuts(flushed), op);
  }

  /** Committing a fully tracked overlay together with the applied state gives the node the batch must reach. */
  lemma BatchReaches(start: Node, b: Batch, hash: Catalogs.Hash, entries: seq<Entry>, last: Option<LogId>,
                     members: Option<Membership>)
    requires Tracks(start.store, b, start, ApplyEntries(start, hash, entries))
    requires Settled(start, ApplyEntries(start, hash, entries), last, members)
    ensures var lastApplied := if last.Some? then last else start.lastApplied;
            var membership := if members.Some? then members.value else start.membership;
            AfterBatch(start, hash, entries) ==
            Node(Virtual(start.store, b)[AppliedState := Applied(lastApplied, membership)], lastApplied, membership,
                 start.sent + b.events)
  {
    var n := ApplyEntries(start, hash, entries);
    var x := Applied(n.lastApplied, n.membership);
    if entries == [] {
      hide Coherent, Virtual, Data;
      DataUpdate(Virtual(start.store, b), start.store, x);
    } else {
      hide Coherent, Virtual, Data, ApplyEntries;
      AppliedRecorded(start, hash, entries);
      SameStore(Virtual(start.store, b), n.store, x);
    }
  }

  lemma DataUpdate(s: Store, t: Store, x: Value)
    requires Data(s) == Data(t)
    ensures s[AppliedState := x] == t[AppliedState := x]
  {
    var l := t[AppliedState := x];
    assert Data(l) == Data(t);
    SameStore(s, l, x);
  }

  lemma RevisionStep(n: Node, hash: Catalogs.Hash, e: Entry)
    ensures GroupsOf(ApplyEntry(n, hash, e).store).revision <= GroupsOf(n.store).revision + 1
  {
    hide VersionOf, StateOf, NextOf, FenceOf, RecordOf, ProgressOf, CatalogOf;
    hide StoredAt, Fingerprint, TypeId.Valid, Group.Settings.Valid, Group.Execute, Catalogs.Apply;
    hide GroupCatalog.GroupDefinition.Valid;
  }

  lemma {:induction false} RevisionBound(n: Node, hash: Catalogs.Hash, entries: seq<Entry>)
    ensures GroupsOf(ApplyEntries(n, hash, entries).store).revision <= GroupsOf(n.store).revision + |entries|
    decreases entries
  {
    if entries != [] {
      RevisionStep(n, hash, entries[0]);
      hide ApplyEntry, GroupsOf;
      RevisionBound(ApplyEntry(n, hash, entries[0]), hash, entries[1..]);
    }
  }

  /** A batch no longer than the room left in the revision counter is safe, whatever it holds. */
  lemma RoomToSpare(n: Node, hash: Catalogs.Hash, entries: seq<Entry>)
    requires GroupsOf(n.store).revision + |entries| <= U64_MAX
    ensures Roomy(n, hash, entries)
  {
    hide GroupsOf, ApplyEntries, GroupCatalog.Apply;
    forall i | 0 <= i < |entries| ensures EntryFits(ApplyEntries(n, hash, entries[..i]).store, entries[i]) {
      RevisionBound(n, hash, entries[..i]);
    }
  }

  /**
   * At the top of the counter the answers part. Two creators of one name in one batch: the cached catalog refuses the
   * second, the stored one, which never received the first, accepts it.
   */
  lemma TopRevisionDiverges(n: Node, hash: Catalogs.Hash, first: GroupCatalog.GroupDefinition,
                            second: GroupCatalog.GroupDefinition, at: LogId)
    requires GroupsOf(n.store).revision == U64_MAX
    requires first.Valid(1) && second.Valid(1) && (first.ty, first.name) == (second.ty, second.name)
    requires first.createOperationId != second.createOperationId && (first.ty, first.name) !in GroupsOf(n.store).groups
    ensures var a := Entry(at, Normal(CommitGroupCatalog(GroupCatalog.CreateGroup(first, 1))));
            var b := Entry(at, Normal(CommitGroupCatalog(GroupCatalog.CreateGroup(second, 1))));
            var made := second.(revision := 1, epoch := 1, lastOperationId := second.createOperationId);
            && |OverlayResponses(n, hash, [a, b])| == |Responses(n, hash, [a, b])| == 2
            && OverlayResponses(n, hash, [a, b])[1] == GroupCatalogApplied(U64_MAX, GroupCatalog.Conflict(Some(1)))
            && Responses(n, hash, [a, b])[1] == GroupCatalogApplied(U64_MAX, GroupCatalog.Group(made))
  {
    hide GroupsOf, GroupCatalog.GroupDefinition.Valid, ApplyEntry, Responses, OverlayResponses, OverlayAnswer;
    hide DecideEntry, GroupCatalog.Apply;
    var a := Entry(at, Normal(CommitGroupCatalog(GroupCatalog.CreateGroup(first, 1))));
    var b := Entry(at, Normal(CommitGroupCatalog(GroupCatalog.CreateGroup(second, 1))));
    var m := ApplyEntry(n, hash, a);
    GroupCatalog.TwoCreators(GroupsOf(n.store), first, second);
    ApplyKeepsGroups(n, hash, a);
    GroupCommandStores(n.store, hash, a);
    TwoAnswers(n, hash, a, b);
    GroupAnswer(m.store, CacheAfter(GroupsOf(n.store), a), hash, b);
  }

  // ---------------------------------------------------------------- runs with crashes

  const FRESH: Node := Node(map[], None, NO_MEMBERSHIP, [])

  /** Opening the store again: the in-memory applied state comes from its stored record. */
  function Restarted(n: Node): Node {
    if AppliedState in n.store && n.store[AppliedState].Applied? then
      n.(lastApplied := n.store[AppliedState].lastApplied, membership := n.store[AppliedState].membership)
    else n.(lastApplied := None, membership := NO_MEMBERSHIP)
  }

  /** Raft feeds the log from the entry after the last applied one. */
  function NextIndex(n: Node): nat {
    if n.lastApplied.None? then 0 else n.lastApplied.value.index + 1
  }

  /** `Feed` applies a batch; `Crash` stops the process during one, before or after its transaction commits. */
  datatype Step = Feed(count: nat) | Crash(count: nat, committed: bool)

  function Upcoming(n: Node, log: seq<Entry>, count: nat): seq<Entry> {
    if NextIndex(n) + count <= |log| then log[NextIndex(n)..NextIndex(n) + count] else []
  }

  /** A crash keeps the tree, with the batch in it if it had committed, and loses what was in memory. */
  function AfterCrash(n: Node, hash: Catalogs.Hash, entries: seq<Entry>, committed: bool): Node {
    Restarted(if committed then n.(store := AfterBatch(n, hash, entries).store) else n)
  }

  function AfterStep(n: Node, hash: Catalogs.Hash, log: seq<Entry>, step: Step): Node {
    match step
    case Feed(count) => AfterBatch(n, hash, Upcoming(n, log, count))
    case Crash(count, committed) => AfterCrash(n, hash, Upcoming(n, log, count), committed)
  }

  lemma StepIs(n: Node, hash: Catalogs.Hash, log: seq<Entry>, step: Step)
    ensures step.Feed? ==> AfterStep(n, hash, log, step) == AfterBatch(n, hash, Upcoming(n, log, step.count))
    ensures step.Crash? ==> AfterStep(n, hash, log, step) == AfterCrash(n, hash, Upcoming(n, log, step.count),
        step.committed)
  {
  }

  function AfterSteps(n: Node, hash: Catalogs.Hash, log: seq<Entry>, steps: seq<Step>): Node {
    if steps == [] then n else AfterStep(AfterSteps(n, hash, log, steps[..|steps| - 1]), hash, log, steps[|steps| - 1])
  }

  ghost predicate Numbered(log: seq<Entry>) {
    forall i :: 0 <= i < |log| ==> log[i].logId.index == i
  }

  /** The node stands where entry-by-entry apply of the log's first `k` entries stands. */
  ghost predicate StandsAt(n: Node, hash: Catalogs.Hash, log: seq<Entry>, k: nat)
    requires k <= |log|
  {
    var reference := ApplyEntries(FRESH, hash, log[..k]);
    && n.lastApplied == reference.lastApplied
    && n.membership == reference.membership
    && Data(n.store) == Data(reference.store)
    && (k > 0 || AppliedState in n.store ==> Recorded(n))
  }

  lemma StandsNext(n: Node, hash: Catalogs.Hash, log: seq<Entry>, k: nat)
    requires Numbered(log) && k <= |log| && StandsAt(n, hash, log, k)
    ensures NextIndex(n) == k
  {
    if k > 0 {
      AppliedRecorded(FRESH, hash, log[..k]);
    }
    hide ApplyEntry, Data;
  }

  lemma EntryFromData(n: Node, m: Node, hash: Catalogs.Hash, e: Entry)
    requires Data(n.store) == Data(m.store) && n.membership == m.membership
    ensures var x, y := ApplyEntry(n, hash, e), ApplyEntry(m, hash, e);
            Data(x.store) == Data(y.store) && x.membership == y.membership && x.lastApplied == y.lastApplied
  {
    hide DecideEntry, Data;
    EntryOnData(n.store, m.store, hash, e);
    var d := DecideEntry(n.store, hash, e);
    var v := Applied(Some(e.logId), MembershipAfter(n.membership, e));
    DataPuts(n.store, m.store, d.puts, v);
    DataPuts(n.store, n.store, d.puts, v);
  }

  lemma {:induction false} EntriesFromData(n: Node, m: Node, hash: Catalogs.Hash, entries: seq<Entry>)
    requires Data(n.store) == Data(m.store) && n.membership == m.membership && entries != []
    ensures var x, y := ApplyEntries(n, hash, entries), ApplyEntries(m, hash, entries);
            Data(x.store) == Data(y.store) && x.membership == y.membership && x.lastApplied == y.lastApplied
    decreases entries
  {
    EntryFromData(n, m, hash, entries[0]);
    hide ApplyEntry, Data;
    if |entries| > 1 {
      EntriesFromData(ApplyEntry(n, hash, entries[0]), ApplyEntry(m, hash, entries[0]), hash, entries[1..]);
    }
  }

  lemma BatchStands(n: Node, hash: Catalogs.Hash, log: seq<Entry>, k: nat, count: nat)
    requires k + count <= |log| && StandsAt(n, hash, log, k)
    ensures StandsAt(AfterBatch(n, hash, log[k..k + count]), hash, log, k + count)
  {
    var part := log[k..k + count];
    if count == 0 {
      assert part == [];
    } else {
      assert log[..k + count] == log[..k] + part;
      ApplyConcat(FRESH, hash, log[..k], part);
      hide ApplyEntries, Data;
      EntriesFromData(n, ApplyEntries(FRESH, hash, log[..k]), hash, part);
      AppliedRecorded(n, hash, part);
    }
  }

  lemma RestartStands(n: Node, hash: Catalogs.Hash, log: seq<Entry>, k: nat)
    requires k <= |log| && StandsAt(n, hash, log, k)
    ensures StandsAt(Restarted(n), hash, log, k)
  {
    hide Data;
    if k == 0 {
      assert log[..k] == [];
    }
  }

  lemma StepStands(n: Node, hash: Catalogs.Hash, log: seq<Entry>, k: nat, step: Step)
    requires Numbered(log) && k <= |log| && StandsAt(n, hash, log, k)
    ensures NextIndex(AfterStep(n, hash, log, step)) <= |log|
    ensures StandsAt(AfterStep(n, hash, log, step), hash, log, NextIndex(AfterStep(n, hash, log, step)))
  {
    StandsNext(n, hash, log, k);
    hide StandsAt, AfterBatch, Restarted;
    var count := if k + step.count <= |log| then step.count else 0;
    assert Upcoming(n, log, step.count) == log[k..k + count];
    BatchStands(n, hash, log, k, count);
    var m := AfterBatch(n, hash, log[k..k + count]);
    StandsNext(m, hash, log, k + count);
    RestartStands(m, hash, log, k + count);
    StandsNext(Restarted(m), hash, log, k + count);
    RestartStands(n, hash, log, k);
    StandsNext(Restarted(n), hash, log, k);
    RestartForgets(n, m, hash, log, k + count);
  }

  /** What a restart comes back with depends on the tree alone. */
  lemma RestartForgets(n: Node, m: Node, hash: Catalogs.Hash, log: seq<Entry>, k: nat)
    ensures NextIndex(Restarted(n.(store := m.store))) == NextIndex(Restarted(m))
    ensures k <= |log| ==> (StandsAt(Restarted(n.(store := m.store)), hash, log, k) <==> StandsAt(Restarted(m), hash,
        log, k))
  {
    hide Data, ApplyEntries;
  }

  /**
   * However the log was cut into batches and wherever the process crashed, the node stands exactly where
   * entry-by-entry apply of a log prefix stands, and feeding resumes at the first entry after that prefix.
   */
  lemma {:induction false} RunsReproduceTheLog(hash: Catalogs.Hash, log: seq<Entry>, steps: seq<Step>)
    requires Numbered(log)
    ensures var n := AfterSteps(FRESH, hash, log, steps);
            NextIndex(n) <= |log| && StandsAt(n, hash, log, NextIndex(n))
    decreases |steps|
  {
    if steps == [] {
      assert log[..0] == [];
    } else {
      RunsReproduceTheLog(hash, log, steps[..|steps| - 1]);
      hide StandsAt, AfterStep, NextIndex;
      var n := AfterSteps(FRESH, hash, log, steps[..|steps| - 1]);
      StepStands(n, hash, log, NextIndex(n), steps[|steps| - 1]);
    }
  }

  /** Past the first entry the two stores agree on every key, the applied-state record included. */
  lemma StandsExactly(n: Node, hash: Catalogs.Hash, log: seq<Entry>, k: nat)
    requires 0 < k <= |log| && StandsAt(n, hash, log, k)
    ensures n.store == ApplyEntries(FRESH, hash, log[..k]).store
  {
    hide Data, ApplyEntries;
    AppliedRecorded(FRESH, hash, log[..k]);
    var t := ApplyEntries(FRESH, hash, log[..k]).store;
    SameStore(n.store, t, t[AppliedState]);
    assert n.store[AppliedState := t[AppliedState]] == n.store;
  }
}
