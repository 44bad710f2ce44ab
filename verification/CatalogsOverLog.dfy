/**
 * The two catalogs as a node stores them: the catalog a run of the log's own catalog commands reaches, so that what is
 * known of such runs holds of every replica.
 */
module CatalogsOverLog {
  import opened Base
  import opened Keys
  import opened StateMachine
  import opened ApplyRefinement
  import Group = AggregateGroup
  import Aggregate
  import Catalogs = AggregateCatalog
  import GroupCatalog
  import CatalogHistory
  import GroupCatalogHistory

  predicate IsCatalogCommand(e: Entry) {
    e.payload.Normal? && e.payload.request.CommitCatalog?
  }

  /** The type-catalog commands of a log, in order. */
  function CatalogCommands(entries: seq<Entry>): seq<Catalogs.Command> {
    if entries == [] then []
    else
      var before, last := CatalogCommands(entries[..|entries| - 1]), entries[|entries| - 1];
      if IsCatalogCommand(last) then before + [last.payload.request.catalogCommand] else before
  }

  /** The group-catalog commands of a log, in order. */
  function GroupCommands(entries: seq<Entry>): seq<GroupCatalog.Command> {
    if entries == [] then []
    else
      var before, last := GroupCommands(entries[..|entries| - 1]), entries[|entries| - 1];
      if IsGroupCommand(last) then before + [last.payload.request.groupCommand] else before
  }

  function CatalogAfter(hash: Catalogs.Hash, commands: seq<Catalogs.Command>): Catalogs.Catalog {
    Catalogs.RunAll(Catalogs.Run(Catalogs.EMPTY, []), hash, commands).catalog
  }

  // ---------------------------------------------------------------- one entry

  lemma EntryCatalog(n: Node, hash: Catalogs.Hash, e: Entry)
    ensures CatalogOf(ApplyEntry(n, hash, e).store) ==
            if IsCatalogCommand(e) then Catalogs.Apply(CatalogOf(n.store), hash, e.payload.request.catalogCommand).catalog
            else CatalogOf(n.store)
  {
    if IsCatalogCommand(e) {
      Catalogs.NoChangeNoEffect(CatalogOf(n.store), hash, e.payload.request.catalogCommand);
      hide Catalogs.Apply;
    } else {
      OtherKeepsCatalog(n, hash, e);
    }
  }

  lemma OtherKeepsCatalog(n: Node, hash: Catalogs.Hash, e: Entry)
    requires !IsCatalogCommand(e)
    ensures CatalogOf(ApplyEntry(n, hash, e).store) == CatalogOf(n.store)
  {
    hide VersionOf, StateOf, NextOf, FenceOf, RecordOf, ProgressOf, GroupsOf;
    hide StoredAt, Fingerprint, Aggregate.TypeId.Valid, Group.Settings.Valid, Group.Execute, GroupCatalog.Apply;
  }

  lemma EntryGroups(n: Node, hash: Catalogs.Hash, e: Entry)
    requires GroupsOf(n.store).revision < U64_MAX
    ensures GroupsOf(ApplyEntry(n, hash, e).store) ==
            if IsGroupCommand(e) then GroupCatalog.Apply(GroupsOf(n.store), e.payload.request.groupCommand).groups
            else GroupsOf(n.store)
  {
    ApplyKeepsGroups(n, hash, e);
    hide ApplyEntry, GroupsOf, DecideEntry, GroupCatalog.Apply;
    if IsGroupCommand(e) {
      GroupCommandStores(n.store, hash, e);
      GroupCatalog.StagedExactly(GroupsOf(n.store), e.payload.request.groupCommand);
    } else {
      OtherKeepsGroups(n.store, hash, e);
    }
  }

  // ---------------------------------------------------------------- every log

  /** Every node a log reaches stores the type catalog that the log's catalog commands reach. */
  lemma {:induction false} CatalogIsRun(hash: Catalogs.Hash, entries: seq<Entry>)
    ensures CatalogOf(ApplyEntries(FRESH, hash, entries).store) == CatalogAfter(hash, CatalogCommands(entries))
    decreases |entries|
  {
    hide ApplyEntry, Catalogs.Apply;
    if entries != [] {
      var before, last := entries[..|entries| - 1], entries[|entries| - 1];
      assert entries == before + [last];
      CatalogIsRun(hash, before);
      ApplySnoc(FRESH, hash, before, last);
      EntryCatalog(ApplyEntries(FRESH, hash, before), hash, last);
      hide CatalogOf, ApplyEntries;
      if IsCatalogCommand(last) {
        CatalogSnoc(hash, CatalogCommands(before), last.payload.request.catalogCommand);
      }
    }
  }

  lemma CatalogSnoc(hash: Catalogs.Hash, commands: seq<Catalogs.Command>, command: Catalogs.Command)
    ensures CatalogAfter(hash, commands + [command]) ==
            Catalogs.Apply(CatalogAfter(hash, commands), hash, command).catalog
  {
    hide Catalogs.Apply;
    var r := Catalogs.Run(Catalogs.EMPTY, []);
    CatalogHistory.RunSnoc(r, hash, commands, command);
    CatalogHistory.StepIs(Catalogs.RunAll(r, hash, commands), hash, command);
  }

  /**
   * Every node a log reaches stores the group catalog that the log's group commands reach, as long as `u64` can count
   * them. A log with more commands can lose one: see `ApplyRefinement.TopRevisionDiverges`.
   */
  lemma {:induction false} GroupsAreRun(hash: Catalogs.Hash, entries: seq<Entry>)
    requires |GroupCommands(entries)| <= U64_MAX
    ensures GroupsOf(ApplyEntries(FRESH, hash, entries).store) == GroupCatalog.RunAll(GroupCatalog.EMPTY,
                                                                                      GroupCommands(entries))
    decreases |entries|
  {
    hide ApplyEntry, GroupCatalog.Apply;
    if entries != [] {
      var before, last := entries[..|entries| - 1], entries[|entries| - 1];
      assert entries == before + [last];
      GroupsAreRun(hash, before);
      ApplySnoc(FRESH, hash, before, last);
      var n := ApplyEntries(FRESH, hash, before);
      hide GroupsOf, ApplyEntries;
      if IsGroupCommand(last) {
        Below(GroupCommands(before));
        EntryGroups(n, hash, last);
        GroupCatalogHistory.RunSnoc(GroupCatalog.EMPTY, GroupCommands(before), last.payload.request.groupCommand);
      } else {
        KeepsGroups(n, hash, last);
      }
    }
  }

  lemma KeepsGroups(n: Node, hash: Catalogs.Hash, e: Entry)
    requires !IsGroupCommand(e)
    ensures GroupsOf(ApplyEntry(n, hash, e).store) == GroupsOf(n.store)
  {
    ApplyKeepsGroups(n, hash, e);
    hide ApplyEntry, GroupsOf, DecideEntry;
    OtherKeepsGroups(n.store, hash, e);
  }

  lemma Below(commands: seq<GroupCatalog.Command>)
    requires |commands| < U64_MAX
    ensures GroupCatalog.RunAll(GroupCatalog.EMPTY, commands).revision < U64_MAX
  {
    GroupCatalogHistory.GroupsAreHistory(commands);
    Shorter(commands);
    hide GroupCatalogHistory.History, GroupCatalogHistory.Life, GroupCatalogHistory.EndedBy, GroupCatalogHistory.Told;
    hide GroupCatalog.RunAll, GroupCatalogHistory.GroupIn, GroupCatalog.Apply;
  }

  lemma {:induction false} Shorter(commands: seq<GroupCatalog.Command>)
    ensures |GroupCatalogHistory.History(commands)| <= |commands|
    decreases |commands|
  {
    hide GroupCatalogHistory.Legal;
    if commands != [] { Shorter(commands[..|commands| - 1]); }
  }

  /** The last membership of a log, with the entry that carried it. */
  function MembersIn(entries: seq<Entry>): Membership {
    if entries == [] then NO_MEMBERSHIP
    else
      var last := entries[|entries| - 1];
      if last.payload.Members? then Membership(Some(last.logId), last.payload.config)
      else MembersIn(entries[..|entries| - 1])
  }

  /** A node remembers, and records in its store, the last entry it applied and the last membership it met. */
  lemma AppliedIsLast(hash: Catalogs.Hash, entries: seq<Entry>)
    requires entries != []
    ensures var n := ApplyEntries(FRESH, hash, entries);
            && n.lastApplied == Some(entries[|entries| - 1].logId) && n.membership == MembersIn(entries)
            && AppliedState in n.store && n.store[AppliedState] == Applied(n.lastApplied, n.membership)
  {
    hide DecideEntry, ApplyEntries, ApplyEntry;
    var before, last := entries[..|entries| - 1], entries[|entries| - 1];
    assert entries == before + [last];
    ApplySnoc(FRESH, hash, before, last);
    MembersKept(hash, entries);
    AppliedBy(ApplyEntries(FRESH, hash, before), hash, last);
  }

  lemma AppliedBy(n: Node, hash: Catalogs.Hash, e: Entry)
    ensures var m := ApplyEntry(n, hash, e);
            && m.lastApplied == Some(e.logId) && m.membership == MembershipAfter(n.membership, e)
            && AppliedState in m.store && m.store[AppliedState] == Applied(m.lastApplied, m.membership)
  {
    hide DecideEntry;
  }

  lemma {:induction false} MembersKept(hash: Catalogs.Hash, entries: seq<Entry>)
    ensures ApplyEntries(FRESH, hash, entries).membership == MembersIn(entries)
    decreases |entries|
  {
    if entries != [] {
      var before, last := entries[..|entries| - 1], entries[|entries| - 1];
      assert entries == before + [last];
      ApplySnoc(FRESH, hash, before, last);
      MembersKept(hash, before);
      hide DecideEntry, ApplyEntries, ApplyEntry;
      AppliedBy(ApplyEntries(FRESH, hash, before), hash, last);
    }
  }

  /** A catalog command is answered with what it leaves: the revision and the outcome of that run's next step. */
  lemma CatalogAnswer(hash: Catalogs.Hash, entries: seq<Entry>, next: Entry)
    requires IsCatalogCommand(next)
    ensures var command := next.payload.request.catalogCommand;
            var applied := Catalogs.Apply(CatalogAfter(hash, CatalogCommands(entries)), hash, command);
            Responses(FRESH, hash, entries + [next]) ==
            Responses(FRESH, hash, entries) + [CatalogApplied(applied.catalog.revision, applied.outcome)]
  {
    hide Catalogs.Apply;
    CatalogIsRun(hash, entries);
    ApplySnoc(FRESH, hash, entries, next);
  }

  lemma GroupAnswer(hash: Catalogs.Hash, entries: seq<Entry>, next: Entry)
    requires IsGroupCommand(next) && |GroupCommands(entries)| <= U64_MAX
    ensures var command := next.payload.request.groupCommand;
            var applied := GroupCatalog.Apply(GroupCatalog.RunAll(GroupCatalog.EMPTY, GroupCommands(entries)), command);
            Responses(FRESH, hash, entries + [next]) ==
            Responses(FRESH, hash, entries) + [GroupCatalogApplied(applied.groups.revision, applied.outcome)]
  {
    hide GroupCatalog.Apply;
    GroupsAreRun(hash, entries);
    ApplySnoc(FRESH, hash, entries, next);
  }
}
