/**
 * The store told by its history. What a reachable store holds of events, documents and fences, which writes it accepts
 * and what it answers them are all read off the writes accepted so far, without looking at a store.
 */
module StoreHistory {
  import opened Base
  import opened Aggregate
  import opened Keys
  import opened StateMachine
  import opened ApplyRefinement
  import opened StoreInvariant
  import opened StoreReads
  import Group = AggregateGroup
  import Catalogs = AggregateCatalog
  import GroupCatalog

  // ---------------------------------------------------------------- reading a history

  /** The accepted appends of a partition, in order: position `q` is the append at index `q`. */
  function Appended(h: seq<Request>, ty: TypeId, p: nat): (r: seq<Request>)
    ensures forall i :: 0 <= i < |r| ==> r[i].Append? && r[i].ty == ty && r[i].partition == p
  {
    if h == [] then []
    else
      var before, last := Appended(h[..|h| - 1], ty, p), h[|h| - 1];
      if last.Append? && last.ty == ty && last.partition == p then before + [last] else before
  }

  /** How many of these appends belong to an instance. */
  function Count(appends: seq<Request>, a: Text): nat {
    if appends == [] then 0
    else
      var last := appends[|appends| - 1];
      Count(appends[..|appends| - 1], a) + (if last.Append? && last.aggregateId == a then 1 else 0)
  }

  /** The version of the append at a position: how many of its instance came before it. */
  function VersionAt(appends: seq<Request>, q: nat): nat
    requires q < |appends| && appends[q].Append?
  {
    Count(appends[..q], appends[q].aggregateId)
  }

  /** The position an event id was used at. */
  function UsedAt(appends: seq<Request>, id: Uuid): (r: Option<nat>)
    ensures r.Some? ==> r.value < |appends| && appends[r.value].Append? && appends[r.value].event.eventId == id
  {
    if appends == [] then None
    else
      var last := appends[|appends| - 1];
      if last.Append? && last.event.eventId == id then Some(|appends| - 1) else UsedAt(appends[..|appends| - 1], id)
  }

  /** The accepted documents of an instance, in order. */
  function Documents(h: seq<Request>, ty: TypeId, p: nat, a: Text): (r: seq<Request>)
    ensures forall i :: 0 <= i < |r| ==> r[i].PutState?
  {
    if h == [] then []
    else
      var before, last := Documents(h[..|h| - 1], ty, p, a), h[|h| - 1];
      if last.PutState? && last.ty == ty && last.partition == p && last.aggregateId == a then before + [last] else before
  }

  /** The last generation installed for a partition; every accepted one is higher than those before it. */
  function Generation(h: seq<Request>, ty: TypeId, p: nat): nat {
    if h == [] then 0
    else
      var last := h[|h| - 1];
      if last.InstallFence? && last.ty == ty && last.partition == p then last.generation
      else Generation(h[..|h| - 1], ty, p)
  }

  function FingerprintOf(hash: Catalogs.Hash, r: Request): nat
    requires r.Append?
  {
    hash(FingerprintInput(r.ty, r.aggregateId, r.expected, r.event))
  }

  // ---------------------------------------------------------------- what is accepted and what is answered

  /** What a write may expect of an instance that has taken `n` events. */
  predicate Expects(expected: ExpectedVersion, n: nat) {
    match expected
    case Any => true
    case NoAggregate => n == 0
    case AggregateExists => n > 0
    case Exact(version) => n == version + 1
  }

  predicate ExpectsDocument(expected: ExpectedRevision, n: nat) {
    match expected
    case Absent => n == 0
    case ExactRevision(revision) => n == revision + 1
  }

  predicate Write(r: Request) {
    r.Append? || r.PutState? || r.InstallFence?
  }

  predicate Proper(r: Request)
    requires Write(r)
  {
    && r.ty.Valid()
    && (r.InstallFence? ==> r.generation > 0)
    && (!r.InstallFence? ==> ValidIdentifier(r.aggregateId))
    && (r.Append? ==> r.event.eventType != [])
  }

  /** The write a store with this history takes. */
  predicate Allowed(h: seq<Request>, r: Request) {
    && Write(r) && Proper(r)
    && var appends := Appended(h, r.ty, r.partition);
       match r
       case Append(ty, p, generation, a, expected, event, _) =>
         && UsedAt(appends, event.eventId).None? && generation == Generation(h, ty, p)
         && Expects(expected, Count(appends, a)) && Count(appends, a) <= U64_MAX && |appends| < U64_MAX
       case PutState(ty, p, generation, a, revision, _, _) =>
         && generation == Generation(h, ty, p) && Count(appends, a) > 0
         && ExpectsDocument(revision, |Documents(h, ty, p, a)|) && |Documents(h, ty, p, a)| <= U64_MAX
       case InstallFence(ty, p, generation) => generation > Generation(h, ty, p)
       case _ => false
  }

  function LastOf(n: nat): Option<nat> {
    if n == 0 then None else Some(n - 1)
  }

  function ToldAppend(h: seq<Request>, hash: Catalogs.Hash, r: Request): Response
    requires r.Append?
  {
    var appends := Appended(h, r.ty, r.partition);
    var used, n := UsedAt(appends, r.event.eventId), Count(appends, r.aggregateId);
    if !Proper(r) then Invalid
    else if used.Some? then
      if FingerprintOf(hash, appends[used.value]) == FingerprintOf(hash, r) then
        AppendOk(VersionAt(appends, used.value), used.value)
      else IdempotencyConflict
    else if r.generation != Generation(h, r.ty, r.partition) then Fenced(Generation(h, r.ty, r.partition))
    else if !Expects(r.expected, n) then OptimisticConflict(LastOf(n))
    else if Allowed(h, r) then AppendOk(n, |appends|)
    else Invalid
  }

  function ToldDocument(h: seq<Request>, r: Request): Response
    requires r.PutState?
  {
    var n := |Documents(h, r.ty, r.partition, r.aggregateId)|;
    if !Proper(r) then Invalid
    else if r.generation != Generation(h, r.ty, r.partition) then Fenced(Generation(h, r.ty, r.partition))
    else if Count(Appended(h, r.ty, r.partition), r.aggregateId) == 0 then AggregateNotFound
    else if !ExpectsDocument(r.revision, n) then StateConflict(LastOf(n))
    else if Allowed(h, r) then StateStored(AggregateState(n, r.data), r.hlc)
    else Invalid
  }

  /** The answer to a write. */
  function Told(h: seq<Request>, hash: Catalogs.Hash, r: Request): Response
    requires Write(r)
  {
    match r
    case Append(_, _, _, _, _, _, _) => ToldAppend(h, hash, r)
    case PutState(_, _, _, _, _, _, _) => ToldDocument(h, r)
    case InstallFence(ty, p, generation) =>
      if Proper(r) then FenceInstalled(Max(Generation(h, ty, p), generation)) else Invalid
  }

  function After(h: seq<Request>, e: Entry): seq<Request> {
    if e.payload.Normal? && Allowed(h, e.payload.request) then h + [e.payload.request] else h
  }

  /** The history of a log: the writes accepted, one after the other. */
  function History(entries: seq<Entry>): seq<Request> {
    if entries == [] then [] else After(History(entries[..|entries| - 1]), entries[|entries| - 1])
  }

  // ---------------------------------------------------------------- the store holds what the history says

  /** An event carries what was asked for, with the version and position it was given. */
  predicate Carries(event: StoredEvent, r: Request, version: nat, position: nat) {
    && r.Append?
    && event.aggregateType == r.ty && event.partition == r.partition && event.aggregateId == r.aggregateId
    && event.version == version && event.position == position
    && event.eventId == r.event.eventId && event.eventType == r.event.eventType
    && event.data == r.event.data && event.metadata == r.event.metadata && event.hlc == r.hlc
  }

  ghost predicate Tells(events: seq<StoredEvent>, appends: seq<Request>) {
    && |events| == |appends|
    && forall q :: 0 <= q < |appends| ==> appends[q].Append? && Carries(events[q], appends[q], VersionAt(appends, q), q)
  }

  function RecordIn(appends: seq<Request>, hash: Catalogs.Hash, id: Uuid): Option<Value> {
    var used := UsedAt(appends, id);
    if used.None? then None
    else Some(Record(FingerprintOf(hash, appends[used.value]), VersionAt(appends, used.value), used.value))
  }

  ghost predicate EventsReflect(n: Node, hash: Catalogs.Hash, h: seq<Request>, ty: TypeId, p: nat) {
    var appends := Appended(h, ty, p);
    && Tells(Announced(n.sent, ty, p), appends)
    && (forall a :: VersionOf(n.store, ty, p, a) == LastOf(Count(appends, a)))
    && (forall id :: RecordOf(n.store, ty, p, id) == RecordIn(appends, hash, id))
  }

  /** When the document of an instance was last written. */
  function ModifiedOf(s: Store, ty: TypeId, p: nat, a: Text): Option<Hlc> {
    var k := StateModifiedKey(ty, p, a);
    if k in s && s[k].ModifiedAt? then Some(s[k].hlc) else None
  }

  function DocumentIn(documents: seq<Request>): Option<AggregateState>
    requires forall i :: 0 <= i < |documents| ==> documents[i].PutState?
  {
    if documents == [] then None else Some(AggregateState(|documents| - 1, documents[|documents| - 1].data))
  }

  function WrittenIn(documents: seq<Request>): Option<Hlc>
    requires forall i :: 0 <= i < |documents| ==> documents[i].PutState?
  {
    if documents == [] then None else Some(documents[|documents| - 1].hlc)
  }

  ghost predicate StatesReflect(s: Store, h: seq<Request>, ty: TypeId, p: nat) {
    && (forall a :: StateOf(s, ty, p, a) == DocumentIn(Documents(h, ty, p, a)))
    && (forall a :: ModifiedOf(s, ty, p, a) == WrittenIn(Documents(h, ty, p, a)))
  }

  ghost predicate Reflects(n: Node, hash: Catalogs.Hash, h: seq<Request>) {
    && Good(n)
    && (forall ty, p :: EventsReflect(n, hash, h, ty, p))
    && (forall ty, p :: StatesReflect(n.store, h, ty, p))
    && (forall ty, p :: FenceOf(n.store, ty, p) == Generation(h, ty, p))
  }

  // ---------------------------------------------------------------- one more write

  lemma ReadSnoc(h: seq<Request>, r: Request, ty: TypeId, p: nat, a: Text)
    ensures Appended(h + [r], ty, p) ==
            if r.Append? && r.ty == ty && r.partition == p then Appended(h, ty, p) + [r] else Appended(h, ty, p)
    ensures Documents(h + [r], ty, p, a) ==
            if r.PutState? && r.ty == ty && r.partition == p && r.aggregateId == a then Documents(h, ty, p, a) + [r]
            else Documents(h, ty, p, a)
    ensures Generation(h + [r], ty, p) ==
            if r.InstallFence? && r.ty == ty && r.partition == p then r.generation else Generation(h, ty, p)
  {
    assert (h + [r])[..|h|] == h;
  }

  lemma AppendsSnoc(appends: seq<Request>, r: Request, a: Text, id: Uuid)
    requires r.Append?
    ensures Count(appends + [r], a) == Count(appends, a) + (if r.aggregateId == a then 1 else 0)
    ensures UsedAt(appends + [r], id) == if r.event.eventId == id then Some(|appends|) else UsedAt(appends, id)
  {
    assert (appends + [r])[..|appends|] == appends;
  }

  lemma VersionAtSnoc(appends: seq<Request>, r: Request, q: nat)
    requires r.Append? && q <= |appends| && (q < |appends| ==> appends[q].Append?)
    ensures VersionAt(appends + [r], q) == if q < |appends| then VersionAt(appends, q) else Count(appends, r.aggregateId)
  {
    assert (appends + [r])[..q] == appends[..q];
    assert appends[..|appends|] == appends;
  }

  lemma TellsSnoc(events: seq<StoredEvent>, appends: seq<Request>, event: StoredEvent, r: Request)
    requires Tells(events, appends) && r.Append?
    requires Carries(event, r, Count(appends, r.aggregateId), |appends|)
    ensures Tells(events + [event], appends + [r])
  {
    var more := appends + [r];
    forall q | 0 <= q < |more| ensures more[q].Append? && Carries((events + [event])[q], more[q], VersionAt(more, q), q) {
      VersionAtSnoc(appends, r, q);
    }
  }

  lemma RecordSnoc(appends: seq<Request>, r: Request, hash: Catalogs.Hash, id: Uuid)
    requires r.Append?
    ensures RecordIn(appends + [r], hash, id) ==
            if r.event.eventId == id then Some(Record(FingerprintOf(hash, r), Count(appends, r.aggregateId), |appends|))
            else RecordIn(appends, hash, id)
  {
    AppendsSnoc(appends, r, r.aggregateId, id);
    VersionAtSnoc(appends, r, |appends|);
    if UsedAt(appends, id).Some? {
      VersionAtSnoc(appends, r, UsedAt(appends, id).value);
    }
    hide UsedAt, VersionAt, Count, FingerprintOf;
  }

  // ---------------------------------------------------------------- what is answered

  /** The reads a decision makes are what the history says. */
  lemma ReadsAre(n: Node, hash: Catalogs.Hash, h: seq<Request>, ty: TypeId, p: nat)
    requires Reflects(n, hash, h)
    ensures EventsReflect(n, hash, h, ty, p) && StatesReflect(n.store, h, ty, p)
    ensures NextOf(n.store, ty, p) == |Appended(h, ty, p)|
    ensures FenceOf(n.store, ty, p) == Generation(h, ty, p)
  {
    hide AllSound, Conserved, EventsReflect, StatesReflect, FenceOf, Generation, Appended, Announced;
    assert SentIsLog(n, ty, p);
    assert EventsReflect(n, hash, h, ty, p);
    EventsCount(n, hash, h, ty, p);
  }

  lemma EventsCount(n: Node, hash: Catalogs.Hash, h: seq<Request>, ty: TypeId, p: nat)
    requires EventsReflect(n, hash, h, ty, p)
    ensures |Announced(n.sent, ty, p)| == |Appended(h, ty, p)|
  {
    hide Announced, Appended, VersionOf, RecordOf, Count, RecordIn;
  }

  lemma MatchesIsExpects(expected: ExpectedVersion, n: nat)
    ensures VersionMatches(expected, LastOf(n)) <==> Expects(expected, n)
    ensures NextVersion(LastOf(n)) == n
  {
  }

  lemma AppendTold(n: Node, hash: Catalogs.Hash, h: seq<Request>, r: Request)
    requires Reflects(n, hash, h) && r.Append?
    ensures Appends(n.store, hash, r) <==> Allowed(h, r)
    ensures Decide(n.store, hash, r).response == Told(h, hash, r)
  {
    ReadsAre(n, hash, h, r.ty, r.partition);
    var appends := Appended(h, r.ty, r.partition);
    MatchesIsExpects(r.expected, Count(appends, r.aggregateId));
    assert VersionOf(n.store, r.ty, r.partition, r.aggregateId) == LastOf(Count(appends, r.aggregateId));
    assert RecordOf(n.store, r.ty, r.partition, r.event.eventId) == RecordIn(appends, hash, r.event.eventId);
    hide Reflects, EventsReflect, StatesReflect, VersionOf, RecordOf, NextOf, FenceOf, Generation, Appended, Count;
    hide UsedAt, AppendPuts, StoredAt, TypeId.Valid, ValidIdentifier, VersionMatches, Expects, NextVersion, VersionAt;
    hide FingerprintInput, LastOf;
  }

  lemma DocumentReads(n: Node, hash: Catalogs.Hash, h: seq<Request>, ty: TypeId, p: nat, a: Text)
    requires Reflects(n, hash, h)
    ensures VersionOf(n.store, ty, p, a).None? <==> Count(Appended(h, ty, p), a) == 0
    ensures StateOf(n.store, ty, p, a) == DocumentIn(Documents(h, ty, p, a))
    ensures FenceOf(n.store, ty, p) == Generation(h, ty, p)
  {
    ReadsAre(n, hash, h, ty, p);
    hide Reflects, VersionOf, StateOf, RecordOf, Appended, Documents, Count, Generation, FenceOf, ModifiedOf, Tells;
    assert VersionOf(n.store, ty, p, a) == LastOf(Count(Appended(h, ty, p), a));
  }

  lemma DocumentTold(n: Node, hash: Catalogs.Hash, h: seq<Request>, r: Request)
    requires Reflects(n, hash, h) && r.PutState?
    ensures DecidePutState(n.store, r).response.StateStored? <==> Allowed(h, r)
    ensures Decide(n.store, hash, r).response == Told(h, hash, r)
  {
    hide Reflects, VersionOf, FenceOf, Generation, Appended, Count, StateOf, Documents, TypeId.Valid, ValidIdentifier;
    DocumentReads(n, hash, h, r.ty, r.partition, r.aggregateId);
  }

  lemma FenceTold(n: Node, hash: Catalogs.Hash, h: seq<Request>, r: Request)
    requires Reflects(n, hash, h) && r.InstallFence?
    ensures Decide(n.store, hash, r).response == Told(h, hash, r)
  {
    ReadsAre(n, hash, h, r.ty, r.partition);
    hide Reflects, EventsReflect, StatesReflect, NextOf, FenceOf, Generation, Appended, TypeId.Valid;
  }

  // ---------------------------------------------------------------- what is written

  /** Only an accepted fence changes a fence. */
  lemma FenceAfter(s: Store, hash: Catalogs.Hash, r: Request, x: Value, ty: TypeId, p: nat)
    ensures FenceOf((s + Decide(s, hash, r).puts)[AppliedState := x], ty, p) ==
            if r.InstallFence? && r.ty == ty && r.partition == p && r.ty.Valid() && r.generation > FenceOf(s, ty, p)
            then r.generation else FenceOf(s, ty, p)
  {
    hide VersionOf, StateOf, NextOf, RecordOf, ProgressOf, CatalogOf, GroupsOf;
    hide StoredAt, Fingerprint, TypeId.Valid, Group.Settings.Valid, Group.Execute, Catalogs.Apply, GroupCatalog.Apply;
  }

  predicate Stores(s: Store, r: Request, ty: TypeId, p: nat, a: Text) {
    && r.PutState? && r.ty == ty && r.partition == p && r.aggregateId == a
    && DecidePutState(s, r).response.StateStored?
  }

  /** Only a stored document changes a document, to the one answered. */
  lemma StateAfter(s: Store, hash: Catalogs.Hash, r: Request, x: Value, ty: TypeId, p: nat, a: Text)
    ensures var t := (s + Decide(s, hash, r).puts)[AppliedState := x];
            if Stores(s, r, ty, p, a) then
              && StateOf(t, ty, p, a) == Some(DecidePutState(s, r).response.state)
              && ModifiedOf(t, ty, p, a) == Some(DecidePutState(s, r).response.hlc)
            else
              StateOf(t, ty, p, a) == StateOf(s, ty, p, a) && ModifiedOf(t, ty, p, a) == ModifiedOf(s, ty, p, a)
  {
    hide VersionOf, NextOf, RecordOf, FenceOf, ProgressOf, CatalogOf, GroupsOf;
    hide StoredAt, Fingerprint, TypeId.Valid, Group.Settings.Valid, Group.Execute, Catalogs.Apply, GroupCatalog.Apply;
  }

  lemma EntryFences(n: Node, hash: Catalogs.Hash, h: seq<Request>, e: Entry, ty: TypeId, p: nat)
    requires Reflects(n, hash, h)
    ensures FenceOf(ApplyEntry(n, hash, e).store, ty, p) == Generation(After(h, e), ty, p)
  {
    hide Good, EventsReflect, StatesReflect, FenceOf, Generation, Decide;
    assert FenceOf(n.store, ty, p) == Generation(h, ty, p);
    if e.payload.Normal? {
      var r := e.payload.request;
      var x := Applied(Some(e.logId), MembershipAfter(n.membership, e));
      FenceAfter(n.store, hash, r, x, ty, p);
      ReadSnoc(h, r, ty, p, []);
      hide Appended, Documents, UsedAt, Count, Expects, ExpectsDocument, TypeId.Valid, ValidIdentifier;
    } else {
      SameFence(n.store, Applied(Some(e.logId), MembershipAfter(n.membership, e)), ty, p);
    }
  }

  lemma SameFence(s: Store, x: Value, ty: TypeId, p: nat)
    ensures FenceOf((s + map[])[AppliedState := x], ty, p) == FenceOf(s, ty, p)
    ensures forall a :: StateOf((s + map[])[AppliedState := x], ty, p, a) == StateOf(s, ty, p, a)
    ensures forall a :: ModifiedOf((s + map[])[AppliedState := x], ty, p, a) == ModifiedOf(s, ty, p, a)
  {
  }

  lemma EntryStates(n: Node, hash: Catalogs.Hash, h: seq<Request>, e: Entry, ty: TypeId, p: nat)
    requires Reflects(n, hash, h)
    ensures StatesReflect(ApplyEntry(n, hash, e).store, After(h, e), ty, p)
  {
    var x := Applied(Some(e.logId), MembershipAfter(n.membership, e));
    SameFence(n.store, x, ty, p);
    hide Good, EventsReflect, FenceOf, Generation, Decide, StateOf, ModifiedOf;
    assert StatesReflect(n.store, h, ty, p);
    if e.payload.Normal? {
      var r := e.payload.request;
      var t := ApplyEntry(n, hash, e).store;
      assert t == (n.store + Decide(n.store, hash, r).puts)[AppliedState := x];
      forall a: Text
        ensures StateOf(t, ty, p, a) == DocumentIn(Documents(After(h, e), ty, p, a))
        ensures ModifiedOf(t, ty, p, a) == WrittenIn(Documents(After(h, e), ty, p, a))
      {
        StateAfter(n.store, hash, r, x, ty, p, a);
        OneState(n, hash, h, e, ty, p, a);
      }
    }
  }

  lemma OneState(n: Node, hash: Catalogs.Hash, h: seq<Request>, e: Entry, ty: TypeId, p: nat, a: Text)
    requires Reflects(n, hash, h) && e.payload.Normal?
    ensures var r := e.payload.request;
            var documents := Documents(After(h, e), ty, p, a);
            if Stores(n.store, r, ty, p, a) then
              && DocumentIn(documents) == Some(DecidePutState(n.store, r).response.state)
              && WrittenIn(documents) == Some(DecidePutState(n.store, r).response.hlc)
            else documents == Documents(h, ty, p, a)
  {
    var r := e.payload.request;
    ReadSnoc(h, r, ty, p, a);
    hide Reflects, Documents, Appended, Generation;
    if r.PutState? {
      DocumentTold(n, hash, h, r);
      hide Allowed, DecidePutState;
      assert Decide(n.store, hash, r) == DecidePutState(n.store, r);
    }
  }

  lemma EntryEvents(n: Node, hash: Catalogs.Hash, h: seq<Request>, e: Entry, ty: TypeId, p: nat)
    requires Reflects(n, hash, h)
    ensures EventsReflect(ApplyEntry(n, hash, e), hash, After(h, e), ty, p)
  {
    hide Reflects, EventsReflect, ApplyEntry, Allowed, Appends, Good, AllSound;
    assert Good(n) && AllSound(n.store) && EventsReflect(n, hash, h, ty, p) by { GoodSound(n, hash, h, ty, p); }
    var m := ApplyEntry(n, hash, e);
    EntryShape(n, hash, e);
    hide AppendPuts, Accepted, SameFamilies, VersionOf, NextOf, StoredAt;
    if e.payload.Normal? && e.payload.request.Append? && Appends(n.store, hash, e.payload.request) {
      var r := e.payload.request;
      AppendTold(n, hash, h, r);
      StoredEvents(n, m, hash, h, r, ty, p);
    } else {
      AppendedSame(n, hash, h, e, ty, p);
      EventsFrame(n, m, hash, h, After(h, e), ty, p);
    }
  }

  lemma GoodSound(n: Node, hash: Catalogs.Hash, h: seq<Request>, ty: TypeId, p: nat)
    requires Reflects(n, hash, h)
    ensures Good(n) && AllSound(n.store) && EventsReflect(n, hash, h, ty, p)
  {
    hide AllSound, Conserved, SentIsLog, EventsReflect, StatesReflect;
  }

  /** A write that stores no event leaves the appends of the history alone. */
  lemma AppendedSame(n: Node, hash: Catalogs.Hash, h: seq<Request>, e: Entry, ty: TypeId, p: nat)
    requires Reflects(n, hash, h)
    requires !(e.payload.Normal? && Appends(n.store, hash, e.payload.request))
    ensures Appended(After(h, e), ty, p) == Appended(h, ty, p)
  {
    hide Reflects, Appended, Allowed, Appends;
    if e.payload.Normal? {
      ReadSnoc(h, e.payload.request, ty, p, []);
      if e.payload.request.Append? { AppendTold(n, hash, h, e.payload.request); }
    }
  }

  lemma EventsFrame(n: Node, m: Node, hash: Catalogs.Hash, h: seq<Request>, h': seq<Request>, ty: TypeId, p: nat)
    requires EventsReflect(n, hash, h, ty, p) && SameFamilies(n.store, m.store, ty, p)
    requires Announced(m.sent, ty, p) == Announced(n.sent, ty, p) && Appended(h', ty, p) == Appended(h, ty, p)
    ensures EventsReflect(m, hash, h', ty, p)
  {
    SameReads(n.store, m.store, ty, p);
    hide Announced, Appended, SameFamilies, VersionOf, RecordOf, NextOf, Count, RecordIn;
  }

  /** The announced event carries what was asked for. */
  lemma StoredCarries(r: Request, version: nat, position: nat)
    requires r.Append?
    ensures Carries(StoredAt(r, version, position), r, version, position)
  {
  }

  lemma StoredEvents(n: Node, m: Node, hash: Catalogs.Hash, h: seq<Request>, r: Request, ty: TypeId, p: nat)
    requires Reflects(n, hash, h) && Allowed(h, r) && r.Append?
    requires var version, position := NextVersion(VersionOf(n.store, r.ty, r.partition, r.aggregateId)),
                                      NextOf(n.store, r.ty, r.partition);
             && m.store == (n.store + AppendPuts(r, Fingerprint(hash, r.ty, r.aggregateId, r.expected, r.event), version,
                                                 position))[AppliedState := Applied(m.lastApplied, m.membership)]
             && m.sent == n.sent + [StoredAt(r, version, position)]
    ensures EventsReflect(m, hash, h + [r], ty, p)
  {
    ReadsAre(n, hash, h, r.ty, r.partition);
    var appends := Appended(h, r.ty, r.partition);
    var version, position := Count(appends, r.aggregateId), |appends|;
    assert VersionOf(n.store, r.ty, r.partition, r.aggregateId) == LastOf(version);
    MatchesIsExpects(r.expected, version);
    var event := StoredAt(r, version, position);
    var fingerprint := FingerprintOf(hash, r);
    var x := Applied(m.lastApplied, m.membership);
    StoredCarries(r, version, position);
    AnnouncedSnoc(n.sent, event, ty, p);
    ReadSnoc(h, r, ty, p, []);
    hide Allowed, StoredAt, Announced, Appended, Reflects, Count, VersionOf, RecordOf, NextOf, AppendPuts;
    if (ty, p) == (r.ty, r.partition) {
      AppendReads(n.store, r, fingerprint, version, position);
      NothingPut(n.store + AppendPuts(r, fingerprint, version, position), x, ty, p);
      OwnEvents(n, m, hash, h, r, event, n.store + AppendPuts(r, fingerprint, version, position));
    } else {
      GoodSound(n, hash, h, ty, p);
      hide EventsReflect;
      OtherPartition(n.store, r, fingerprint, version, position, ty, p);
      PutsFramed(n.store, AppendPuts(r, fingerprint, version, position), x, ty, p);
      EventsFrame(n, m, hash, h, h + [r], ty, p);
    }
  }

  lemma OwnEvents(n: Node, m: Node, hash: Catalogs.Hash, h: seq<Request>, r: Request, event: StoredEvent, t: Store)
    requires r.Append? && EventsReflect(n, hash, h, r.ty, r.partition)
    requires SameFamilies(t, m.store, r.ty, r.partition)
    requires Appended(h + [r], r.ty, r.partition) == Appended(h, r.ty, r.partition) + [r]
    requires Announced(m.sent, r.ty, r.partition) == Announced(n.sent, r.ty, r.partition) + [event]
    requires var appends := Appended(h, r.ty, r.partition);
             var version := Count(appends, r.aggregateId);
             && Carries(event, r, version, |appends|)
             && (forall a :: VersionOf(t, r.ty, r.partition, a) ==
                             if a == r.aggregateId then Some(version) else VersionOf(n.store, r.ty, r.partition, a))
             && (forall id :: RecordOf(t, r.ty, r.partition, id) ==
                              if id == r.event.eventId then Some(Record(FingerprintOf(hash, r), version, |appends|))
                              else RecordOf(n.store, r.ty, r.partition, id))
    ensures EventsReflect(m, hash, h + [r], r.ty, r.partition)
  {
    var ty, p, appends := r.ty, r.partition, Appended(h, r.ty, r.partition);
    SameReads(t, m.store, ty, p);
    hide Appended, Announced, SameFamilies, VersionOf, RecordOf, NextOf, RecordIn, Carries, HasEvent, HasPointer;
    TellsSnoc(Announced(n.sent, ty, p), appends, event, r);
    OwnVersions(n.store, m.store, appends, r);
    OwnRecords(n.store, m.store, appends, hash, r);
  }

  lemma OwnVersions(s: Store, t: Store, appends: seq<Request>, r: Request)
    requires r.Append?
    requires forall a :: VersionOf(s, r.ty, r.partition, a) == LastOf(Count(appends, a))
    requires forall a :: VersionOf(t, r.ty, r.partition, a) ==
                         if a == r.aggregateId then Some(Count(appends, a)) else VersionOf(s, r.ty, r.partition, a)
    ensures forall a :: VersionOf(t, r.ty, r.partition, a) == LastOf(Count(appends + [r], a))
  {
    hide VersionOf, Count;
    forall a ensures VersionOf(t, r.ty, r.partition, a) == LastOf(Count(appends + [r], a)) {
      AppendsSnoc(appends, r, a, 0);
      assert VersionOf(s, r.ty, r.partition, a) == LastOf(Count(appends, a));
    }
  }

  lemma OwnRecords(s: Store, t: Store, appends: seq<Request>, hash: Catalogs.Hash, r: Request)
    requires r.Append?
    requires forall id :: RecordOf(s, r.ty, r.partition, id) == RecordIn(appends, hash, id)
    requires forall id :: RecordOf(t, r.ty, r.partition, id) ==
                          if id == r.event.eventId
                          then Some(Record(FingerprintOf(hash, r), Count(appends, r.aggregateId), |appends|))
                          else RecordOf(s, r.ty, r.partition, id)
    ensures forall id :: RecordOf(t, r.ty, r.partition, id) == RecordIn(appends + [r], hash, id)
  {
    hide RecordOf, RecordIn, Count, FingerprintOf;
    forall id ensures RecordOf(t, r.ty, r.partition, id) == RecordIn(appends + [r], hash, id) {
      RecordSnoc(appends, r, hash, id);
      assert RecordOf(s, r.ty, r.partition, id) == RecordIn(appends, hash, id);
    }
  }

  // ---------------------------------------------------------------- every log

  lemma EntryReflects(n: Node, hash: Catalogs.Hash, h: seq<Request>, e: Entry)
    requires Reflects(n, hash, h)
    ensures Reflects(ApplyEntry(n, hash, e), hash, After(h, e))
  {
    var m := ApplyEntry(n, hash, e);
    OneGood(n, hash, e);
    forall ty, p ensures EventsReflect(m, hash, After(h, e), ty, p) { EntryEvents(n, hash, h, e, ty, p); }
    forall ty, p ensures StatesReflect(m.store, After(h, e), ty, p) { EntryStates(n, hash, h, e, ty, p); }
    forall ty, p ensures FenceOf(m.store, ty, p) == Generation(After(h, e), ty, p) { EntryFences(n, hash, h, e, ty, p); }
    hide Good, EventsReflect, StatesReflect, FenceOf, Generation, ApplyEntry, After;
  }

  lemma OneGood(n: Node, hash: Catalogs.Hash, e: Entry)
    requires Good(n)
    ensures Good(ApplyEntry(n, hash, e))
  {
    hide Good, ApplyEntry;
    assert [e][1..] == [];
    RunsKeepGood(n, hash, [e]);
  }

  lemma FreshReflects(hash: Catalogs.Hash)
    ensures Reflects(FRESH, hash, [])
  {
    FreshGood();
    hide Good;
  }

  lemma WriteTold(n: Node, hash: Catalogs.Hash, h: seq<Request>, r: Request)
    requires Reflects(n, hash, h) && Write(r)
    ensures Decide(n.store, hash, r).response == Told(h, hash, r)
  {
    hide Reflects, Decide, Told;
    match r
    case Append(_, _, _, _, _, _, _) => AppendTold(n, hash, h, r);
    case PutState(_, _, _, _, _, _, _) => DocumentTold(n, hash, h, r);
    case InstallFence(_, _, _) => FenceTold(n, hash, h, r);
  }

  lemma {:induction false} LogReflects(hash: Catalogs.Hash, entries: seq<Entry>)
    ensures Reflects(ApplyEntries(FRESH, hash, entries), hash, History(entries))
    decreases |entries|
  {
    hide Reflects, ApplyEntry, After;
    if entries == [] {
      FreshReflects(hash);
    } else {
      var before, last := entries[..|entries| - 1], entries[|entries| - 1];
      assert entries == before + [last];
      LogReflects(hash, before);
      ApplySnoc(FRESH, hash, before, last);
      EntryReflects(ApplyEntries(FRESH, hash, before), hash, History(before), last);
    }
  }

  /**
   * A store is its history. After any log from an empty node, in every partition: the announced events, and so the
   * stored ones, are the accepted appends in order, each carrying what was asked for, numbered by position and within
   * its instance by version; an event id is recorded for the append that used it; a document is the last one accepted,
   * numbered by how many there were; a fence is the last generation installed. And the next write, whatever it is, is
   * answered as the history alone tells.
   */
  lemma StoreIsHistory(hash: Catalogs.Hash, entries: seq<Entry>, next: Entry)
    ensures Reflects(ApplyEntries(FRESH, hash, entries), hash, History(entries))
    ensures |Responses(FRESH, hash, entries + [next])| == |entries| + 1
    ensures next.payload.Normal? && Write(next.payload.request) ==>
            Responses(FRESH, hash, entries + [next])[|entries|] == Told(History(entries), hash, next.payload.request)
  {
    hide Reflects, Told, Decide;
    var n := ApplyEntries(FRESH, hash, entries);
    LogReflects(hash, entries);
    ApplySnoc(FRESH, hash, entries, next);
    AnswersEach(FRESH, hash, entries);
    if next.payload.Normal? && Write(next.payload.request) {
      WriteTold(n, hash, History(entries), next.payload.request);
    }
  }

  lemma {:induction false} AnswersEach(n: Node, hash: Catalogs.Hash, entries: seq<Entry>)
    ensures |Responses(n, hash, entries)| == |entries|
    decreases entries
  {
    hide ApplyEntry, DecideEntry;
    if entries != [] { AnswersEach(ApplyEntry(n, hash, entries[0]), hash, entries[1..]); }
  }
}
