/**
 * The listing as the program runs it: a bounded scan per partition, a stable merge, a cut, and a token updated in
 * place.
 */
module StateListing {
  import opened Base
  import opened Aggregate
  import opened Keys
  import opened StateMachine
  import opened Lexicographic
  import opened RangeScan
  import opened StatePages
  import opened StoreKeys
  import opened StoreScans
  import Group = AggregateGroup
  import Catalogs = AggregateCatalog
  import GroupCatalog

  /** The instances of a partition that have a state document. */
  function StateIds(s: Store, ty: TypeId, p: nat): set<Text> {
    set k | k in s && k.StateKey? && k.ty == ty && k.partition == p :: k.aggregateId
  }

  /** The partitions of a type in the order they are asked. */
  function StoredStates(stores: seq<Store>, ty: TypeId, order: seq<(nat, nat)>): (states: States)
    requires forall i :: 0 <= i < |order| ==> order[i].0 < |stores|
    ensures |states| == |order|
  {
    seq(|order|, i requires 0 <= i < |order| => StateIds(stores[order[i].0], ty, order[i].1))
  }

  /**
   * The byte range a partition scan opens holds exactly the state keys of that partition that are past the
   * token, and walks them by instance id.
   */
  lemma ScanIsLeft(shard: nat, ty: TypeId, p: nat, after: Text, k: Key, j: Key)
    requires shard <= U64_MAX && ty.Valid() && p <= U16_MAX && k.Valid() && j.Valid()
    ensures var prefix := FamilyPrefix(shard, 0x0E, ty, p);
            var low := if after == [] then prefix else UpperIncluding(Encode(shard, StateKey(ty, p, after)));
            InRange(low, SuccessorOf(prefix), Encode(shard, k)) <==>
            k.StateKey? && k.ty == ty && k.partition == p && Past(after, k.aggregateId)
    ensures k.StateKey? && j.StateKey? && k.ty == j.ty == ty && k.partition == j.partition == p ==>
              (Less(Encode(shard, k), Encode(shard, j)) <==> Less(k.aggregateId, j.aggregateId))
  {
    if after == [] {
      FamilyScanExact(shard, 0x0E, ty, p, shard, k);
    } else {
      StateScanAfter(shard, ty, p, after, shard, k);
    }
    if k.StateKey? && j.StateKey? && k.ty == j.ty == ty && k.partition == j.partition == p {
      StateKeysById(shard, ty, p, k.aggregateId, j.aggregateId);
    }
    hide Encode, Less, SuccessorOf, FamilyPrefix, UpperIncluding;
  }

  // ---------------------------------------------------------------- documents

  datatype Document = Document(revision: nat, data: Bytes, modified: Hlc)

  const NO_TIME: Hlc := Hlc(0, 0)

  /** A listed state with its document. */
  datatype Row = Row(item: Item, document: Document)

  function ItemsOf(rows: seq<Row>): (items: seq<Item>)
    ensures |items| == |rows|
  {
    seq(|rows|, i requires 0 <= i < |rows| => rows[i].item)
  }

  predicate HasDocument(s: Store, ty: TypeId, p: nat, id: Text) {
    StateKey(ty, p, id) in s && s[StateKey(ty, p, id)].StateValue?
  }

  /** A state stored before modification times were kept has time zero. */
  function DocumentOf(s: Store, ty: TypeId, p: nat, id: Text): Document
    requires HasDocument(s, ty, p, id)
  {
    var state := s[StateKey(ty, p, id)].state;
    var key := StateModifiedKey(ty, p, id);
    Document(state.revision, state.data, if key in s && s[key].ModifiedAt? then s[key].hlc else NO_TIME)
  }

  /** Every state key names an instance, holds a document and has a modification time. */
  ghost predicate StatesKept(s: Store) {
    forall k :: k in s && k.StateKey? ==>
      && k.aggregateId != [] && s[k].StateValue?
      && StateModifiedKey(k.ty, k.partition, k.aggregateId) in s
      && s[StateModifiedKey(k.ty, k.partition, k.aggregateId)].ModifiedAt?
  }

  // ---------------------------------------------------------------- one partition

  function StateKeysOf(shard: nat, ty: TypeId, p: nat, items: seq<Item>): (r: seq<Bytes>)
    ensures |r| == |items|
  {
    seq(|items|, i requires 0 <= i < |items| => Encode(shard, StateKey(ty, p, items[i].id)))
  }

  function ScanStart(shard: nat, ty: TypeId, p: nat, after: Text): Bytes {
    if after == [] then FamilyPrefix(shard, 0x0E, ty, p) else UpperIncluding(Encode(shard, StateKey(ty, p, after)))
  }

  lemma ScanStartsInside(shard: nat, ty: TypeId, p: nat, after: Text)
    ensures AtMost(FamilyPrefix(shard, 0x0E, ty, p), ScanStart(shard, ty, p, after))
  {
    var prefix := FamilyPrefix(shard, 0x0E, ty, p);
    FamilyKey(shard, StateKey(ty, p, after));
    LessIrreflexive(prefix);
    if after != [] {
      var key := Encode(shard, StateKey(ty, p, after));
      UpperIncludingIsNext(key, UpperIncluding(key));
      LessIrreflexive(UpperIncluding(key));
      hide Encode, FamilyPrefix, Less, UpperIncluding;
      PrefixAtMost(prefix, after, UpperIncluding(key));
    }
  }

  lemma StateMember(tree: Tree, shard: nat, s: Store, ty: TypeId, p: nat, after: Text, b: Bytes)
    requires Carries(tree, shard, s) && ValidKeys(s) && shard <= U64_MAX && ty.Valid() && p <= U16_MAX
    ensures b in tree && InRange(ScanStart(shard, ty, p, after), SuccessorOf(FamilyPrefix(shard, 0x0E, ty, p)), b) <==>
            exists id :: id in StateIds(s, ty, p) && Past(after, id) && Encode(shard, StateKey(ty, p, id)) == b
  {
    hide SuccessorOf, Less, TypeId.Valid, InRange, AtMost, Encode, FamilyPrefix, Key.Valid, UpperIncluding, Past;
    var low, high := ScanStart(shard, ty, p, after), SuccessorOf(FamilyPrefix(shard, 0x0E, ty, p));
    if b in tree && InRange(low, high, b) {
      ScanStartsInside(shard, ty, p, after);
      ScannedIsStored(tree, shard, s, 0x0E, ty, p, low, b);
      var k :| k in s && Encode(shard, k) == b;
      ScanIsLeft(shard, ty, p, after, k, k);
      assert k.aggregateId in StateIds(s, ty, p);
    }
    if id :| id in StateIds(s, ty, p) && Past(after, id) && Encode(shard, StateKey(ty, p, id)) == b {
      assert StateKey(ty, p, id) in s;
      ScanIsLeft(shard, ty, p, after, StateKey(ty, p, id), StateKey(ty, p, id));
    }
  }

  lemma StateKeysMember(shard: nat, ty: TypeId, p: nat, ids: set<Text>, after: Text, rank: nat, b: Bytes)
    ensures b in StateKeysOf(shard, ty, p, Listing(Left(ids, after, rank))) <==>
            exists id :: id in ids && Past(after, id) && Encode(shard, StateKey(ty, p, id)) == b
  {
    hide Encode, Listing, Past;
    var left := Left(ids, after, rank);
    var items := Listing(left);
    var keys := StateKeysOf(shard, ty, p, items);
    ListingFacts(left);
    if b in keys {
      var i :| 0 <= i < |keys| && keys[i] == b;
      assert items[i] in items;
    }
    if id :| id in ids && Past(after, id) && Encode(shard, StateKey(ty, p, id)) == b {
      assert Item(rank, id) in left;
      assert Item(rank, id) in items;
      var i :| 0 <= i < |items| && items[i] == Item(rank, id);
      assert keys[i] == b;
    }
  }

  lemma StateKeysRise(shard: nat, ty: TypeId, p: nat, ids: set<Text>, after: Text, rank: nat)
    ensures Rising(StateKeysOf(shard, ty, p, Listing(Left(ids, after, rank))))
  {
    hide Encode, Listing, Less;
    var items := Listing(Left(ids, after, rank));
    var keys := StateKeysOf(shard, ty, p, items);
    ListingFacts(Left(ids, after, rank));
    forall i, j | 0 <= i < j < |keys| ensures Less(keys[i], keys[j]) {
      assert items[i] in items && items[j] in items;
      StateKeysById(shard, ty, p, items[i].id, items[j].id);
    }
  }

  /** The byte range a partition scan opens is what the partition still has to list, in listing order. */
  lemma StateWalk(tree: Tree, shard: nat, s: Store, ty: TypeId, p: nat, after: Text, rank: nat)
    requires Carries(tree, shard, s) && ValidKeys(s) && shard <= U64_MAX && ty.Valid() && p <= U16_MAX
    ensures SuccessorOf(FamilyPrefix(shard, 0x0E, ty, p)).Some?
    ensures Sorted(Between(tree, ScanStart(shard, ty, p, after), SuccessorOf(FamilyPrefix(shard, 0x0E, ty, p)).value))
            == StateKeysOf(shard, ty, p, Listing(Left(StateIds(s, ty, p), after, rank)))
  {
    hide SuccessorOf, Less, TypeId.Valid, Encode, FamilyPrefix, Listing, Left, StateIds, Carries, ValidKeys, Sorted;
    hide Rising, StateKeysOf, ScanStart;
    FamilyInRegion(shard, 0x0E, ty, p);
    var low, high := ScanStart(shard, ty, p, after), SuccessorOf(FamilyPrefix(shard, 0x0E, ty, p));
    var keys := StateKeysOf(shard, ty, p, Listing(Left(StateIds(s, ty, p), after, rank)));
    StateKeysRise(shard, ty, p, StateIds(s, ty, p), after, rank);
    forall b ensures b in keys <==> b in Between(tree, low, high.value) {
      StateMember(tree, shard, s, ty, p, after, b);
      StateKeysMember(shard, ty, p, StateIds(s, ty, p), after, rank, b);
    }
    RisingIsSorted(keys, Between(tree, low, high.value));
  }

  /** What a partition answers: all it has left for limit zero, and its first `limit` items otherwise. */
  function Quota(left: set<Item>, limit: nat): seq<Item> {
    if limit == 0 then Listing(left) else Top(left, limit)
  }

  lemma QuotaIsCut(left: set<Item>, limit: nat)
    ensures |Listing(left)| == |left|
    ensures Quota(left, limit) == Listing(left)[..Kept(|left|, limit)]
  {
    hide Top;
    TopFacts(left, |left|);
    TopFacts(left, limit);
    if limit != 0 && limit <= |left| {
      TopPrefix(left, limit, |left|);
    } else if limit != 0 {
      TopPrefix(left, |left|, limit);
    }
  }

  /** What the tree says about a key of the store, present or not. */
  lemma CarriedKey(tree: Tree, shard: nat, s: Store, k: Key)
    requires Carries(tree, shard, s) && ValidKeys(s) && shard <= U64_MAX && k.Valid() && k.Tag() == TAG_SM
    ensures Encode(shard, k) in tree <==> k in s
    ensures k in s ==> tree[Encode(shard, k)] == s[k]
  {
    OthersOutside(shard, shard, k);
    hide Encode, RegionPrefix, Key.Valid, Key.Tag;
    if Encode(shard, k) in tree {
      var j :| j in s && Encode(shard, j) == Encode(shard, k);
      EncodeInjective(shard, j, shard, k);
    }
  }

  /** Decodes one entry of the scan and looks up its modification time. */
  method Describe(tree: Tree, shard: nat, ty: TypeId, p: nat, rank: nat, key: Bytes, ghost s: Store,
                  ghost id: Text) returns (row: Option<Row>)
    requires Carries(tree, shard, s) && ValidKeys(s) && shard <= U64_MAX && StateKey(ty, p, id) in s
    requires key == Encode(shard, StateKey(ty, p, id)) && key in tree
    ensures row.Some? <==> HasDocument(s, ty, p, id)
    ensures row.Some? ==> row.value == Row(Item(rank, id), DocumentOf(s, ty, p, id))
  {
    hide Encode, DecodeStateKey, Carries;
    assert StateKey(ty, p, id).Valid();
    StateKeyRoundTrip(shard, ty, p, id);
    CarriedKey(tree, shard, s, StateKey(ty, p, id));
    CarriedKey(tree, shard, s, StateModifiedKey(ty, p, id));
    var name := DecodeStateKey(key).value;
    var value := tree[key];
    if !value.StateValue? {
      return None;
    }
    var modified := Encode(shard, StateModifiedKey(ty, p, name));
    var time := if modified in tree && tree[modified].ModifiedAt? then tree[modified].hlc else NO_TIME;
    return Some(Row(Item(rank, name), Document(value.state.revision, value.state.data, time)));
  }

  predicate Describes(s: Store, ty: TypeId, p: nat, row: Row) {
    HasDocument(s, ty, p, row.item.id) && row.document == DocumentOf(s, ty, p, row.item.id)
  }

  ghost predicate Documented(s: Store, ty: TypeId, p: nat, rows: seq<Row>) {
    forall i :: 0 <= i < |rows| ==> Describes(s, ty, p, rows[i])
  }

  /** A partition's states after an id, at most `limit` of them; zero means no limit. */
  method ListPartitionStates(tree: Tree, shard: nat, ty: TypeId, p: nat, after: Text, rank: nat, limit: nat,
                             ghost s: Store)
      returns (r: Option<seq<Row>>)
    requires Carries(tree, shard, s) && ValidKeys(s) && shard <= U64_MAX && ty.Valid() && p <= U16_MAX
    ensures r.Some? ==>
            ItemsOf(r.value) == Quota(Left(StateIds(s, ty, p), after, rank), limit) && Documented(s, ty, p, r.value)
    ensures StatesKept(s) ==> r.Some?
  {
    hide SuccessorOf, FamilyPrefix, Encode, ScanStart, Between, Sorted, Listing, Left, StateIds, Carries, ValidKeys;
    hide TypeId.Valid, Quota;
    hide StateKeysOf, HasDocument, DocumentOf;
    StateWalk(tree, shard, s, ty, p, after, rank);
    ghost var left := Left(StateIds(s, ty, p), after, rank);
    QuotaIsCut(left, limit);
    var keys := ScanKeys(tree, ScanStart(shard, ty, p, after), SuccessorOf(FamilyPrefix(shard, 0x0E, ty, p)).value,
                         false, limit);
    var rows := [];
    for i := 0 to |keys|
      invariant |rows| == i && Documented(s, ty, p, rows)
      invariant forall j :: 0 <= j < i ==> rows[j].item == Listing(left)[j]
    {
      ListedAt(tree, shard, s, ty, p, after, rank, i);
      var row := Describe(tree, shard, ty, p, rank, keys[i], s, Listing(left)[i].id);
      if row.None? {
        KeptHasDocument(s, ty, p, Listing(left)[i].id);
        return None;
      }
      rows := rows + [row.value];
    }
    assert ItemsOf(rows) == Listing(left)[..|keys|];
    return Some(rows);
  }

  lemma KeptHasDocument(s: Store, ty: TypeId, p: nat, id: Text)
    requires StateKey(ty, p, id) in s
    ensures StatesKept(s) ==> HasDocument(s, ty, p, id)
  {
  }

  lemma ListedAt(tree: Tree, shard: nat, s: Store, ty: TypeId, p: nat, after: Text, rank: nat, i: nat)
    requires Carries(tree, shard, s) && i < |Listing(Left(StateIds(s, ty, p), after, rank))|
    ensures var item := Listing(Left(StateIds(s, ty, p), after, rank))[i];
            && item.rank == rank && StateKey(ty, p, item.id) in s && Encode(shard, StateKey(ty, p, item.id)) in tree
            && StateKeysOf(shard, ty, p, Listing(Left(StateIds(s, ty, p), after, rank)))[i] ==
               Encode(shard, StateKey(ty, p, item.id))
  {
    hide Encode, Listing, Past;
    var left := Left(StateIds(s, ty, p), after, rank);
    ListingFacts(left);
    assert Listing(left)[i] in Listing(left);
  }

  // ---------------------------------------------------------------- all partitions

  /** The shards' trees carry their stores, and the partitions to ask name them. */
  ghost predicate Served(trees: seq<Tree>, shards: seq<nat>, stores: seq<Store>, order: seq<(nat, nat)>) {
    && |trees| == |shards| == |stores|
    && (forall i :: 0 <= i < |trees| ==>
       Carries(trees[i], shards[i], stores[i]) && ValidKeys(stores[i]) && shards[i] <= U64_MAX)
    && (forall i :: 0 <= i < |order| ==> order[i].0 < |trees| && order[i].1 <= U16_MAX)
  }

  ghost predicate AllDocumented(stores: seq<Store>, ty: TypeId, order: seq<(nat, nat)>, rows: seq<Row>)
    requires forall i :: 0 <= i < |order| ==> order[i].0 < |stores|
  {
    forall i :: 0 <= i < |rows| ==>
      && rows[i].item.rank < |order|
      && Describes(stores[order[rows[i].item.rank].0], ty, order[rows[i].item.rank].1, rows[i])
  }

  lemma DocumentedHere(stores: seq<Store>, ty: TypeId, order: seq<(nat, nat)>, rank: nat, rows: seq<Row>,
                       ids: set<Text>, after: Text, limit: nat)
    requires forall i :: 0 <= i < |order| ==> order[i].0 < |stores|
    requires rank < |order| && Documented(stores[order[rank].0], ty, order[rank].1, rows) &&
             ItemsOf(rows) == Quota(Left(ids, after, rank), limit)
    ensures AllDocumented(stores, ty, order, rows)
  {
    hide Describes, Top, Past;
    TopFacts(Left(ids, after, rank), limit);
    TopFacts(Left(ids, after, rank), |Left(ids, after, rank)|);
    forall i | 0 <= i < |rows| ensures rows[i].item.rank == rank {
      assert ItemsOf(rows)[i] in ItemsOf(rows);
    }
  }

  lemma DocumentedConcat(stores: seq<Store>, ty: TypeId, order: seq<(nat, nat)>, a: seq<Row>, b: seq<Row>)
    requires forall i :: 0 <= i < |order| ==> order[i].0 < |stores|
    requires AllDocumented(stores, ty, order, a) && AllDocumented(stores, ty, order, b)
    ensures AllDocumented(stores, ty, order, a + b) && ItemsOf(a + b) == ItemsOf(a) + ItemsOf(b)
  {
    hide Describes;
  }

  /** Asks every partition in turn for one more than a page. */
  method FetchAll(trees: seq<Tree>, shards: seq<nat>, order: seq<(nat, nat)>, ty: TypeId, token: Token, limit: nat,
                  ghost stores: seq<Store>)
      returns (all: Option<seq<Row>>)
    requires Served(trees, shards, stores, order) && ty.Valid() && |token| == |order| && limit > 0
    ensures all.Some? ==> ItemsOf(all.value) == Fetched(StoredStates(stores, ty, order), token, limit, 0)
    ensures all.Some? ==> AllDocumented(stores, ty, order, all.value)
    ensures (forall i :: 0 <= i < |stores| ==> StatesKept(stores[i])) ==> all.Some?
  {
    hide Top, Left, Carries, ValidKeys, TypeId.Valid, StatesKept, StateIds, Documented, ItemsOf, AllDocumented;
    ghost var states := StoredStates(stores, ty, order);
    var rows := [];
    NothingFetched(stores, ty, order);
    for i := 0 to |order|
      invariant ItemsOf(rows) + Fetched(states, token, limit, i) == Fetched(states, token, limit, 0)
      invariant AllDocumented(stores, ty, order, rows)
    {
      var at := order[i];
      var part := ListPartitionStates(trees[at.0], shards[at.0], ty, at.1, token[i], i, limit, stores[at.0]);
      if part.None? {
        return None;
      }
      DocumentedHere(stores, ty, order, i, part.value, states[i], token[i], limit);
      DocumentedConcat(stores, ty, order, rows, part.value);
      AssocItems(ItemsOf(rows), ItemsOf(part.value), Fetched(states, token, limit, i + 1));
      rows := rows + part.value;
    }
    AssocItems(ItemsOf(rows), [], []);
    return Some(rows);
  }

  lemma NothingFetched(stores: seq<Store>, ty: TypeId, order: seq<(nat, nat)>)
    requires forall i :: 0 <= i < |order| ==> order[i].0 < |stores|
    ensures ItemsOf([]) == [] && AllDocumented(stores, ty, order, [])
    ensures forall r: seq<Item> :: [] + r == r
  {
  }

  lemma AssocItems(a: seq<Item>, b: seq<Item>, c: seq<Item>)
    ensures (a + b) + c == a + (b + c) && a + [] == a
  {
  }

  // ---------------------------------------------------------------- the stable sort

  /** Where a row goes: after every row whose id is not greater. */
  method Place(rows: seq<Row>, x: Row) returns (j: nat)
    ensures j <= |rows|
    ensures InsertById(ItemsOf(rows), x.item) == ItemsOf(rows[..j]) + [x.item] + ItemsOf(rows[j..])
  {
    hide Less;
    var items := ItemsOf(rows);
    j := |rows|;
    assert items[..j] == items && items[j..] == [];
    while j > 0 && Less(x.item.id, rows[j - 1].item.id)
      invariant j <= |rows| && InsertById(items, x.item) == InsertById(items[..j], x.item) + items[j..]
    {
      InsertBack(items, x.item, j);
      j := j - 1;
    }
    assert ItemsOf(rows[..j]) == items[..j] && ItemsOf(rows[j..]) == items[j..];
  }

  lemma InsertBack(items: seq<Item>, x: Item, j: nat)
    requires 0 < j <= |items| && Less(x.id, items[j - 1].id)
    ensures InsertById(items[..j], x) + items[j..] == InsertById(items[..j - 1], x) + items[j - 1..]
  {
    hide Less;
    assert items[..j][..j - 1] == items[..j - 1];
    assert items[j - 1..] == [items[j - 1]] + items[j..];
    assert (InsertById(items[..j - 1], x) + [items[j - 1]]) + items[j..] ==
      InsertById(items[..j - 1], x) + ([items[j - 1]] + items[j..]);
  }

  /** Sorts rows by id; rows with one id keep the order they came in. */
  method SortRows(rows: seq<Row>) returns (sorted: seq<Row>)
    ensures ItemsOf(sorted) == SortById(ItemsOf(rows))
    ensures forall r :: r in sorted ==> r in rows
  {
    hide InsertById;
    sorted := [];
    assert ItemsOf(rows[..0]) == [];
    for i := 0 to |rows|
      invariant ItemsOf(sorted) == SortById(ItemsOf(rows[..i]))
      invariant forall r :: r in sorted ==> r in rows[..i]
    {
      var j := Place(sorted, rows[i]);
      Inserted(sorted, rows[i], j);
      SortNext(rows, i);
      sorted := sorted[..j] + [rows[i]] + sorted[j..];
    }
    assert rows[..|rows|] == rows;
  }

  lemma Inserted(rows: seq<Row>, x: Row, j: nat)
    requires j <= |rows|
    ensures ItemsOf(rows[..j] + [x] + rows[j..]) == ItemsOf(rows[..j]) + [x.item] + ItemsOf(rows[j..])
    ensures forall r :: r in rows[..j] + [x] + rows[j..] ==> r in rows || r == x
  {
  }

  lemma SortNext(rows: seq<Row>, i: nat)
    requires i < |rows|
    ensures SortById(ItemsOf(rows[..i + 1])) == InsertById(SortById(ItemsOf(rows[..i])), rows[i].item)
    ensures forall r :: r in rows[..i + 1] <==> r in rows[..i] || r == rows[i]
  {
    hide InsertById;
    var items := ItemsOf(rows[..i + 1]);
    assert items[..i] == ItemsOf(rows[..i]) && items[i] == rows[i].item;
    assert rows[..i + 1] == rows[..i] + [rows[i]];
  }

  /** Moves each listed partition's token to the id just listed. */
  method MoveToken(token: Token, items: seq<Item>) returns (after: Token)
    ensures after == Advance(token, items)
  {
    after := token;
    for i := 0 to |items|
      invariant after == Advance(token, items[..i])
    {
      assert items[..i + 1][..i] == items[..i];
      if items[i].rank < |after| {
        after := after[items[i].rank := items[i].id];
      }
    }
    assert items[..|items|] == items;
  }

  /** One page of the listing and the token of the next, if there is one. */
  method ListAggregateStates(trees: seq<Tree>, shards: seq<nat>, order: seq<(nat, nat)>, ty: TypeId, token: Token,
                             requested: nat, ghost stores: seq<Store>)
      returns (page: Option<(seq<Row>, Option<Token>)>)
    requires Served(trees, shards, stores, order) && ty.Valid() && |token| == |order|
    ensures page.Some? ==> Page(ItemsOf(page.value.0), page.value.1) == ListPage(StoredStates(stores, ty, order),
        token, requested)
    ensures page.Some? ==> AllDocumented(stores, ty, order, page.value.0)
    ensures (forall i :: 0 <= i < |stores| ==> StatesKept(stores[i])) ==> page.Some?
  {
    hide Fetched, SortById, Advance, StoredStates, TypeId.Valid, StatesKept, AllDocumented, Carries, ValidKeys;
    var size := PageSize(requested);
    var all := FetchAll(trees, shards, order, ty, token, size + 1, stores);
    if all.None? {
      return None;
    }
    var sorted := SortRows(all.value);
    var rows := sorted[..Min(size, |sorted|)];
    var after := MoveToken(token, ItemsOf(rows));
    DocumentedSome(stores, ty, order, all.value, rows);
    assert ItemsOf(rows) == ItemsOf(sorted)[..Min(size, |sorted|)];
    return Some((rows, if |sorted| > size then Some(after) else None));
  }

  lemma DocumentedSome(stores: seq<Store>, ty: TypeId, order: seq<(nat, nat)>, all: seq<Row>, rows: seq<Row>)
    requires forall i :: 0 <= i < |order| ==> order[i].0 < |stores|
    requires AllDocumented(stores, ty, order, all) && forall r :: r in rows ==> r in all
    ensures AllDocumented(stores, ty, order, rows)
  {
    hide Describes;
    forall i | 0 <= i < |rows| ensures exists j :: 0 <= j < |all| && all[j] == rows[i] {
      assert rows[i] in rows;
    }
  }

  // ---------------------------------------------------------------- all pages

  ghost predicate AllKept(stores: seq<Store>) {
    forall i :: 0 <= i < |stores| ==> StatesKept(stores[i])
  }

  /** The rows listed are the states stored, each once, in ascending order. */
  ghost predicate ListsAll(items: seq<Item>, stores: seq<Store>, ty: TypeId, order: seq<(nat, nat)>)
    requires forall i :: 0 <= i < |order| ==> order[i].0 < |stores|
  {
    && Ascends(items)
    && forall x :: x in items <==> x.rank < |order| && x.id in StateIds(stores[order[x.rank].0], ty, order[x.rank].1)
  }

  lemma PagesListAll(stores: seq<Store>, ty: TypeId, order: seq<(nat, nat)>, sizes: nat -> nat)
    requires AllKept(stores) && forall i :: 0 <= i < |order| ==> order[i].0 < |stores|
    ensures Named(StoredStates(stores, ty, order))
    ensures ListsAll(AllPages(StoredStates(stores, ty, order), NewToken(|order|), sizes, 0), stores, ty, order)
  {
    NamesListed(stores, ty, order);
    PaginationIsEnumeration(StoredStates(stores, ty, order), sizes);
    hide AllPages, StateIds, StatesKept, Ascends, Named;
  }

  /** Reads one page and adds its rows to those already listed. */
  method ReadOn(trees: seq<Tree>, shards: seq<nat>, order: seq<(nat, nat)>, ty: TypeId, token: Token, size: nat,
                listed: seq<Row>, ghost stores: seq<Store>)
      returns (rows: seq<Row>, next: Option<Token>)
    requires Served(trees, shards, stores, order) && ty.Valid() && |token| == |order| && AllKept(stores)
    requires AllDocumented(stores, ty, order, listed)
    ensures var page := ListPage(StoredStates(stores, ty, order), token, size);
            ItemsOf(rows) == ItemsOf(listed) + page.items && next == page.token
    ensures AllDocumented(stores, ty, order, rows)
  {
    hide ListPage, StoredStates, StatesKept, Carries, ValidKeys, TypeId.Valid, AllDocumented, ItemsOf;
    var page := ListAggregateStates(trees, shards, order, ty, token, size, stores);
    DocumentedConcat(stores, ty, order, listed, page.value.0);
    rows, next := listed + page.value.0, page.value.1;
  }

  /**
   * Follows page tokens over the shards' trees until there is none, whatever size each page asks for. Together the
   * pages list every state of every partition exactly once, in ascending order, each with its document.
   */
  method ListAll(trees: seq<Tree>, shards: seq<nat>, order: seq<(nat, nat)>, ty: TypeId, sizes: nat -> nat,
                 ghost stores: seq<Store>)
      returns (all: seq<Row>)
    requires Served(trees, shards, stores, order) && ty.Valid() && AllKept(stores)
    ensures ListsAll(ItemsOf(all), stores, ty, order) && AllDocumented(stores, ty, order, all)
  {
    ghost var states := StoredStates(stores, ty, order);
    PagesListAll(stores, ty, order, sizes);
    hide ListPage, AllPages, AllKept, Carries, ValidKeys, TypeId.Valid, AllDocumented, ItemsOf, Remaining, Named, ListsAll;
    hide StoredStates, NewToken;
    var token, call := NewToken(|order|), 0;
    ghost var whole := AllPages(states, token, sizes, 0);
    all := [];
    NothingFetched(stores, ty, order);
    while true
      invariant |token| == |order| && AllDocumented(stores, ty, order, all)
      invariant ItemsOf(all) + AllPages(states, token, sizes, call) == whole
      decreases |Remaining(states, token)|
    {
      PageShrinks(states, token, sizes(call));
      PagesStep(states, token, sizes, call);
      ghost var listed, page := ItemsOf(all), ListPage(states, token, sizes(call));
      var next;
      all, next := ReadOn(trees, shards, order, ty, token, sizes(call), all, stores);
      if next.None? {
        break;
      }
      AssocItems(listed, page.items, AllPages(states, next.value, sizes, call + 1));
      token, call := next.value, call + 1;
    }
  }

  lemma PagesStep(states: States, token: Token, sizes: nat -> nat, call: nat)
    requires |token| == |states| && Named(states)
    ensures var page := ListPage(states, token, sizes(call));
            && (page.token.None? ==> AllPages(states, token, sizes, call) == page.items)
            && (page.token.Some? ==>
                  && |page.token.value| == |states|
                  && AllPages(states, token, sizes, call) == page.items + AllPages(states, page.token.value, sizes,
                      call + 1))
  {
    PageShrinks(states, token, sizes(call));
    hide ListPage, Remaining, Named;
  }

  // ---------------------------------------------------------------- every reachable store

  lemma DecideStates(s: Store, hash: Catalogs.Hash, r: Request)
    ensures var puts := Decide(s, hash, r).puts;
            && StatesKept(puts)
            && forall k :: k in puts && k.StateModifiedKey? ==> puts[k].ModifiedAt?
  {
    hide VersionOf, StateOf, NextOf, FenceOf, RecordOf, ProgressOf, CatalogOf, GroupsOf;
    hide StoredAt, Fingerprint, TypeId.Valid, Group.Settings.Valid, Group.Execute, Catalogs.Apply, GroupCatalog.Apply;
  }

  lemma PutsKeepStates(s: Store, puts: map<Key, Value>, x: Value)
    requires StatesKept(s) && StatesKept(puts) && forall k :: k in puts && k.StateModifiedKey? ==> puts[k].ModifiedAt?
    ensures StatesKept((s + puts)[AppliedState := x])
  {
  }

  /**
   * Every store a log can reach lists validated ids only, each with a document and its modification time: no listing
   * fails, and pagination is covered by `PaginationIsEnumeration`.
   */
  lemma {:induction false} ReachableStates(n: Node, hash: Catalogs.Hash, entries: seq<Entry>)
    requires StatesKept(n.store)
    ensures StatesKept(ApplyEntries(n, hash, entries).store)
    decreases entries
  {
    if entries != [] {
      var e := entries[0];
      var x := Applied(Some(e.logId), MembershipAfter(n.membership, e));
      if e.payload.Normal? {
        DecideStates(n.store, hash, e.payload.request);
      }
      hide Decide;
      PutsKeepStates(n.store, DecideEntry(n.store, hash, e).puts, x);
      hide StatesKept, DecideEntry;
      ReachableStates(ApplyEntry(n, hash, e), hash, entries[1..]);
    }
  }

  lemma NamesListed(stores: seq<Store>, ty: TypeId, order: seq<(nat, nat)>)
    requires forall i :: 0 <= i < |order| ==> order[i].0 < |stores|
    requires forall i :: 0 <= i < |stores| ==> StatesKept(stores[i])
    ensures Named(StoredStates(stores, ty, order))
  {
    var states := StoredStates(stores, ty, order);
    forall i, id | 0 <= i < |states| && id in states[i] ensures id != [] {
      assert StatesKept(stores[order[i].0]);
    }
  }
}
