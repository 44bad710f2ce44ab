/** The byte layout of every key the store writes, and why no two of them collide. */
module Keys {
  import opened Base
  import opened Lexicographic
  import opened Aggregate

  const TAG_RAFT: byte := 0x01
  const TAG_SM: byte := 0x02
  const TAG_SNAPSHOT: byte := 0x03

  datatype Key =
    | LogEntry(index: nat)
    | Vote
    | LastPurged
    | Committed
    | AppliedState
    | EventKey(ty: TypeId, partition: nat, aggregateId: Text, version: nat)
    | MetaKey(ty: TypeId, partition: nat, aggregateId: Text)
    | IndexKey(ty: TypeId, partition: nat, position: nat)
    | NextPositionKey(ty: TypeId, partition: nat)
    | StateKey(ty: TypeId, partition: nat, aggregateId: Text)
    | IdempotencyKey(ty: TypeId, partition: nat, eventId: Uuid)
    | FenceKey(ty: TypeId, partition: nat)
    | CatalogKey
    | GroupCatalogKey
    | GroupPartitionKey(ty: TypeId, partition: nat, group: Text)
    | StateModifiedKey(ty: TypeId, partition: nat, aggregateId: Text)
    | SnapshotCurrent
  {
    /** The identities were validated and the numbers fit their widths. */
    predicate Valid() {
      match this
      case LogEntry(index) => index <= U64_MAX
      case EventKey(ty, partition, aggregateId, version) =>
        ty.Valid() && partition <= U16_MAX && ValidIdentifier(aggregateId) && version <= U64_MAX
      case MetaKey(ty, partition, aggregateId) => ty.Valid() && partition <= U16_MAX && ValidIdentifier(aggregateId)
      case IndexKey(ty, partition, position) => ty.Valid() && partition <= U16_MAX && position <= U64_MAX
      case NextPositionKey(ty, partition) => ty.Valid() && partition <= U16_MAX
      case StateKey(ty, partition, aggregateId) => ty.Valid() && partition <= U16_MAX && ValidIdentifier(aggregateId)
      case IdempotencyKey(ty, partition, eventId) =>
        ty.Valid() && partition <= U16_MAX && eventId < (U64_MAX + 1) * (U64_MAX + 1)
      case FenceKey(ty, partition) => ty.Valid() && partition <= U16_MAX
      case GroupPartitionKey(ty, partition, group) => ty.Valid() && partition <= U16_MAX && ValidIdentifier(group)
      case StateModifiedKey(ty, partition, aggregateId) => ty.Valid() && partition <= U16_MAX && ValidIdentifier(aggregateId)
      case _ => true
    }

    /** Region tag: Raft log, state machine, snapshot. */
    function Tag(): byte {
      match this
      case LogEntry(_) => TAG_RAFT
      case Vote => TAG_RAFT
      case LastPurged => TAG_RAFT
      case Committed => TAG_RAFT
      case SnapshotCurrent => TAG_SNAPSHOT
      case _ => TAG_SM
    }

    /** Sub-category within the region. */
    function Sub(): byte {
      match this
      case LogEntry(_) => 0x01
      case Vote => 0x02
      case LastPurged => 0x03
      case Committed => 0x04
      case AppliedState => 0x04
      case EventKey(_, _, _, _) => 0x0A
      case MetaKey(_, _, _) => 0x0B
      case IndexKey(_, _, _) => 0x0C
      case NextPositionKey(_, _) => 0x0D
      case StateKey(_, _, _) => 0x0E
      case IdempotencyKey(_, _, _) => 0x0F
      case FenceKey(_, _) => 0x10
      case CatalogKey => 0x11
      case GroupCatalogKey => 0x12
      case GroupPartitionKey(_, _, _) => 0x13
      case StateModifiedKey(_, _, _) => 0x14
      case SnapshotCurrent => 0x01
    }

    /** What follows region, shard and sub-category. */
    function Body(): Bytes {
      match this
      case LogEntry(index) => BE(index, 8)
      case EventKey(ty, partition, aggregateId, version) => Scope(ty, partition) + (LenPrefixed(aggregateId) + BE(version, 8))
      case MetaKey(ty, partition, aggregateId) => Scope(ty, partition) + LenPrefixed(aggregateId)
      case IndexKey(ty, partition, position) => Scope(ty, partition) + BE(position, 8)
      case NextPositionKey(ty, partition) => Scope(ty, partition)
      case StateKey(ty, partition, aggregateId) => Scope(ty, partition) + aggregateId
      case IdempotencyKey(ty, partition, eventId) => Scope(ty, partition) + BE(eventId, 16)
      case FenceKey(ty, partition) => Scope(ty, partition)
      case GroupPartitionKey(ty, partition, group) => Scope(ty, partition) + LenPrefixed(group)
      case StateModifiedKey(ty, partition, aggregateId) => Scope(ty, partition) + aggregateId
      case _ => []
    }
  }

  /** Aggregate type and virtual partition, the common beginning of all aggregate keys. */
  function Scope(ty: TypeId, partition: nat): Bytes {
    LenPrefixed(ty.CanonicalName()) + BE(partition, 2)
  }

  function RegionPrefix(tag: byte, shard: nat): (r: Bytes)
    ensures |r| == 9
  {
    [tag] + BE(shard, 8)
  }

  function SubPrefix(tag: byte, shard: nat, sub: byte): (r: Bytes)
    ensures |r| == 10
  {
    RegionPrefix(tag, shard) + [sub]
  }

  function Encode(shard: nat, key: Key): Bytes {
    SubPrefix(key.Tag(), shard, key.Sub()) + key.Body()
  }

  // ---------------------------------------------------------------- injectivity

  lemma RegionPrefixInjective(t: byte, s: nat, x: Bytes, t': byte, s': nat, x': Bytes)
    requires s <= U64_MAX && s' <= U64_MAX && RegionPrefix(t, s) + x == RegionPrefix(t', s') + x'
    ensures t == t' && s == s' && x == x'
  {
    AppendInjective(RegionPrefix(t, s), x, RegionPrefix(t', s'), x');
    AppendInjective([t], BE(s, 8), [t'], BE(s', 8));
    assert [t][0] == [t'][0];
    Pow256Widths();
    BEInjective(s, s', 8);
  }

  lemma SubPrefixInjective(t: byte, s: nat, c: byte, x: Bytes, t': byte, s': nat, c': byte, x': Bytes)
    requires s <= U64_MAX && s' <= U64_MAX && SubPrefix(t, s, c) + x == SubPrefix(t', s', c') + x'
    ensures t == t' && s == s' && c == c' && x == x'
  {
    assert SubPrefix(t, s, c) + x == RegionPrefix(t, s) + ([c] + x);
    assert SubPrefix(t', s', c') + x' == RegionPrefix(t', s') + ([c'] + x');
    RegionPrefixInjective(t, s, [c] + x, t', s', [c'] + x');
    assert ([c] + x)[0] == c && ([c'] + x')[0] == c';
    AppendInjective([c], x, [c'], x');
  }

  lemma ScopeInjective(ty: TypeId, p: nat, x: Bytes, ty': TypeId, p': nat, x': Bytes)
    requires ty.Valid() && ty'.Valid() && p <= U16_MAX && p' <= U16_MAX
    requires Scope(ty, p) + x == Scope(ty', p') + x'
    ensures ty == ty' && p == p' && x == x'
  {
    var a, b := ty.CanonicalName(), ty'.CanonicalName();
    CanonicalNameFits(ty);
    CanonicalNameFits(ty');
    hide LenPrefixed, TypeId.CanonicalName, TypeId.Valid, BE;
    Assoc(LenPrefixed(a), BE(p, 2), x);
    Assoc(LenPrefixed(b), BE(p', 2), x');
    LenPrefixedInjective(a, BE(p, 2) + x, b, BE(p', 2) + x');
    CanonicalNameInjective(ty, ty');
    AppendInjective(BE(p, 2), x, BE(p', 2), x');
    Pow256Widths();
    BEInjective(p, p', 2);
  }

  lemma LenPrefixedAlone(a: Bytes, b: Bytes)
    requires |a| <= U64_MAX && |b| <= U64_MAX && LenPrefixed(a) == LenPrefixed(b)
    ensures a == b
  {
    assert LenPrefixed(a) + [] == LenPrefixed(a) && LenPrefixed(b) + [] == LenPrefixed(b);
    LenPrefixedInjective(a, [], b, []);
  }

  /** The rest of a key after its scope. */
  function AfterScope(k: Key): Bytes {
    match k
    case EventKey(_, _, aggregateId, version) => LenPrefixed(aggregateId) + BE(version, 8)
    case MetaKey(_, _, aggregateId) => LenPrefixed(aggregateId)
    case IndexKey(_, _, position) => BE(position, 8)
    case StateKey(_, _, aggregateId) => aggregateId
    case IdempotencyKey(_, _, eventId) => BE(eventId, 16)
    case GroupPartitionKey(_, _, group) => LenPrefixed(group)
    case StateModifiedKey(_, _, aggregateId) => aggregateId
    case _ => []
  }

  predicate Scoped(k: Key) {
    k.Tag() == TAG_SM && !k.AppliedState? && !k.CatalogKey? && !k.GroupCatalogKey?
  }

  lemma ScopedBody(k: Key)
    requires Scoped(k)
    ensures k.Body() == Scope(k.ty, k.partition) + AfterScope(k)
  {
    assert Scope(k.ty, k.partition) + [] == Scope(k.ty, k.partition);
  }

  lemma AfterScopeInjective(k: Key, k': Key)
    requires Scoped(k) && Scoped(k') && k.Valid() && k'.Valid() && k.Sub() == k'.Sub()
    requires k.ty == k'.ty && k.partition == k'.partition && AfterScope(k) == AfterScope(k')
    ensures k == k'
  {
    Pow256Widths();
    match k
    case EventKey(_, _, a, v) =>
      LenPrefixedInjective(a, BE(v, 8), k'.aggregateId, BE(k'.version, 8));
      BEInjective(v, k'.version, 8);
    case MetaKey(_, _, a) => LenPrefixedAlone(a, k'.aggregateId);
    case IndexKey(_, _, p) => BEInjective(p, k'.position, 8);
    case IdempotencyKey(_, _, e) => BEInjective(e, k'.eventId, 16);
    case GroupPartitionKey(_, _, g) => LenPrefixedAlone(g, k'.group);
    case _ =>
  }

  lemma BodyInjective(k: Key, k': Key)
    requires k.Valid() && k'.Valid() && k.Tag() == k'.Tag() && k.Sub() == k'.Sub() && k.Body() == k'.Body()
    ensures k == k'
  {
    if Scoped(k) {
      ScopedBody(k);
      ScopedBody(k');
      hide Scope, AfterScope, Key.Body;
      ScopeInjective(k.ty, k.partition, AfterScope(k), k'.ty, k'.partition, AfterScope(k'));
      AfterScopeInjective(k, k');
    } else if k.LogEntry? {
      Pow256Widths();
      BEInjective(k.index, k'.index, 8);
    }
  }

  /** All key families of all shards are injective and mutually disjoint. */
  lemma EncodeInjective(shard: nat, k: Key, shard': nat, k': Key)
    requires shard <= U64_MAX && shard' <= U64_MAX && k.Valid() && k'.Valid()
    requires Encode(shard, k) == Encode(shard', k')
    ensures shard == shard' && k == k'
  {
    hide Key.Body, SubPrefix;
    SubPrefixInjective(k.Tag(), shard, k.Sub(), k.Body(), k'.Tag(), shard', k'.Sub(), k'.Body());
    BodyInjective(k, k');
  }

  /** Raft keys, and any other shard's keys, lie outside the region. */
  lemma OthersOutside(shard: nat, other: nat, k: Key)
    requires shard <= U64_MAX && other <= U64_MAX && k.Valid()
    ensures RegionPrefix(TAG_SM, shard) <= Encode(other, k) <==> shard == other && k.Tag() == TAG_SM
  {
    var e := Encode(other, k);
    var prefix := RegionPrefix(TAG_SM, shard);
    if prefix <= e {
      var rest := e[|prefix|..];
      assert e == prefix + rest;
      RegionSplit(other, k);
      RegionPrefixInjective(TAG_SM, shard, rest, k.Tag(), other, e[|RegionPrefix(k.Tag(), other)|..]);
    }
    RegionSplit(other, k);
  }

  lemma RegionSplit(shard: nat, k: Key)
    ensures RegionPrefix(k.Tag(), shard) <= Encode(shard, k)
    ensures Encode(shard, k) == RegionPrefix(k.Tag(), shard) + Encode(shard, k)[|RegionPrefix(k.Tag(), shard)|..]
  {
  }

  // ---------------------------------------------------------------- order inside a family

  lemma SuffixOrder(head: Bytes, m: nat, n: nat)
    requires m <= U64_MAX && n <= U64_MAX
    ensures Less(head + BE(m, 8), head + BE(n, 8)) <==> m < n
  {
    LessCancel(head, BE(m, 8), BE(n, 8));
    Pow256Widths();
    BEOrdered(m, n, 8);
  }

  /** Versions of one instance sort numerically. */
  lemma EventKeysByVersion(shard: nat, ty: TypeId, partition: nat, aggregateId: Text, m: nat, n: nat)
    requires m <= U64_MAX && n <= U64_MAX
    ensures Less(Encode(shard, EventKey(ty, partition, aggregateId, m)), Encode(shard, EventKey(ty, partition, aggregateId, n)))
            <==> m < n
  {
    var prefix := FamilyPrefix(shard, 0x0A, ty, partition);
    FamilyKey(shard, EventKey(ty, partition, aggregateId, m));
    FamilyKey(shard, EventKey(ty, partition, aggregateId, n));
    hide FamilyPrefix, Encode, LenPrefixed, BE, Less;
    Assoc(prefix, LenPrefixed(aggregateId), BE(m, 8));
    Assoc(prefix, LenPrefixed(aggregateId), BE(n, 8));
    SuffixOrder(prefix + LenPrefixed(aggregateId), m, n);
  }

  /** Positions of one partition sort numerically. */
  lemma IndexKeysByPosition(shard: nat, ty: TypeId, partition: nat, m: nat, n: nat)
    requires m <= U64_MAX && n <= U64_MAX
    ensures Less(Encode(shard, IndexKey(ty, partition, m)), Encode(shard, IndexKey(ty, partition, n))) <==> m < n
  {
    FamilyKey(shard, IndexKey(ty, partition, m));
    FamilyKey(shard, IndexKey(ty, partition, n));
    hide FamilyPrefix, Encode, BE, Less;
    SuffixOrder(FamilyPrefix(shard, 0x0C, ty, partition), m, n);
  }

  /** States of one partition sort by instance id. */
  lemma StateKeysById(shard: nat, ty: TypeId, partition: nat, a: Text, b: Text)
    ensures Less(Encode(shard, StateKey(ty, partition, a)), Encode(shard, StateKey(ty, partition, b))) <==> Less(a, b)
  {
    FamilyKey(shard, StateKey(ty, partition, a));
    FamilyKey(shard, StateKey(ty, partition, b));
    hide FamilyPrefix, Encode, Less;
    LessCancel(FamilyPrefix(shard, 0x0E, ty, partition), a, b);
  }

  // ---------------------------------------------------------------- scans

  /** The scan prefix of one family of one partition. */
  function FamilyPrefix(shard: nat, sub: byte, ty: TypeId, partition: nat): Bytes {
    SubPrefix(TAG_SM, shard, sub) + Scope(ty, partition)
  }

  /** A partition's key is its family prefix and what follows its scope. */
  lemma FamilyKey(shard: nat, k: Key)
    requires Scoped(k)
    ensures Encode(shard, k) == FamilyPrefix(shard, k.Sub(), k.ty, k.partition) + AfterScope(k)
  {
    ScopedBody(k);
    hide SubPrefix, Scope, Key.Body, AfterScope;
    Assoc(SubPrefix(TAG_SM, shard, k.Sub()), Scope(k.ty, k.partition), AfterScope(k));
  }

  lemma FamilyMember(shard: nat, sub: byte, ty: TypeId, partition: nat, shard': nat, k: Key, rest: Bytes)
    requires shard <= U64_MAX && shard' <= U64_MAX && ty.Valid() && partition <= U16_MAX && k.Valid()
    requires 0x0A <= sub && sub != 0x11 && sub != 0x12
    requires Encode(shard', k) == FamilyPrefix(shard, sub, ty, partition) + rest
    ensures shard == shard' && Scoped(k) && k.Sub() == sub && k.ty == ty && k.partition == partition
  {
    hide SubPrefix, Scope, Key.Body, AfterScope;
    Assoc(SubPrefix(TAG_SM, shard, sub), Scope(ty, partition), rest);
    SubPrefixInjective(TAG_SM, shard, sub, Scope(ty, partition) + rest, k.Tag(), shard', k.Sub(), k.Body());
    ScopedBody(k);
    ScopeInjective(ty, partition, rest, k.ty, k.partition, AfterScope(k));
  }

  /** A valid key lies under a partition's family prefix exactly when it belongs to that shard, family and partition. */
  lemma FamilyScanExact(shard: nat, sub: byte, ty: TypeId, partition: nat, shard': nat, k: Key)
    requires shard <= U64_MAX && shard' <= U64_MAX && ty.Valid() && partition <= U16_MAX && k.Valid()
    requires 0x0A <= sub && sub != 0x11 && sub != 0x12
    ensures InRange(FamilyPrefix(shard, sub, ty, partition), SuccessorOf(FamilyPrefix(shard, sub, ty, partition)),
                    Encode(shard', k))
            <==> shard == shard' && Scoped(k) && k.Sub() == sub && k.ty == ty && k.partition == partition
  {
    hide FamilyPrefix, Encode, InRange, SuccessorOf, AfterScope, Key.Valid, TypeId.Valid;
    var prefix := FamilyPrefix(shard, sub, ty, partition);
    var e := Encode(shard', k);
    PrefixIsRange(prefix, e);
    if prefix <= e {
      AfterPrefix(prefix, e);
      FamilyMember(shard, sub, ty, partition, shard', k, e[|prefix|..]);
    }
    if shard == shard' && Scoped(k) && k.Sub() == sub && k.ty == ty && k.partition == partition {
      FamilyKey(shard, k);
    }
  }

  /** The page scan: states of the partition strictly after an id, and nothing else. */
  lemma StateScanAfter(shard: nat, ty: TypeId, partition: nat, after: Text, shard': nat, k: Key)
    requires shard <= U64_MAX && shard' <= U64_MAX && ty.Valid() && partition <= U16_MAX && k.Valid()
    ensures InRange(UpperIncluding(Encode(shard, StateKey(ty, partition, after))),
                    SuccessorOf(FamilyPrefix(shard, 0x0E, ty, partition)), Encode(shard', k))
            <==> shard == shard' && k.StateKey? && k.ty == ty && k.partition == partition && Less(after, k.aggregateId)
  {
    hide FamilyPrefix, Encode, UpperIncluding, SuccessorOf, Less, Key.Valid, TypeId.Valid;
    var prefix := FamilyPrefix(shard, 0x0E, ty, partition);
    var from := Encode(shard, StateKey(ty, partition, after));
    var e := Encode(shard', k);
    UpperIncludingIsNext(from, e);
    FamilyScanExact(shard, 0x0E, ty, partition, shard', k);
    FamilyKey(shard, StateKey(ty, partition, after));
    if Less(from, e) {
      PrefixAtMost(prefix, after, e);
    }
    if shard == shard' && k.StateKey? && k.ty == ty && k.partition == partition {
      StateKeysById(shard, ty, partition, after, k.aggregateId);
    }
  }

  /** The index scan: entries of the partition from a position on, and nothing else. */
  lemma IndexScanFrom(shard: nat, ty: TypeId, partition: nat, from: nat, shard': nat, k: Key)
    requires shard <= U64_MAX && shard' <= U64_MAX && ty.Valid() && partition <= U16_MAX && from <= U64_MAX && k.Valid()
    ensures InRange(Encode(shard, IndexKey(ty, partition, from)),
                    SuccessorOf(FamilyPrefix(shard, 0x0C, ty, partition)), Encode(shard', k))
            <==> shard == shard' && k.IndexKey? && k.ty == ty && k.partition == partition && from <= k.position
  {
    hide FamilyPrefix, Encode, SuccessorOf, Less, TypeId.Valid;
    var prefix := FamilyPrefix(shard, 0x0C, ty, partition);
    var low := Encode(shard, IndexKey(ty, partition, from));
    var e := Encode(shard', k);
    FamilyScanExact(shard, 0x0C, ty, partition, shard', k);
    FamilyKey(shard, IndexKey(ty, partition, from));
    if AtMost(low, e) {
      PrefixBelow(prefix, BE(from, 8), e);
    }
    if shard == shard' && k.IndexKey? && k.ty == ty && k.partition == partition {
      IndexKeysByPosition(shard, ty, partition, k.position, from);
    }
  }

  /** Anything from `prefix + x` on is at least `prefix`. */
  lemma PrefixBelow(prefix: Bytes, x: Bytes, e: Bytes)
    requires AtMost(prefix + x, e)
    ensures AtMost(prefix, e)
  {
    assert prefix + [] == prefix;
    LessCancel(prefix, x, []);
    if Less(e, prefix) {
      LessAtMost(e, prefix, prefix + x);
    }
  }

  /** Scan prefixes have an end, and lie in their shard's region. */
  lemma FamilyInRegion(shard: nat, sub: byte, ty: TypeId, partition: nat)
    ensures SuccessorOf(FamilyPrefix(shard, sub, ty, partition)).Some?
    ensures RegionPrefix(TAG_SM, shard) <= FamilyPrefix(shard, sub, ty, partition)
  {
    hide Scope, SuccessorOf;
    var rest := BE(shard, 8) + ([sub] + Scope(ty, partition));
    assert FamilyPrefix(shard, sub, ty, partition) == [TAG_SM] + rest;
    HasSuccessor(TAG_SM, rest);
  }

  /** Anything above `prefix + x` is at least `prefix`. */
  lemma PrefixAtMost(prefix: Bytes, x: Bytes, e: Bytes)
    requires Less(prefix + x, e)
    ensures AtMost(prefix, e)
  {
    assert prefix + [] == prefix;
    LessCancel(prefix, x, []);
    if Less(e, prefix) {
      LessTransitive(prefix + x, e, prefix);
    }
  }

  /** `decode_aggregate_state_key` without its UTF-8 check, which ids of this store always pass. */
  function DecodeStateKey(key: Bytes): Option<Text> {
    if |key| < 21 || key[9] != 0x0E then None
    else
      var start := 10 + 8 + FromBE(key[10..18]) + 2;
      if start >= |key| then None else Some(key[start..])
  }

  lemma StateKeyRoundTrip(shard: nat, ty: TypeId, partition: nat, aggregateId: Text)
    requires ty.Valid() && ValidIdentifier(aggregateId)
    ensures DecodeStateKey(Encode(shard, StateKey(ty, partition, aggregateId))) == Some(aggregateId)
  {
    var name := ty.CanonicalName();
    var head := SubPrefix(TAG_SM, shard, 0x0E);
    Assoc(BE(|name|, 8), name, BE(partition, 2));
    Assoc(BE(|name|, 8), name + BE(partition, 2), aggregateId);
    Assoc(name, BE(partition, 2), aggregateId);
    Pow256Widths();
    BERoundTrip(|name|, 8);
    CanonicalNameFits(ty);
    hide TypeId.CanonicalName, RegionPrefix, BE, FromBE;
    Fields(head, BE(|name|, 8), name, BE(partition, 2), aggregateId);
  }

  lemma Fields(head: Bytes, width: Bytes, name: Bytes, partition: Bytes, id: Bytes)
    requires |head| == 10 && |width| == 8 && |partition| == 2
    ensures var e := head + (width + (name + (partition + id)));
            |e| == 20 + |name| + |id| && e[9] == head[9] && e[10..18] == width && e[20 + |name|..] == id
  {
  }
}
