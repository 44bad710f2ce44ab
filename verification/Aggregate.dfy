/** Identities, events and the append fingerprint of the aggregate store. */
module Aggregate {
  import opened Base
  import opened Lexicographic

  const MAX_IDENTIFIER_BYTES: nat := 128
  const EVENT_PARTITION_COUNT: nat := 256
  const SLASH: byte := 47

  predicate Alphanumeric(b: byte) {
    48 <= b <= 57 || 65 <= b <= 90 || 97 <= b <= 122
  }

  /** Letters, digits, `.`, `_` and `-`. */
  predicate IdentifierByte(b: byte) {
    Alphanumeric(b) || b == 46 || b == 95 || b == 45
  }

  /** `events.jsonl`, `states` and `groups`. */
  function ReservedIdentifiers(): set<Text> {
    {[101, 118, 101, 110, 116, 115, 46, 106, 115, 111, 110, 108],
     [115, 116, 97, 116, 101, 115],
     [103, 114, 111, 117, 112, 115]}
  }

  predicate ValidIdentifier(value: Text) {
    && 1 <= |value| <= MAX_IDENTIFIER_BYTES
    && value !in ReservedIdentifiers()
    && Alphanumeric(value[0])
    && forall i :: 0 <= i < |value| ==> IdentifierByte(value[i])
  }

  datatype TypeId = TypeId(space: Text, name: Text) {
    predicate Valid() {
      ValidIdentifier(space) && ValidIdentifier(name)
    }

    function CanonicalName(): Text {
      space + [SLASH] + name
    }
  }

  lemma FirstSlash(a: TypeId)
    requires a.Valid()
    ensures a.CanonicalName()[|a.space|] == SLASH
    ensures forall i :: 0 <= i < |a.space| ==> a.CanonicalName()[i] != SLASH
  {
    assert forall i :: 0 <= i < |a.space| ==> IdentifierByte(a.space[i]);
  }

  /** An identifier has no slash, so the canonical name reads back uniquely. */
  lemma CanonicalNameInjective(a: TypeId, b: TypeId)
    requires a.Valid() && b.Valid() && a.CanonicalName() == b.CanonicalName()
    ensures a == b
  {
    var x := a.CanonicalName();
    FirstSlash(a);
    FirstSlash(b);
    assert |a.space| == |b.space|;
    assert x[..|a.space|] == a.space && b.CanonicalName()[..|b.space|] == b.space;
    assert x[|a.space| + 1..] == a.name && b.CanonicalName()[|b.space| + 1..] == b.name;
  }

  lemma CanonicalNameFits(a: TypeId)
    requires a.Valid()
    ensures |a.CanonicalName()| <= U64_MAX
  {
  }

  datatype Hlc = Hlc(wall: nat, logical: nat)

  datatype NewEvent = NewEvent(eventId: Uuid, eventType: Text, data: Bytes, metadata: Bytes)

  datatype StoredEvent = StoredEvent(
    aggregateType: TypeId,
    partition: nat,
    aggregateId: Text,
    version: nat,
    eventId: Uuid,
    eventType: Text,
    data: Bytes,
    metadata: Bytes,
    hlc: Hlc,
    position: nat)

  datatype ExpectedVersion = Any | NoAggregate | AggregateExists | Exact(version: nat)

  datatype ExpectedRevision = Absent | ExactRevision(revision: nat)

  datatype AggregateState = AggregateState(revision: nat, data: Bytes)

  predicate VersionMatches(expected: ExpectedVersion, current: Option<nat>) {
    match expected
    case Any => true
    case NoAggregate => current == None
    case AggregateExists => current.Some?
    case Exact(v) => current == Some(v)
  }

  // ---------------------------------------------------------------- fingerprint

  function ExpectedBytes(expected: ExpectedVersion): Bytes {
    match expected
    case Any => [0]
    case NoAggregate => [1]
    case AggregateExists => [2]
    case Exact(v) => [3] + BE(v, 8)
  }

  /** Exactly the bytes fed to the append fingerprint's hasher. */
  function FingerprintInput(ty: TypeId, aggregateId: Text, expected: ExpectedVersion, event: NewEvent): Bytes {
    LenPrefixed(ty.space) + (LenPrefixed(ty.name) + (LenPrefixed(aggregateId) + (ExpectedBytes(expected) +
      (BE(event.eventId, 16) + (LenPrefixed(event.eventType) + (LenPrefixed(event.data) + LenPrefixed(event.metadata)))))))
  }

  /** What the machine can hold: lengths and versions fit `u64`, event ids are sixteen bytes. */
  predicate Fits(ty: TypeId, aggregateId: Text, expected: ExpectedVersion, event: NewEvent) {
    && |ty.space| <= U64_MAX && |ty.name| <= U64_MAX && |aggregateId| <= U64_MAX
    && (expected.Exact? ==> expected.version <= U64_MAX)
    && event.eventId < (U64_MAX + 1) * (U64_MAX + 1)
    && |event.eventType| <= U64_MAX && |event.data| <= U64_MAX && |event.metadata| <= U64_MAX
  }

  lemma ExpectedBytesInjective(a: ExpectedVersion, x: Bytes, b: ExpectedVersion, y: Bytes)
    requires a.Exact? ==> a.version <= U64_MAX
    requires b.Exact? ==> b.version <= U64_MAX
    requires ExpectedBytes(a) + x == ExpectedBytes(b) + y
    ensures a == b && x == y
  {
    assert (ExpectedBytes(a) + x)[0] == ExpectedBytes(a)[0] && (ExpectedBytes(b) + y)[0] == ExpectedBytes(b)[0];
    AppendInjective(ExpectedBytes(a), x, ExpectedBytes(b), y);
    if a.Exact? && b.Exact? {
      Pow256Widths();
      AppendInjective([3], BE(a.version, 8), [3], BE(b.version, 8));
      BEInjective(a.version, b.version, 8);
    }
  }

  lemma EventBytesInjective(e: NewEvent, f: NewEvent)
    requires e.eventId < (U64_MAX + 1) * (U64_MAX + 1) && f.eventId < (U64_MAX + 1) * (U64_MAX + 1)
    requires |e.eventType| <= U64_MAX && |e.data| <= U64_MAX && |e.metadata| <= U64_MAX
    requires |f.eventType| <= U64_MAX && |f.data| <= U64_MAX && |f.metadata| <= U64_MAX
    requires BE(e.eventId, 16) + (LenPrefixed(e.eventType) + (LenPrefixed(e.data) + LenPrefixed(e.metadata)))
          == BE(f.eventId, 16) + (LenPrefixed(f.eventType) + (LenPrefixed(f.data) + LenPrefixed(f.metadata)))
    ensures e == f
  {
    hide LenPrefixed;
    AppendInjective(BE(e.eventId, 16), LenPrefixed(e.eventType) + (LenPrefixed(e.data) + LenPrefixed(e.metadata)),
                    BE(f.eventId, 16), LenPrefixed(f.eventType) + (LenPrefixed(f.data) + LenPrefixed(f.metadata)));
    Pow256Widths();
    BEInjective(e.eventId, f.eventId, 16);
    LenPrefixedInjective(e.eventType, LenPrefixed(e.data) + LenPrefixed(e.metadata), f.eventType,
                         LenPrefixed(f.data) + LenPrefixed(f.metadata));
    LenPrefixedInjective(e.data, LenPrefixed(e.metadata), f.data, LenPrefixed(f.metadata));
    assert LenPrefixed(e.metadata) + [] == LenPrefixed(e.metadata) && LenPrefixed(f.metadata) + [] == LenPrefixed(f.metadata);
    LenPrefixedInjective(e.metadata, [], f.metadata, []);
  }

  /**
   * The hashed bytes determine the whole request: two requests differ in their fingerprint unless the hash
   * collides.
   */
  lemma FingerprintInputInjective(ty: TypeId, id: Text, ex: ExpectedVersion, e: NewEvent,
                                  ty': TypeId, id': Text, ex': ExpectedVersion, e': NewEvent)
    requires Fits(ty, id, ex, e) && Fits(ty', id', ex', e')
    requires FingerprintInput(ty, id, ex, e) == FingerprintInput(ty', id', ex', e')
    ensures ty == ty' && id == id' && ex == ex' && e == e'
  {
    var ev := BE(e.eventId, 16) + (LenPrefixed(e.eventType) + (LenPrefixed(e.data) + LenPrefixed(e.metadata)));
    var ev' := BE(e'.eventId, 16) + (LenPrefixed(e'.eventType) + (LenPrefixed(e'.data) + LenPrefixed(e'.metadata)));
    hide LenPrefixed, ExpectedBytes;
    LenPrefixedInjective(ty.space, LenPrefixed(ty.name) + (LenPrefixed(id) + (ExpectedBytes(ex) + ev)),
                         ty'.space, LenPrefixed(ty'.name) + (LenPrefixed(id') + (ExpectedBytes(ex') + ev')));
    LenPrefixedInjective(ty.name, LenPrefixed(id) + (ExpectedBytes(ex) + ev), ty'.name,
                         LenPrefixed(id') + (ExpectedBytes(ex') + ev'));
    LenPrefixedInjective(id, ExpectedBytes(ex) + ev, id', ExpectedBytes(ex') + ev');
    ExpectedBytesInjective(ex, ev, ex', ev');
    EventBytesInjective(e, e');
  }
}
