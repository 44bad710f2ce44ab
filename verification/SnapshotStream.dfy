/** The record stream inside a snapshot: a count, length-prefixed keys and values, and an end marker. */
module SnapshotStream {
  import opened Base
  import opened Lexicographic

  datatype Record = Record(key: Bytes, value: Bytes)

  const END_MARKER: nat := U64_MAX
  const MAX_RECORD_LEN: nat := 0x4000_0000

  // ---------------------------------------------------------------- little-endian words

  function LE(n: nat, width: nat): (r: Bytes)
    ensures |r| == width
  {
    if width == 0 then [] else [(n % 256) as byte] + LE(n / 256, width - 1)
  }

  function FromLE(b: Bytes): nat {
    if b == [] then 0 else (b[0] as nat) + 256 * FromLE(b[1..])
  }

  lemma {:induction false} LERoundTrip(n: nat, width: nat)
    requires n < Pow256(width)
    ensures FromLE(LE(n, width)) == n
  {
    if width != 0 {
      LERoundTrip(n / 256, width - 1);
      assert LE(n, width)[1..] == LE(n / 256, width - 1);
    }
  }

  lemma {:induction false} FromLERoundTrip(b: Bytes)
    ensures LE(FromLE(b), |b|) == b && FromLE(b) < Pow256(|b|)
  {
    if b != [] {
      FromLERoundTrip(b[1..]);
      assert b == [b[0]] + b[1..];
    }
  }

  function Word(n: nat): (r: Bytes)
    ensures |r| == 8
  {
    LE(n, 8)
  }

  /** Takes a word off a stream; `None` is an early end of input. */
  function TakeWord(s: Bytes): Option<nat> {
    if |s| < 8 then None else Some(FromLE(s[..8]))
  }

  lemma WordTaken(n: nat, rest: Bytes)
    requires n <= U64_MAX
    ensures TakeWord(Word(n) + rest) == Some(n) && (Word(n) + rest)[8..] == rest
  {
    Pow256Widths();
    LERoundTrip(n, 8);
    assert (Word(n) + rest)[..8] == Word(n);
  }

  lemma TakenWord(s: Bytes)
    requires TakeWord(s).Some?
    ensures s == Word(TakeWord(s).value) + s[8..] && TakeWord(s).value <= U64_MAX
  {
    Pow256Widths();
    FromLERoundTrip(s[..8]);
    assert s == s[..8] + s[8..];
  }

  // ---------------------------------------------------------------- byte strings

  lemma SplitAt(s: Bytes, m: nat)
    requires m <= |s|
    ensures s[..m] + s[m..] == s
  {
  }

  lemma AddNothing(s: Bytes)
    ensures s + [] == s && [] + s == s
  {
  }

  // ---------------------------------------------------------------- writing

  function RecordBytes(r: Record): Bytes {
    Word(|r.key|) + (r.key + (Word(|r.value|) + r.value))
  }

  function RecordsBytes(records: seq<Record>): Bytes {
    if records == [] then [] else RecordBytes(records[0]) + RecordsBytes(records[1..])
  }

  function Payload(records: seq<Record>): Bytes {
    Word(|records|) + (RecordsBytes(records) + Word(END_MARKER))
  }

  function RecordLen(r: Record): nat {
    16 + |r.key| + |r.value|
  }

  function LenSum(records: seq<Record>): nat {
    if records == [] then 0 else RecordLen(records[0]) + LenSum(records[1..])
  }

  /** The length the header announces. */
  function PayloadLen(records: seq<Record>): nat {
    8 + LenSum(records) + 8
  }

  lemma {:induction false} RecordsLen(records: seq<Record>)
    ensures |RecordsBytes(records)| == LenSum(records)
  {
    if records != [] {
      RecordsLen(records[1..]);
    }
  }

  // ---------------------------------------------------------------- reading

  datatype Taken = Taken(record: Record, rest: Bytes)

  /** One length-prefixed part, with the reader's bound on its length. */
  function TakePart(s: Bytes): Option<(Bytes, Bytes)> {
    var len := TakeWord(s);
    if len.None? || len.value > MAX_RECORD_LEN || |s| < 8 + len.value then None
    else Some((s[8..8 + len.value], s[8 + len.value..]))
  }

  /** One record; an end marker where a key length belongs is refused like any other length out of bounds. */
  function TakeRecord(s: Bytes): Option<Taken> {
    var key := TakePart(s);
    if key.None? then None
    else
      var value := TakePart(key.value.1);
      if value.None? then None else Some(Taken(Record(key.value.0, value.value.0), value.value.1))
  }

  datatype TakenAll = TakenAll(records: seq<Record>, rest: Bytes)

  function TakeRecords(s: Bytes, count: nat): Option<TakenAll>
    decreases count
  {
    if count == 0 then Some(TakenAll([], s))
    else
      var first := TakeRecord(s);
      if first.None? then None
      else
        var others := TakeRecords(first.value.rest, count - 1);
        if others.None? then None else Some(TakenAll([first.value.record] + others.value.records, others.value.rest))
  }

  /** What a reader gets out of a stream: the records, and what it left unread. */
  function Parse(s: Bytes): Option<TakenAll> {
    var count := TakeWord(s);
    if count.None? then None
    else
      var all := TakeRecords(s[8..], count.value);
      if all.None? then None
      else if TakeWord(all.value.rest) != Some(END_MARKER) then None
      else Some(TakenAll(all.value.records, all.value.rest[8..]))
  }

  // ---------------------------------------------------------------- round trips

  predicate Readable(r: Record) {
    |r.key| <= MAX_RECORD_LEN && |r.value| <= MAX_RECORD_LEN
  }

  lemma PartTaken(part: Bytes, rest: Bytes)
    requires |part| <= U64_MAX
    ensures TakePart(Word(|part|) + (part + rest)) == if |part| <= MAX_RECORD_LEN then Some((part, rest)) else None
  {
    WordTaken(|part|, part + rest);
    hide Word, TakeWord;
    var s := Word(|part|) + (part + rest);
    if |part| <= MAX_RECORD_LEN {
      assert s[8..8 + |part|] == part;
      assert s[8 + |part|..] == rest;
    }
  }

  lemma TakenPart(s: Bytes)
    requires TakePart(s).Some?
    ensures var (part, rest) := TakePart(s).value;
            s == Word(|part|) + (part + rest) && |part| <= MAX_RECORD_LEN
  {
    TakenWord(s);
    hide Word, TakeWord;
    var len := TakeWord(s).value;
    assert s[8..] == s[8..8 + len] + s[8 + len..];
  }

  lemma RecordTaken(r: Record, rest: Bytes)
    requires |r.key| <= U64_MAX && |r.value| <= U64_MAX
    ensures TakeRecord(RecordBytes(r) + rest) == if Readable(r) then Some(Taken(r, rest)) else None
  {
    var tail := Word(|r.value|) + (r.value + rest);
    PartTaken(r.key, tail);
    PartTaken(r.value, rest);
    hide Word, TakePart;
    Assoc(Word(|r.key|), r.key + (Word(|r.value|) + r.value), rest);
    Assoc(r.key, Word(|r.value|) + r.value, rest);
    Assoc(Word(|r.value|), r.value, rest);
  }

  lemma TakenRecord(s: Bytes)
    requires TakeRecord(s).Some?
    ensures var t := TakeRecord(s).value;
            s == RecordBytes(t.record) + t.rest && Readable(t.record)
  {
    TakenPart(s);
    var key := TakePart(s).value;
    TakenPart(key.1);
    hide Word, TakePart;
    var value := TakePart(key.1).value;
    Assoc(Word(|key.0|), key.0 + (Word(|value.0|) + value.0), value.1);
    Assoc(key.0, Word(|value.0|) + value.0, value.1);
    Assoc(Word(|value.0|), value.0, value.1);
  }

  ghost predicate AllReadable(records: seq<Record>) {
    forall i :: 0 <= i < |records| ==> Readable(records[i])
  }

  /** Lengths and counts that a 64-bit word can carry. */
  ghost predicate AllWords(records: seq<Record>) {
    |records| <= U64_MAX && forall i :: 0 <= i < |records| ==> |records[i].key| <= U64_MAX && |records[i].value| <= U64_MAX
  }

  lemma HeadAndTail(records: seq<Record>)
    requires records != []
    ensures [records[0]] + records[1..] == records
    ensures AllReadable(records) <==> Readable(records[0]) && AllReadable(records[1..])
    ensures AllWords(records) ==> AllWords(records[1..]) && |records[0].key| <= U64_MAX && |records[0].value| <= U64_MAX
  {
    forall i | 0 < i < |records| ensures records[i] == records[1..][i - 1] {
    }
  }

  lemma {:induction false} RecordsTaken(records: seq<Record>, rest: Bytes)
    requires AllWords(records)
    ensures TakeRecords(RecordsBytes(records) + rest, |records|) ==
            if AllReadable(records) then Some(TakenAll(records, rest)) else None
    decreases |records|
  {
    if records == [] {
      AddNothing(rest);
    } else {
      hide TakeRecords;
      hide RecordBytes, TakeRecord, AllReadable, AllWords, Readable;
      HeadAndTail(records);
      var tail := RecordsBytes(records[1..]) + rest;
      RecordTaken(records[0], tail);
      RecordsTaken(records[1..], rest);
      Assoc(RecordBytes(records[0]), RecordsBytes(records[1..]), rest);
      TakeStep(RecordBytes(records[0]) + tail, |records|);
    }
  }

  lemma TakeStep(s: Bytes, count: nat)
    requires count > 0
    ensures TakeRecord(s).None? ==> TakeRecords(s, count).None?
    ensures TakeRecord(s).Some? ==>
              var others := TakeRecords(TakeRecord(s).value.rest, count - 1);
              TakeRecords(s, count) ==
              if others.None? then None else Some(TakenAll([TakeRecord(s).value.record] + others.value.records,
                                                           others.value.rest))
  {
  }

  lemma {:induction false} TakenRecords(s: Bytes, count: nat)
    requires TakeRecords(s, count).Some?
    ensures var t := TakeRecords(s, count).value;
            s == RecordsBytes(t.records) + t.rest && AllReadable(t.records) && |t.records| == count
    decreases count
  {
    if count == 0 {
      AddNothing(s);
    } else {
      TakenRecord(s);
      var first := TakeRecord(s).value;
      TakenRecords(first.rest, count - 1);
      hide RecordBytes, TakeRecord;
      var others := TakeRecords(first.rest, count - 1).value;
      var all := [first.record] + others.records;
      assert all[1..] == others.records;
      Assoc(RecordBytes(first.record), RecordsBytes(others.records), others.rest);
    }
  }

  lemma PayloadSplit(records: seq<Record>, rest: Bytes)
    ensures Payload(records) + rest == Word(|records|) + (RecordsBytes(records) + (Word(END_MARKER) + rest))
    ensures |Payload(records)| == PayloadLen(records)
  {
    RecordsLen(records);
    hide Word, RecordsBytes;
    Assoc(Word(|records|), RecordsBytes(records) + Word(END_MARKER), rest);
    Assoc(RecordsBytes(records), Word(END_MARKER), rest);
  }

  /**
   * Written then read: the same records come back, nothing more is consumed than was written, and the length is the
   * announced one. This holds exactly when no key or value is longer than the reader allows.
   */
  lemma WrittenIsRead(records: seq<Record>, rest: Bytes)
    requires AllWords(records)
    ensures Parse(Payload(records) + rest) == if AllReadable(records) then Some(TakenAll(records, rest)) else None
    ensures |Payload(records)| == PayloadLen(records)
  {
    PayloadSplit(records, rest);
    var body := RecordsBytes(records) + (Word(END_MARKER) + rest);
    WordTaken(|records|, body);
    RecordsTaken(records, Word(END_MARKER) + rest);
    WordTaken(END_MARKER, rest);
    hide Word, RecordsBytes, TakeWord, TakeRecords, Payload, PayloadLen, AllReadable;
  }

  /** Read then written: what a reader accepts is, byte for byte, the encoding of the records it returns. */
  lemma ReadIsWritten(s: Bytes)
    requires Parse(s).Some?
    ensures var t := Parse(s).value;
            s == Payload(t.records) + t.rest && AllReadable(t.records) && |t.records| <= U64_MAX
  {
    TakenWord(s);
    var count := TakeWord(s).value;
    TakenRecords(s[8..], count);
    var all := TakeRecords(s[8..], count).value;
    TakenWord(all.rest);
    hide Word, RecordsBytes, TakeWord, TakeRecords;
    Assoc(Word(count), RecordsBytes(all.records) + Word(END_MARKER), all.rest[8..]);
    Assoc(RecordsBytes(all.records), Word(END_MARKER), all.rest[8..]);
  }

  /** What follows an accepted stream does not change what is read from it. */
  lemma AcceptedExtends(a: Bytes, b: Bytes)
    requires Parse(a).Some?
    ensures Parse(a + b) == Some(TakenAll(Parse(a).value.records, Parse(a).value.rest + b))
  {
    ReadIsWritten(a);
    var t := Parse(a).value;
    WrittenIsRead(t.records, t.rest + b);
    hide Parse, Payload, PayloadLen;
    Assoc(Payload(t.records), t.rest, b);
  }

  /** A stream cut anywhere short of its end is refused. */
  lemma CutIsRefused(records: seq<Record>, m: nat)
    requires AllWords(records) && AllReadable(records) && m < |Payload(records)|
    ensures Parse(Payload(records)[..m]).None?
  {
    var s := Payload(records);
    WrittenIsRead(records, []);
    hide Parse, Payload, PayloadLen, AllWords, AllReadable;
    AddNothing(s);
    SplitAt(s, m);
    StopsShort(s[..m], s[m..]);
  }

  lemma StopsShort(a: Bytes, b: Bytes)
    requires b != [] && Parse(a + b).Some? && Parse(a + b).value.rest == []
    ensures Parse(a).None?
  {
    hide Parse;
    if Parse(a).Some? {
      AcceptedExtends(a, b);
    }
  }

  // ---------------------------------------------------------------- the reader and the writer as they run

  method WritePayload(records: seq<Record>) returns (s: Bytes)
    ensures s == Payload(records)
  {
    hide Word, RecordBytes;
    s := Word(|records|);
    for i := 0 to |records|
      invariant s + RecordsBytes(records[i..]) == Word(|records|) + RecordsBytes(records)
    {
      assert records[i..][1..] == records[i + 1..];
      Assoc(s, RecordBytes(records[i]), RecordsBytes(records[i + 1..]));
      s := s + RecordBytes(records[i]);
    }
    assert records[|records|..] == [];
    AddNothing(s);
    s := s + Word(END_MARKER);
    Assoc(Word(|records|), RecordsBytes(records), Word(END_MARKER));
  }

  /** Reads a stream record by record, counting the bytes it consumes. */
  method ForEachRecord(s: Bytes) returns (r: Option<seq<Record>>, read: nat)
    ensures r.Some? <==> Parse(s).Some?
    ensures r.Some? ==> r.value == Parse(s).value.records && read + |Parse(s).value.rest| == |s|
  {
    hide TakeRecord, TakeWord;
    read := 0;
    var count := TakeWord(s);
    if count.None? {
      return None, read;
    }
    TakenWord(s);
    read := 8;
    var rest := s[8..];
    var records: seq<Record> := [];
    PrependNone(TakeRecords(rest, count.value));
    for i := 0 to count.value
      invariant read + |rest| == |s| && |records| == i
      invariant TakeRecords(s[8..], count.value) == Prepend(records, TakeRecords(rest, count.value - i))
    {
      var next := TakeRecord(rest);
      if next.None? {
        return None, read;
      }
      TakenRecord(rest);
      PrependOne(records, next.value.record, TakeRecords(next.value.rest, count.value - i - 1));
      hide TakeRecords, Prepend, RecordBytes;
      read := read + (|rest| - |next.value.rest|);
      records := records + [next.value.record];
      rest := next.value.rest;
    }
    var marker := TakeWord(rest);
    if marker != Some(END_MARKER) {
      return None, read;
    }
    TakenWord(rest);
    read := read + 8;
    return Some(records), read;
  }

  function Prepend(records: seq<Record>, all: Option<TakenAll>): Option<TakenAll> {
    if all.None? then None else Some(TakenAll(records + all.value.records, all.value.rest))
  }

  lemma PrependNone(all: Option<TakenAll>)
    ensures Prepend([], all) == all
  {
    if all.Some? {
      assert [] + all.value.records == all.value.records;
    }
  }

  lemma PrependOne(records: seq<Record>, r: Record, all: Option<TakenAll>)
    ensures Prepend(records, if all.None? then None else Some(TakenAll([r] + all.value.records, all.value.rest))) ==
            Prepend(records + [r], all)
  {
    if all.Some? {
      assert records + ([r] + all.value.records) == records + [r] + all.value.records;
    }
  }

  /** A snapshot written by one replica and read by another installs: the file carries every record across. */
  lemma FileCarriesSnapshot(records: seq<Record>)
    requires AllWords(records) && AllReadable(records)
    ensures Parse(Payload(records)).Some? && Parse(Payload(records)).value.records == records
    ensures |Payload(records)| - |Parse(Payload(records)).value.rest| == PayloadLen(records)
  {
    hide Parse, Payload, PayloadLen;
    WrittenIsRead(records, []);
    AddNothing(Payload(records));
  }
}
