/** Open file handles: a buffer that is committed at most once, and a stream that can only be read forward. */
module Handles {
  import opened Base

  datatype WriteError = InvalidOffset | TooLarge | Busy

  // ---------------------------------------------------------------- the one-shot write

  datatype CommitState<T> = Open | Committing(request: T) | Committed

  datatype Write<T> = Write(bytes: Bytes, limit: nat, prepared: Option<T>, state: CommitState<T>)

  /** What preparing the complete bytes gives; each attempt may bring its own closure. */
  type Prepare<!T> = Bytes -> Option<T>

  datatype WriteOp<!T> = WriteAt(offset: nat, data: Bytes) | Begin(prepare: Prepare<T>) | Finish(success: bool)

  function NewWrite<T>(limit: nat): Write<T> {
    Write([], limit, None, Open)
  }

  function Refusal<T>(w: Write<T>, offset: nat, data: Bytes): Option<WriteError> {
    if !w.state.Open? || w.prepared.Some? then Some(Busy)
    else if offset != |w.bytes| then Some(InvalidOffset)
    else if |w.bytes| + |data| > w.limit then Some(TooLarge)
    else None
  }

  datatype BeginResult<T> = Request(value: T) | AlreadyCommitted | InProgress | Unprepared

  /** What an attempt starts with: the request prepared first, however often the attempt is repeated. */
  function Started<T>(w: Write<T>, prepare: Prepare<T>): BeginResult<T> {
    if w.state.Committed? then AlreadyCommitted
    else if w.state.Committing? then InProgress
    else if w.prepared.Some? then Request(w.prepared.value)
    else if prepare(w.bytes).Some? then Request(prepare(w.bytes).value)
    else Unprepared
  }

  function AfterWrite<T>(w: Write<T>, op: WriteOp<T>): Write<T> {
    match op
    case WriteAt(offset, data) => if Refusal(w, offset, data).Some? then w else w.(bytes := w.bytes + data)
    case Begin(prepare) =>
      var request := Started(w, prepare);
      if !request.Request? then w else w.(prepared := Some(request.value), state := Committing(request.value))
    case Finish(success) => if !w.state.Committing? then w else w.(state := if success then Committed else Open)
  }

  /** The requests handed out along a run. */
  function Handed<T>(w: Write<T>, ops: seq<WriteOp<T>>): seq<T>
    decreases |ops|
  {
    if ops == [] then []
    else
      (if ops[0].Begin? && Started(w, ops[0].prepare).Request? then [Started(w, ops[0].prepare).value] else [])
      + Handed(AfterWrite(w, ops[0]), ops[1..])
  }

  function AfterWrites<T>(w: Write<T>, ops: seq<WriteOp<T>>): Write<T>
    decreases |ops|
  {
    if ops == [] then w else AfterWrites(AfterWrite(w, ops[0]), ops[1..])
  }

  ghost predicate Consistent<T>(w: Write<T>) {
    && (w.state.Committing? ==> w.prepared == Some(w.state.request))
    && (w.state.Committed? ==> w.prepared.Some?)
    && |w.bytes| <= w.limit
  }

  /**
   * Once a request is prepared, every later attempt hands out that same request, the bytes it was made from never
   * change, and after a success nothing is handed out at all.
   */
  lemma {:induction false} PreparedIsFinal<T>(w: Write<T>, ops: seq<WriteOp<T>>)
    requires Consistent(w) && w.prepared.Some?
    ensures forall i :: 0 <= i < |Handed(w, ops)| ==> Handed(w, ops)[i] == w.prepared.value
    ensures AfterWrites(w, ops).bytes == w.bytes && AfterWrites(w, ops).prepared == w.prepared
    ensures w.state.Committed? ==> Handed(w, ops) == []
    decreases |ops|
  {
    if ops != [] {
      PreparedIsFinal(AfterWrite(w, ops[0]), ops[1..]);
    }
  }

  /** One-shot commit: along any run of one handle, all requests handed out are the same request. */
  lemma {:induction false} OneRequest<T>(w: Write<T>, ops: seq<WriteOp<T>>)
    requires Consistent(w)
    ensures Consistent(AfterWrites(w, ops))
    ensures forall i :: 0 <= i < |Handed(w, ops)| ==> Handed(w, ops)[i] == Handed(w, ops)[0]
    ensures Handed(w, ops) != [] ==> AfterWrites(w, ops).prepared == Some(Handed(w, ops)[0])
    decreases |ops|
  {
    if ops != [] {
      var next := AfterWrite(w, ops[0]);
      OneRequest(next, ops[1..]);
      if next.prepared.Some? {
        PreparedIsFinal(next, ops[1..]);
      }
    }
  }

  /** Whatever happens next, the bytes only grow at the end, and not at all once a request is prepared. */
  lemma {:induction false} BytesGrow<T>(w: Write<T>, ops: seq<WriteOp<T>>)
    ensures w.bytes <= AfterWrites(w, ops).bytes
    decreases |ops|
  {
    if ops != [] { BytesGrow(AfterWrite(w, ops[0]), ops[1..]); }
  }

  /**
   * A chunk that is not refused is found at its offset for good, in everything the handle ever commits; one that is
   * refused leaves the handle as it was.
   */
  lemma ChunkStays<T>(w: Write<T>, offset: nat, data: Bytes, ops: seq<WriteOp<T>>)
    ensures var taken := AfterWrite(w, WriteAt(offset, data));
            if Refusal(w, offset, data).Some? then taken == w
            else
              var bytes := AfterWrites(taken, ops).bytes;
              && offset == |w.bytes| && offset + |data| <= |bytes|
              && bytes[..offset] == w.bytes && bytes[offset..offset + |data|] == data
  {
    var taken := AfterWrite(w, WriteAt(offset, data));
    if Refusal(w, offset, data).None? {
      BytesGrow(taken, ops);
      var bytes := AfterWrites(taken, ops).bytes;
      assert bytes[..|taken.bytes|] == taken.bytes;
    }
  }

  /** A preparation among the operations that makes this request of these bytes. */
  ghost predicate Makes<T(!new)>(ops: seq<WriteOp<T>>, bytes: Bytes, request: T) {
    exists i :: 0 <= i < |ops| && ops[i].Begin? && ops[i].prepare(bytes) == Some(request)
  }

  /** The request that is handed out was made of all the bytes the handle ever holds. */
  lemma {:induction false} RequestIsOfAllBytes<T(!new)>(w: Write<T>, ops: seq<WriteOp<T>>)
    requires Consistent(w) && w.prepared.None? && Handed(w, ops) != []
    ensures Makes(ops, AfterWrites(w, ops).bytes, Handed(w, ops)[0])
    decreases |ops|
  {
    var next := AfterWrite(w, ops[0]);
    if next.prepared.Some? {
      PreparedIsFinal(next, ops[1..]);
      assert ops[0].prepare(w.bytes) == Some(Handed(w, ops)[0]);
    } else {
      RequestIsOfAllBytes(next, ops[1..]);
      var rest := ops[1..];
      var i :| 0 <= i < |rest| && rest[i].Begin? && rest[i].prepare(AfterWrites(w, ops).bytes) == Some(Handed(w, ops)[0]);
      assert ops[i + 1] == rest[i];
    }
  }

  /** After a failed attempt the same request can be begun again; after a successful one nothing can. */
  lemma AttemptEnds<T>(w: Write<T>, success: bool, prepare: Prepare<T>)
    requires Consistent(w) && w.state.Committing?
    ensures Started(AfterWrite(w, Finish(success)), prepare) ==
            if success then AlreadyCommitted else Request(w.state.request)
  {
  }

  class BufferedWrite<T> {
    var bytes: Bytes
    const limit: nat
    var prepared: Option<T>
    var state: CommitState<T>

    constructor (limit: nat)
      ensures View() == NewWrite(limit)
    {
      this.limit := limit;
      bytes, prepared, state := [], None, Open;
    }

    ghost function View(): Write<T>
      reads this
    {
      Write(bytes, limit, prepared, state)
    }

    /** Appends a chunk and returns how many bytes it took. */
    method WriteChunk(offset: nat, data: Bytes) returns (error: Option<WriteError>, count: nat)
      modifies this
      ensures error == Refusal(old(View()), offset, data) && View() == AfterWrite(old(View()), WriteAt(offset, data))
      ensures count == if error.None? then AsU32(|data|) else 0
    {
      if !state.Open? || prepared.Some? {
        return Some(Busy), 0;
      }
      if offset != |bytes| {
        return Some(InvalidOffset), 0;
      }
      if |bytes| + |data| > limit {
        return Some(TooLarge), 0;
      }
      bytes := bytes + data;
      return None, AsU32(|data|);
    }

    method BeginCommit(prepare: Prepare<T>) returns (result: BeginResult<T>)
      modifies this
      ensures result == Started(old(View()), prepare) && View() == AfterWrite(old(View()), Begin(prepare))
    {
      if state.Committed? {
        return AlreadyCommitted;
      }
      if state.Committing? {
        return InProgress;
      }
      if prepared.None? {
        var made := prepare(bytes);
        if made.None? {
          return Unprepared;
        }
        prepared := made;
      }
      state := Committing(prepared.value);
      return Request(prepared.value);
    }

    method FinishCommit(success: bool)
      modifies this
      ensures View() == AfterWrite(old(View()), Finish(success))
    {
      if state.Committing? {
        state := if success then Committed else Open;
      }
    }
  }

  // ---------------------------------------------------------------- the forward stream

  datatype Stream = Stream(bytes: Bytes, consumed: nat, closed: bool)

  datatype StreamOp = Push(frame: Bytes) | Read(offset: nat, size: nat) | Close

  /** What a read returns: nothing yet, the end, or the next bytes. */
  function ReadResult(s: Stream, size: nat): Option<Bytes> {
    if s.bytes == [] then (if s.closed then Some([]) else None)
    else Some(s.bytes[..Min(|s.bytes|, size)])
  }

  function AfterStream(s: Stream, op: StreamOp): Stream {
    match op
    case Push(frame) => if s.closed then s else s.(bytes := s.bytes + frame)
    case Read(offset, size) =>
      if offset != s.consumed || s.bytes == [] then s
      else Stream(s.bytes[Min(|s.bytes|, size)..], SatAdd64(s.consumed, Min(|s.bytes|, size)), s.closed)
    case Close => s.(closed := true)
  }

  /** The bytes a step takes in. */
  function TakenIn(s: Stream, op: StreamOp): Bytes {
    if op.Push? && !s.closed then op.frame else []
  }

  /** The bytes a step gives out. */
  function GivenOut(s: Stream, op: StreamOp): Bytes {
    if op.Read? && op.offset == s.consumed && ReadResult(s, op.size).Some? then ReadResult(s, op.size).value else []
  }

  /** The frames accepted along a run, end to end. */
  function Pushed(s: Stream, ops: seq<StreamOp>): Bytes
    decreases |ops|
  {
    if ops == [] then [] else TakenIn(s, ops[0]) + Pushed(AfterStream(s, ops[0]), ops[1..])
  }

  /** The bytes returned by the reads of a run, end to end. */
  function Returned(s: Stream, ops: seq<StreamOp>): Bytes
    decreases |ops|
  {
    if ops == [] then [] else GivenOut(s, ops[0]) + Returned(AfterStream(s, ops[0]), ops[1..])
  }

  function AfterStreams(s: Stream, ops: seq<StreamOp>): Stream
    decreases |ops|
  {
    if ops == [] then s else AfterStreams(AfterStream(s, ops[0]), ops[1..])
  }

  lemma StepConserves(s: Stream, op: StreamOp)
    ensures GivenOut(s, op) + AfterStream(s, op).bytes == s.bytes + TakenIn(s, op)
  {
    if op.Read? && op.offset == s.consumed && s.bytes != [] {
      var n := Min(|s.bytes|, op.size);
      assert s.bytes[..n] + s.bytes[n..] == s.bytes;
    }
  }

  /** Nothing is lost, repeated or reordered: what was read and what is left are what was there and what was pushed. */
  lemma {:induction false} StreamConserves(s: Stream, ops: seq<StreamOp>)
    ensures Returned(s, ops) + AfterStreams(s, ops).bytes == s.bytes + Pushed(s, ops)
    decreases |ops|
  {
    if ops != [] {
      hide AfterStream, GivenOut, TakenIn;
      var next := AfterStream(s, ops[0]);
      StepConserves(s, ops[0]);
      StreamConserves(next, ops[1..]);
      Assoc(GivenOut(s, ops[0]), Returned(next, ops[1..]), AfterStreams(s, ops).bytes);
      Assoc(GivenOut(s, ops[0]), next.bytes, Pushed(next, ops[1..]));
      Assoc(s.bytes, TakenIn(s, ops[0]), Pushed(next, ops[1..]));
    }
  }

  /** The offset a read must name counts the bytes that were given out, as far as `u64` counts. */
  lemma {:induction false} OffsetCountsBytes(s: Stream, ops: seq<StreamOp>)
    requires s.consumed <= U64_MAX
    ensures AfterStreams(s, ops).consumed == Min(s.consumed + |Returned(s, ops)|, U64_MAX)
    decreases |ops|
  {
    if ops != [] {
      OffsetCountsBytes(AfterStream(s, ops[0]), ops[1..]);
    }
  }

  /** A read of any size that meets bytes gets some, and one that gets none meets the end: nothing more ever comes. */
  lemma {:induction false} EndIsFinal(s: Stream, size: nat, ops: seq<StreamOp>)
    requires size > 0
    ensures ReadResult(s, size) == Some([]) <==> s.closed && s.bytes == []
    ensures ReadResult(s, size) == Some([]) ==> Returned(s, ops) == []
    decreases |ops|
  {
    if ops != [] && s.closed && s.bytes == [] {
      EndIsFinal(AfterStream(s, ops[0]), size, ops[1..]);
    }
  }

  class StreamBuffer {
    var bytes: Bytes
    var consumed: nat
    var closed: bool

    constructor ()
      ensures View() == Stream([], 0, false)
    {
      bytes, consumed, closed := [], 0, false;
    }

    ghost function View(): Stream
      reads this
    {
      Stream(bytes, consumed, closed)
    }

    method PushFrame(frame: Bytes)
      modifies this
      ensures View() == AfterStream(old(View()), Push(frame))
    {
      if !closed {
        bytes := bytes + frame;
      }
    }

    /** Refused when the offset is not the consumed position. */
    method ReadNext(offset: nat, size: nat) returns (refused: bool, data: Option<Bytes>)
      modifies this
      ensures refused <==> offset != old(consumed)
      ensures !refused ==> data == ReadResult(old(View()), size)
      ensures View() == AfterStream(old(View()), Read(offset, size))
    {
      if offset != consumed {
        return true, None;
      }
      if bytes == [] {
        return false, if closed then Some([]) else None;
      }
      var count := Min(|bytes|, size);
      data := Some(bytes[..count]);
      bytes := bytes[count..];
      consumed := SatAdd64(consumed, count);
      refused := false;
    }

    method CloseStream()
      modifies this
      ensures View() == AfterStream(old(View()), Close)
    {
      closed := true;
    }
  }
}
