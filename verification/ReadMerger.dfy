/** The merger that turns the messages of several sources into one stream of frames, each with a resume cursor. */
module ReadMerger {
  import opened Base
  import opened Aggregate

  datatype Message =
    | SourceEvent(source: nat, partition: nat, position: nat, event: Option<StoredEvent>)
    | SourceCaughtUp(source: nat, heads: map<nat, nat>)
    | SourceDegraded(source: nat)

  datatype Payload = EventFrame(event: StoredEvent) | CaughtUpFrame | DegradedFrame(unavailable: nat) | RecoveredFrame

  datatype Frame = Frame(payload: Payload, cursor: seq<nat>)

  datatype Merger = Merger(cursor: seq<nat>, pending: set<nat>, unavailable: set<nat>, caughtUpSent: bool)

  datatype Merged = Merged(merger: Merger, frames: seq<Frame>)

  function Raise(cursor: seq<nat>, heads: map<nat, nat>): (r: seq<nat>)
    ensures |r| == |cursor|
  {
    seq(|cursor|, p requires 0 <= p < |cursor| =>
      if p in heads && p <= U16_MAX then Max(cursor[p], heads[p]) else cursor[p])
  }

  function TakeEvent(m: Merger, partition: nat, position: nat, event: Option<StoredEvent>): Merged {
    if partition > U16_MAX || partition >= |m.cursor| then Merged(m, [])
    else
      var cursor := m.cursor[partition := SatAdd64(position, 1)];
      Merged(m.(cursor := cursor), if event.None? then [] else [Frame(EventFrame(event.value), cursor)])
  }

  function TakeCaughtUp(m: Merger, source: nat, heads: map<nat, nat>): Merged {
    var cursor := Raise(m.cursor, heads);
    var pending := m.pending - {source};
    var unavailable := m.unavailable - {source};
    var recovered := source in m.unavailable && unavailable == {} && m.caughtUpSent;
    var first := pending == {} && !m.caughtUpSent;
    Merged(Merger(cursor, pending, unavailable, m.caughtUpSent || first),
           (if recovered then [Frame(RecoveredFrame, cursor)] else []) + (if first then [Frame(CaughtUpFrame,
               cursor)] else []))
  }

  function TakeDegraded(m: Merger, source: nat): Merged {
    var unavailable := m.unavailable + {source};
    Merged(m.(pending := m.pending + {source}, unavailable := unavailable),
           if source in m.unavailable then [] else [Frame(DegradedFrame(AsU32(|unavailable|)), m.cursor)])
  }

  function Take(m: Merger, message: Message): Merged {
    match message
    case SourceEvent(_, partition, position, event) => TakeEvent(m, partition, position, event)
    case SourceCaughtUp(source, heads) => TakeCaughtUp(m, source, heads)
    case SourceDegraded(source) => TakeDegraded(m, source)
  }

  /** The merger and all its frames after a run of messages. */
  function TakeAll(m: Merger, messages: seq<Message>): Merged
    decreases |messages|
  {
    if messages == [] then Merged(m, [])
    else
      var before := TakeAll(m, messages[..|messages| - 1]);
      var last := Take(before.merger, messages[|messages| - 1]);
      Merged(last.merger, before.frames + last.frames)
  }

  /** Merges the messages of a follow as they come in and sends every frame on. */
  method MergeAll(cursor: seq<nat>, sources: set<nat>, messages: seq<Message>) returns (frames: seq<Frame>)
    ensures frames == TakeAll(Merger(cursor, sources, {}, false), messages).frames
  {
    hide Take;
    var merger := new AggregateReadMerger(cursor, sources);
    frames := [];
    for i := 0 to |messages|
      invariant Merged(merger.View(), frames) == TakeAll(Merger(cursor, sources, {}, false), messages[..i])
    {
      assert messages[..i + 1][..i] == messages[..i];
      var more := merger.Apply(messages[i]);
      frames := frames + more;
    }
    assert messages[..|messages|] == messages;
  }

  class AggregateReadMerger {
    var cursor: seq<nat>
    var pending: set<nat>
    var unavailable: set<nat>
    var caughtUpSent: bool

    constructor (cursor: seq<nat>, sources: set<nat>)
      ensures View() == Merger(cursor, sources, {}, false)
    {
      this.cursor, pending, unavailable, caughtUpSent := cursor, sources, {}, false;
    }

    ghost function View(): Merger
      reads this
    {
      Merger(cursor, pending, unavailable, caughtUpSent)
    }

    /** Raises the cursor to every reported head, whatever the order they come in. */
    method RaiseTo(heads: map<nat, nat>)
      modifies `cursor
      ensures cursor == Raise(old(cursor), heads)
    {
      var todo := heads.Keys;
      while todo != {}
        invariant todo <= heads.Keys && |cursor| == |old(cursor)|
        invariant forall p :: 0 <= p < |cursor| ==>
                    cursor[p] == (if p in heads && p !in todo && p <= U16_MAX then Max(old(cursor)[p],
                        heads[p]) else old(cursor)[p])
        decreases |todo|
      {
        var p :| p in todo;
        todo := todo - {p};
        if p <= U16_MAX && p < |cursor| {
          cursor := cursor[p := Max(cursor[p], heads[p])];
        }
      }
    }

    method ApplyEvent(partition: nat, position: nat, event: Option<StoredEvent>) returns (frames: seq<Frame>)
      modifies `cursor
      ensures Merged(View(), frames) == TakeEvent(old(View()), partition, position, event)
    {
      if partition > U16_MAX || partition >= |cursor| {
        return [];
      }
      cursor := cursor[partition := SatAdd64(position, 1)];
      if event.None? {
        return [];
      }
      return [Frame(EventFrame(event.value), cursor)];
    }

    method ApplyCaughtUp(source: nat, heads: map<nat, nat>) returns (frames: seq<Frame>)
      modifies this
      ensures Merged(View(), frames) == TakeCaughtUp(old(View()), source, heads)
    {
      hide Raise;
      RaiseTo(heads);
      pending := pending - {source};
      var known := source in unavailable;
      unavailable := unavailable - {source};
      frames := [];
      if known && unavailable == {} && caughtUpSent {
        frames := frames + [Frame(RecoveredFrame, cursor)];
      }
      if pending == {} && !caughtUpSent {
        caughtUpSent := true;
        frames := frames + [Frame(CaughtUpFrame, cursor)];
      }
    }

    method ApplyDegraded(source: nat) returns (frames: seq<Frame>)
      modifies this
      ensures Merged(View(), frames) == TakeDegraded(old(View()), source)
    {
      pending := pending + {source};
      var known := source in unavailable;
      unavailable := unavailable + {source};
      if known {
        return [];
      }
      return [Frame(DegradedFrame(AsU32(|unavailable|)), cursor)];
    }

    method Apply(message: Message) returns (frames: seq<Frame>)
      modifies this
      ensures Merged(View(), frames) == Take(old(View()), message)
    {
      hide TakeEvent, TakeCaughtUp, TakeDegraded;
      match message
      case SourceEvent(_, partition, position, event) => frames := ApplyEvent(partition, position, event);
      case SourceCaughtUp(source, heads) => frames := ApplyCaughtUp(source, heads);
      case SourceDegraded(source) => frames := ApplyDegraded(source);
    }
  }
}
