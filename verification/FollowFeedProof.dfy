/** The feed is gap-free: every channel of the pipeline is a chain, and the chains meet end to end. */
module FollowFeedProof {
  import opened Base
  import opened Aggregate
  import opened ReadMerger
  import opened StoreReads
  import opened FeedChain
  import opened FollowFeed

  // ---------------------------------------------------------------- what channel elements mean

  function ItemEffect(item: Item, p: nat): Effect {
    match item
    case Ev(e) => if e.partition == p then Emits(e.position, e) else Nothing
    case Heads(heads) => if p in heads then Reaches(heads[p]) else Nothing
    case Failed => Nothing
  }

  function MessageEffect(m: Message, p: nat): Effect {
    match m
    case SourceEvent(_, partition, position, event) =>
      if event.None? then (if partition == p then Broken else Nothing)
      else if event.value.partition != partition then Broken
      else if partition == p then Emits(position, event.value) else Nothing
    case SourceCaughtUp(_, heads) => if p in heads then Reaches(heads[p]) else Nothing
    case SourceDegraded(_) => Nothing
  }

  /** A frame's cursor must name exactly what has been emitted up to and including it. */
  function FrameEffect(f: Frame, p: nat): Effect {
    if p >= |f.cursor| then Broken
    else if f.payload.EventFrame? && f.payload.event.partition == p then
      if f.cursor[p] == f.payload.event.position + 1 then Emits(f.payload.event.position, f.payload.event) else Broken
    else Reaches(f.cursor[p])
  }

  function Items(items: seq<Item>, p: nat): (r: seq<Effect>)
    ensures |r| == |items|
  {
    seq(|items|, i requires 0 <= i < |items| => ItemEffect(items[i], p))
  }

  function Messages(messages: seq<Message>, p: nat): (r: seq<Effect>)
    ensures |r| == |messages|
  {
    seq(|messages|, i requires 0 <= i < |messages| => MessageEffect(messages[i], p))
  }

  function Frames(frames: seq<Frame>, p: nat): (r: seq<Effect>)
    ensures |r| == |frames|
  {
    seq(|frames|, i requires 0 <= i < |frames| => FrameEffect(frames[i], p))
  }

  // ---------------------------------------------------------------- the invariant

  /** Where a subscription has brought its stream; from now, nowhere before it has reported its heads. */
  function SubPlace(b: Sub, p: nat): Place
    requires p in b.starts
  {
    if b.fromNow && !b.live then None
    else if p in b.next then Some(b.next[p]) else Some(b.starts[p])
  }

  function SourcePlace(source: Source, p: nat): Place
    requires p in source.cursors
  {
    if source.fromNow then None else Some(source.cursors[p])
  }

  function MergerPlace(f: Feed, p: nat): Place
    requires p < |f.merger.cursor|
  {
    if p in f.captures then Some(f.merger.cursor[p]) else None
  }

  /** The history read for a partition and not yet sent. */
  function Held(b: Sub, p: nat): nat {
    if b.pending != [] && b.reading == p then |b.pending| else 0
  }

  ghost predicate HeldIsLog(b: Sub, p: nat, log: seq<StoredEvent>) {
    b.pending != [] && b.reading == p ==>
      && p in b.next
      && b.next[p] + |b.pending| <= |log|
      && b.pending == log[b.next[p]..b.next[p] + |b.pending|]
  }

  /** A partition's stream is a chain, and whatever the receiver has passed was sent or is about to be. */
  ghost predicate SubOk(w: World, s: nat, p: nat, place: Place, b: Sub)
    requires s < |w.logs| && b.received <= |w.logs[s]|
  {
    var log := Announced(w.logs[s], w.ty, p);
    && p in b.starts
    && (p in b.todo <==> p !in b.next)
    && Chain(Items(b.stream, p), log, place, SubPlace(b, p))
    && HeldIsLog(b, p, log)
    && (p in b.next ==> Head(w.logs[s], b.received, w.ty, p) <= b.next[p] + Held(b, p))
    && (b.fromNow ==> b.pending == [] && (p in b.next ==> b.live || b.next[p] <= |log|))
  }

  /** A stream speaks only of the partitions its shard serves, and its heads speak of all of them. */
  ghost predicate Local(w: World, s: nat, stream: seq<Item>) {
    forall i :: 0 <= i < |stream| ==>
      && (stream[i].Ev? ==> stream[i].event.partition in w.Served(s))
      && (stream[i].Heads? ==> stream[i].heads.Keys == w.Served(s))
  }

  ghost predicate SourceOk(w: World, f: Feed, p: nat)
    requires w.Valid() && Bounded(w, f) && p < |w.placement|
  {
    var s := w.placement[p];
    && (f.sources[s].fromNow ==> f.sources[s].cursors[p] == 0)
    && (f.sources[s].sub.Some? ==> SubOk(w, s, p, SourcePlace(f.sources[s], p), f.sources[s].sub.value))
  }

  ghost predicate MessagesOk(w: World, f: Feed, p: nat)
    requires w.Valid() && Bounded(w, f) && p < |w.placement|
  {
    && (p !in f.captures ==> f.merger.cursor[p] == 0)
    && Chain(Messages(f.messages, p), w.Log(p), MergerPlace(f, p), SourcePlace(f.sources[w.placement[p]], p))
  }

  /** Frames that show nothing of a partition and carry a zero for it. */
  ghost predicate Blank(frames: seq<Frame>, p: nat) {
    forall i :: 0 <= i < |frames| ==>
      && p < |frames[i].cursor| && frames[i].cursor[p] == 0
      && !(frames[i].payload.EventFrame? && frames[i].payload.event.partition == p)
  }

  /** Before a partition is captured its frames are blank; from the capture on they are a chain from its head. */
  ghost predicate FramesAre(all: seq<Frame>, p: nat, log: seq<StoredEvent>, captures: map<nat, Capture>, next: nat) {
    if p !in captures then Blank(all, p)
    else
      && captures[p].at <= |all|
      && Blank(all[..captures[p].at], p)
      && Chain(Frames(all[captures[p].at..], p), log, Some(captures[p].head), Some(next))
  }

  ghost predicate FramesOk(w: World, f: Feed, p: nat)
    requires w.Valid() && Bounded(w, f) && p < |w.placement|
  {
    FramesAre(f.All(), p, w.Log(p), f.captures, f.merger.cursor[p])
  }

  ghost predicate PartitionOk(w: World, f: Feed, p: nat)
    requires w.Valid() && Bounded(w, f) && p < |w.placement|
  {
    SourceOk(w, f, p) && MessagesOk(w, f, p) && FramesOk(w, f, p)
  }

  ghost predicate AllLocal(w: World, f: Feed)
    requires |f.sources| == |w.logs|
  {
    forall s :: 0 <= s < |w.logs| && f.sources[s].sub.Some? ==> Local(w, s, f.sources[s].sub.value.stream)
  }

  /**
   * What the client would resume from: the cursor of the last frame it was shown, or what it first asked for. A client
   * that was shown nothing and did not ask for now is where every partition's frames begin.
   */
  ghost predicate ClientOk(w: World, f: Feed)
    requires |f.cursor| == |w.placement|
  {
    && (f.fromNow ==> f.received == [])
    && (f.received != [] ==> f.cursor == f.received[|f.received| - 1].cursor)
    && (f.received == [] && !f.fromNow ==>
          forall p :: 0 <= p < |f.cursor| ==> p in f.captures && f.captures[p] == Capture(f.cursor[p], 0))
  }

  ghost predicate Inv(w: World, f: Feed) {
    && w.Valid() && Bounded(w, f) && AllLocal(w, f) && ClientOk(w, f)
    && forall p :: 0 <= p < |w.placement| ==> PartitionOk(w, f, p)
  }

  // ---------------------------------------------------------------- channel lemmas

  lemma ItemsSnoc(stream: seq<Item>, item: Item, p: nat, log: seq<StoredEvent>, from: Place, mid: Place)
    requires Chain(Items(stream, p), log, from, mid) && InPlace(ItemEffect(item, p), log, mid)
    ensures Chain(Items(stream + [item], p), log, from, After(ItemEffect(item, p), mid))
  {
    hide ItemEffect, InPlace;
    ChainSnoc(Items(stream, p), ItemEffect(item, p), log, from, mid);
    assert Items(stream + [item], p) == Items(stream, p) + [ItemEffect(item, p)];
  }

  lemma MessagesSnoc(messages: seq<Message>, m: Message, p: nat, log: seq<StoredEvent>, from: Place, mid: Place)
    requires Chain(Messages(messages, p), log, from, mid) && InPlace(MessageEffect(m, p), log, mid)
    ensures Chain(Messages(messages + [m], p), log, from, After(MessageEffect(m, p), mid))
  {
    hide MessageEffect, InPlace;
    ChainSnoc(Messages(messages, p), MessageEffect(m, p), log, from, mid);
    assert Messages(messages + [m], p) == Messages(messages, p) + [MessageEffect(m, p)];
  }

  lemma FramesSnoc(frames: seq<Frame>, f: Frame, p: nat, log: seq<StoredEvent>, from: Place, mid: Place)
    requires Chain(Frames(frames, p), log, from, mid) && InPlace(FrameEffect(f, p), log, mid)
    ensures Chain(Frames(frames + [f], p), log, from, After(FrameEffect(f, p), mid))
  {
    hide FrameEffect, InPlace;
    ChainSnoc(Frames(frames, p), FrameEffect(f, p), log, from, mid);
    assert Frames(frames + [f], p) == Frames(frames, p) + [FrameEffect(f, p)];
  }

  lemma ItemsTail(stream: seq<Item>, p: nat, log: seq<StoredEvent>, from: Place, to: Place)
    requires stream != [] && Chain(Items(stream, p), log, from, to)
    ensures InPlace(ItemEffect(stream[0], p), log, from)
    ensures Chain(Items(stream[1..], p), log, After(ItemEffect(stream[0], p), from), to)
  {
    hide ItemEffect, InPlace;
    assert Items(stream, p)[1..] == Items(stream[1..], p);
  }

  lemma MessagesTail(messages: seq<Message>, p: nat, log: seq<StoredEvent>, from: Place, to: Place)
    requires messages != [] && Chain(Messages(messages, p), log, from, to)
    ensures InPlace(MessageEffect(messages[0], p), log, from)
    ensures Chain(Messages(messages[1..], p), log, After(MessageEffect(messages[0], p), from), to)
  {
    hide MessageEffect, InPlace;
    assert Messages(messages, p)[1..] == Messages(messages[1..], p);
  }

  lemma FramesTail(frames: seq<Frame>, p: nat, log: seq<StoredEvent>, from: Place, to: Place)
    requires frames != [] && Chain(Frames(frames, p), log, from, to)
    ensures InPlace(FrameEffect(frames[0], p), log, from)
    ensures Chain(Frames(frames[1..], p), log, After(FrameEffect(frames[0], p), from), to)
  {
    hide FrameEffect, InPlace;
    assert Frames(frames, p)[1..] == Frames(frames[1..], p);
  }
}
