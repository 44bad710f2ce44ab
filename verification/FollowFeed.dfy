/**
 * The follow feed as interleaved steps. Replicas commit and then broadcast, and may restart in between; a
 * subscription subscribes, reads history partition by partition and then drops what it already sent from the live
 * stream; a source restarts subscriptions from its cursors; the merger numbers the frames; the client resumes from the
 * last frame's cursor.
 */
module FollowFeed {
  import opened Base
  import opened Aggregate
  import opened ReadMerger
  import opened StoreReads
  import opened FeedChain

  /** What is fixed during a follow: each shard's log, growing replica by replica, and where partitions live. */
  datatype World = World(ty: TypeId, logs: seq<seq<StoredEvent>>, placement: seq<nat>, capacity: nat) {
    ghost predicate Valid() {
      && |placement| <= U16_MAX + 1
      && (forall p :: 0 <= p < |placement| ==> placement[p] < |logs| && Numbered(logs[placement[p]], ty, p))
    }

    /** The log of one partition. */
    function Log(p: nat): seq<StoredEvent>
      requires p < |placement| && placement[p] < |logs|
    {
      Announced(logs[placement[p]], ty, p)
    }

    /** The partitions a shard serves. */
    function Served(s: nat): set<nat> {
      set p | 0 <= p < |placement| && placement[p] == s
    }
  }

  datatype Item = Ev(event: StoredEvent) | Heads(heads: map<nat, nat>) | Failed

  /** A running subscription on one replica, with the stream to its source. */
  datatype Sub = Sub(
    replica: nat,
    starts: map<nat, nat>,
    fromNow: bool,
    received: nat,
    todo: seq<nat>,
    reading: nat,
    pending: seq<StoredEvent>,
    next: map<nat, nat>,
    live: bool,
    stopped: bool,
    stream: seq<Item>)

  datatype Source = Source(cursors: map<nat, nat>, fromNow: bool, sub: Option<Sub>)

  datatype Replica = Replica(committed: nat, broadcast: nat)

  /** History: the position a partition's frames count from, and how many frames the follow had produced by then. */
  datatype Capture = Capture(head: nat, at: nat)

  /**
   * `cursor` and `fromNow` are what the client would ask for if it had to open the follow again; `captures` is a history
   * of what the merger has been told.
   */
  datatype Feed = Feed(
    replicas: seq<seq<Replica>>,
    sources: seq<Source>,
    messages: seq<Message>,
    merger: Merger,
    frames: seq<Frame>,
    cursor: seq<nat>,
    fromNow: bool,
    received: seq<Frame>,
    captures: map<nat, Capture>)
  {
    /** Every frame of the follow, shown or still on its way. */
    function All(): seq<Frame> {
      received + frames
    }
  }

  datatype Action =
    | Commit(shard: nat, replica: nat, count: nat)
    | Broadcast(shard: nat, replica: nat)
    | Restart(shard: nat, replica: nat)
    | Open(shard: nat, replica: nat)
    | OpenFails(shard: nat)
    | ReadHistory(shard: nat)
    | SendHistory(shard: nat)
    | ReportHeads(shard: nat)
    | Receive(shard: nat)
    | Lag(shard: nat)
    | Forward(shard: nat)
    | Break(shard: nat, failed: bool)
    | Merge
    | Show
    | Reconnect

  // ---------------------------------------------------------------- the subscription

  /** Subscribes to the broadcast before anything is read. */
  function Subscribed(cursors: map<nat, nat>, fromNow: bool, replica: nat, broadcast: nat): Sub {
    Sub(replica, cursors, fromNow, broadcast, Ascending(cursors.Keys), 0, [], map[], false, false, [])
  }

  /** The stored events of a partition from a position, as the replica holds them now. */
  function History(w: World, s: nat, committed: nat, p: nat, start: nat): seq<StoredEvent>
    requires s < |w.logs| && committed <= |w.logs[s]|
  {
    var known := Announced(w.logs[s][..committed], w.ty, p);
    if start <= |known| then known[start..] else []
  }

  /** From a cursor the partition's history is read; from now its head is taken and no history is sent. */
  function StartReading(w: World, s: nat, sub: Sub, committed: nat): Sub
    requires s < |w.logs| && committed <= |w.logs[s]| && sub.todo != [] && sub.todo[0] in sub.starts
  {
    var p := sub.todo[0];
    var start := if sub.fromNow then Head(w.logs[s], committed, w.ty, p) else sub.starts[p];
    sub.(todo := sub.todo[1..], reading := p, next := sub.next[p := start],
         pending := if sub.fromNow then [] else History(w, s, committed, p, start))
  }

  function SendOne(sub: Sub): Sub
    requires sub.pending != []
  {
    var e := sub.pending[0];
    sub.(pending := sub.pending[1..], next := sub.next[sub.reading := SatAdd64(e.position, 1)],
         stream := sub.stream + [Ev(e)])
  }

  function TakeLive(w: World, sub: Sub, e: StoredEvent): Sub {
    var moved := sub.(received := sub.received + 1);
    if e.aggregateType != w.ty || e.partition !in sub.next || e.position < sub.next[e.partition] then moved
    else moved.(next := sub.next[e.partition := SatAdd64(e.position, 1)], stream := sub.stream + [Ev(e)])
  }

  // ---------------------------------------------------------------- the source

  function RaiseCursors(cursors: map<nat, nat>, heads: map<nat, nat>): map<nat, nat> {
    map p | p in cursors :: if p in heads then Max(cursors[p], heads[p]) else cursors[p]
  }

  /** The source after taking one item off its stream. */
  function SourceTakes(source: Source, item: Item): Source
    requires source.sub.Some? && source.sub.value.stream != []
  {
    var rest := Some(source.sub.value.(stream := source.sub.value.stream[1..]));
    match item
    case Ev(e) =>
      source.(cursors := if e.partition in source.cursors then source.cursors[e.partition := SatAdd64(e.position,
          1)] else source.cursors,
              sub := rest)
    case Heads(heads) => Source(RaiseCursors(source.cursors, heads), false, rest)
    case Failed => source.(sub := None)
  }

  function Passed(s: nat, item: Item): Message {
    match item
    case Ev(e) => SourceEvent(s, e.partition, e.position, Some(e))
    case Heads(heads) => SourceCaughtUp(s, heads)
    case Failed => SourceDegraded(s)
  }

  // ---------------------------------------------------------------- the whole feed

  /** A follow just opened: fresh sources, a fresh merger, empty channels. */
  function Opened(w: World, replicas: seq<seq<Replica>>, cursor: seq<nat>, fromNow: bool, received: seq<Frame>,
                  captures: map<nat, Capture>): Feed
    requires |cursor| == |w.placement|
  {
    Feed(replicas,
         seq(|w.logs|, s requires 0 <= s => Source(map p | p in w.Served(s) :: cursor[p], fromNow, None)),
         [],
         Merger(cursor, set p | 0 <= p < |w.placement| :: w.placement[p], {}, false),
         [], cursor, fromNow, received, captures)
  }

  function Zeros(w: World): (r: seq<nat>)
    ensures |r| == |w.placement|
  {
    seq(|w.placement|, _ => 0)
  }

  /** The frames of a follow from a cursor count from it. */
  function FromCursor(cursor: seq<nat>): map<nat, Capture> {
    map p | 0 <= p < |cursor| :: Capture(cursor[p], 0)
  }

  /** Whether the client has been shown a cursor that counts from this capture. */
  predicate StillCounts(f: Feed, p: nat)
    requires p < |f.cursor|
  {
    && p in f.captures
    && f.captures[p].at <= |f.received|
    && (f.captures[p].at < |f.received| || f.cursor[p] == f.captures[p].head)
  }

  /** A client that resumes goes on where its cursor says, partition by partition. */
  function Resumed(f: Feed): map<nat, Capture> {
    map p | 0 <= p < |f.cursor| :: if StillCounts(f, p) then f.captures[p] else Capture(f.cursor[p], |f.received|)
  }

  /** The first heads a source reports in a follow from now say where its partitions begin. */
  function Learnt(captures: map<nat, Capture>, message: Message, frames: nat): map<nat, Capture> {
    if message.SourceCaughtUp? then
      captures + (map p | p in message.heads && p !in captures :: Capture(message.heads[p], frames))
    else captures
  }

  predicate HasSub(f: Feed, s: nat) {
    s < |f.sources| && f.sources[s].sub.Some?
  }

  function WithSub(f: Feed, s: nat, sub: Sub): Feed
    requires s < |f.sources|
  {
    f.(sources := f.sources[s := f.sources[s].(sub := Some(sub))])
  }

  /** The stream ended or broke: the source may report it, and will open another. */
  function Dropped(f: Feed, s: nat, told: bool): Feed
    requires s < |f.sources|
  {
    f.(sources := f.sources[s := f.sources[s].(sub := None)],
       messages := if told then f.messages + [SourceDegraded(s)] else f.messages)
  }

  function WithReplica(f: Feed, s: nat, r: nat, replica: Replica): Feed
    requires s < |f.replicas| && r < |f.replicas[s]|
  {
    f.(replicas := f.replicas[s := f.replicas[s][r := replica]])
  }

  /** A replica as its process comes back: what it committed and had not announced, it never announces. */
  function Silent(replica: Replica): Replica {
    replica.(broadcast := replica.committed)
  }

  /**
   * The process of a replica comes back with a new broadcast channel. A subscription it served sends nothing more; what
   * it had sent may still arrive, and its source finds the stream broken when it comes to that.
   */
  function Restarted(f: Feed, s: nat, r: nat): Feed
    requires s < |f.replicas| && r < |f.replicas[s]| && s < |f.sources|
  {
    var g := WithReplica(f, s, r, Silent(f.replicas[s][r]));
    if f.sources[s].sub.Some? && f.sources[s].sub.value.replica == r then
      WithSub(g, s, f.sources[s].sub.value.(stopped := true))
    else
      g
  }

  predicate Enabled(w: World, f: Feed, a: Action) {
    match a
    case Commit(s, r, count) =>
      s < |f.replicas| && s < |w.logs| && r < |f.replicas[s]| && f.replicas[s][r].committed + count <= |w.logs[s]|
    case Broadcast(s, r) => s < |f.replicas| && r < |f.replicas[s]| && f.replicas[s][r].broadcast < f.replicas[s][r].committed
    case Restart(s, r) => s < |f.replicas| && r < |f.replicas[s]| && s < |f.sources|
    case Open(s, r) =>
      s < |f.replicas| && r < |f.replicas[s]| && s < |f.sources| && f.sources[s].sub.None? && f.sources[s].cursors != map[]
    case OpenFails(s) => s < |f.sources| && f.sources[s].sub.None? && f.sources[s].cursors != map[]
    case ReadHistory(s) =>
      HasSub(f, s) && var b := f.sources[s].sub.value; !b.stopped && !b.live && b.pending == [] && b.todo != []
    case SendHistory(s) => HasSub(f, s) && var b := f.sources[s].sub.value; !b.stopped && b.pending != []
    case ReportHeads(s) =>
      HasSub(f, s) && var b := f.sources[s].sub.value; !b.stopped && !b.live && b.pending == [] && b.todo == []
    case Receive(s) =>
      && HasSub(f, s) && s < |f.replicas|
      && var b := f.sources[s].sub.value;
         && !b.stopped && b.live && b.replica < |f.replicas[s]|
         && b.received < f.replicas[s][b.replica].broadcast <= b.received + w.capacity
    case Lag(s) =>
      && HasSub(f, s) && s < |f.replicas|
      && var b := f.sources[s].sub.value;
         && !b.stopped && b.live && b.replica < |f.replicas[s]|
         && f.replicas[s][b.replica].broadcast > b.received + w.capacity
    case Forward(s) => HasSub(f, s) && f.sources[s].sub.value.stream != []
    case Break(s, _) => HasSub(f, s)
    case Merge => f.messages != []
    case Show => f.frames != []
    case Reconnect => |f.cursor| == |w.placement|
  }

  /** Pointers stay inside the logs, and subscriptions point at replicas that exist. */
  ghost predicate Bounded(w: World, f: Feed) {
    && |f.replicas| == |f.sources| == |w.logs|
    && (forall s, r :: 0 <= s < |w.logs| && 0 <= r < |f.replicas[s]| ==>
          f.replicas[s][r].broadcast <= f.replicas[s][r].committed <= |w.logs[s]|)
    && (forall s :: 0 <= s < |w.logs| ==> f.sources[s].cursors.Keys == w.Served(s))
    && (forall s :: 0 <= s < |w.logs| && f.sources[s].sub.Some? ==> SubBounded(w, f, s, f.sources[s].sub.value))
    && |f.cursor| == |f.merger.cursor| == |w.placement|
    && (forall i :: 0 <= i < |f.All()| ==> |f.All()[i].cursor| == |w.placement|)
  }

  ghost predicate SubBounded(w: World, f: Feed, s: nat, b: Sub)
    requires s < |f.replicas|
  {
    && b.replica < |f.replicas[s]|
    && b.received <= f.replicas[s][b.replica].broadcast
    && b.starts.Keys == w.Served(s)
    && b.next.Keys <= b.starts.Keys
    && (forall i :: 0 <= i < |b.todo| ==> b.todo[i] in b.starts)
    && (forall i, j :: 0 <= i < j < |b.todo| ==> b.todo[i] < b.todo[j])
    && (b.pending != [] ==> b.reading in b.next)
    && (b.live ==> b.pending == [] && b.todo == [])
  }

  function Next(w: World, f: Feed, a: Action): Feed
    requires Enabled(w, f, a) && Bounded(w, f)
  {
    match a
    case Commit(s, r, count) => WithReplica(f, s, r, f.replicas[s][r].(committed := f.replicas[s][r].committed + count))
    case Broadcast(s, r) => WithReplica(f, s, r, f.replicas[s][r].(broadcast := f.replicas[s][r].broadcast + 1))
    case Restart(s, r) => Restarted(f, s, r)
    case Open(s, r) => WithSub(f, s, Subscribed(f.sources[s].cursors, f.sources[s].fromNow, r,
                                                f.replicas[s][r].broadcast))
    case OpenFails(s) => Dropped(f, s, true)
    case ReadHistory(s) => var b := f.sources[s].sub.value; WithSub(f, s,
                                                                    StartReading(w, s, b,
                                                                    f.replicas[s][b.replica].committed))
    case SendHistory(s) => WithSub(f, s, SendOne(f.sources[s].sub.value))
    case ReportHeads(s) =>
      var b := f.sources[s].sub.value;
      WithSub(f, s, b.(live := true, stream := b.stream + [Heads(b.next)]))
    case Receive(s) => var b := f.sources[s].sub.value; WithSub(f, s, TakeLive(w, b, w.logs[s][b.received]))
    case Lag(s) => var b := f.sources[s].sub.value; WithSub(f, s, b.(stopped := true, stream := b.stream + [Failed]))
    case Forward(s) =>
      var item := f.sources[s].sub.value.stream[0];
      f.(sources := f.sources[s := SourceTakes(f.sources[s], item)], messages := f.messages + [Passed(s, item)])
    case Break(s, failed) => Dropped(f, s, failed || !f.sources[s].fromNow)
    case Merge =>
      var merged := Take(f.merger, f.messages[0]);
      f.(messages := f.messages[1..], merger := merged.merger, frames := f.frames + merged.frames,
         captures := Learnt(f.captures, f.messages[0], |f.All()|))
    case Show =>
      assert f.All()[|f.received|] == f.frames[0];
      f.(frames := f.frames[1..], cursor := f.frames[0].cursor, fromNow := false,
         received := f.received + [f.frames[0]])
    case Reconnect =>
      if f.fromNow then Opened(w, f.replicas, Zeros(w), true, f.received, map[])
      else Opened(w, f.replicas, f.cursor, false, f.received, Resumed(f))
  }
}
