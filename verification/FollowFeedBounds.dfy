/**
 * Both ends of the feed: a client is never shown what no replica of the shard has committed, and once nothing is under
 * way it has been shown everything its replica has announced.
 */
module FollowFeedBounds {
  import opened Base
  import opened Aggregate
  import opened ReadMerger
  import opened StoreReads
  import opened FeedChain
  import opened FollowFeed
  import opened FollowFeedProof
  import opened FollowFeedSteps
  import opened FollowFeedRuns

  // ---------------------------------------------------------------- chains only rise

  lemma {:induction false} ChainRises(es: seq<Effect>, log: seq<StoredEvent>, from: nat, to: Place)
    requires Chain(es, log, Some(from), to)
    ensures to.Some? && from <= to.value
    decreases |es|
  {
    if es != [] { ChainRises(es[1..], log, After(es[0], Some(from)).value, to); }
  }

  lemma {:induction false} ChainEnds(es: seq<Effect>, log: seq<StoredEvent>, from: Place, a: Place, b: Place)
    requires Chain(es, log, from, a) && Chain(es, log, from, b)
    ensures a == b
    decreases |es|
  {
    if es != [] { ChainEnds(es[1..], log, After(es[0], from), a, b); }
  }

  // ---------------------------------------------------------------- everything announced is shown

  /**
   * Nothing is under way for a partition: its source has a live subscription that has received all its replica has
   * announced, and every channel to the client is empty.
   */
  ghost predicate Idle(w: World, f: Feed, p: nat) {
    && p < |w.placement| && f.frames == [] && f.messages == []
    && var s := w.placement[p];
       && HasSub(f, s) && s < |f.replicas|
       && var b := f.sources[s].sub.value;
          b.live && b.stream == [] && b.replica < |f.replicas[s]| && b.received == f.replicas[s][b.replica].broadcast
  }

  /** The client of an idle feed is where the subscription is, and the subscription has passed all it received. */
  lemma IdleCursor(w: World, f: Feed, p: nat)
    requires Inv(w, f) && Idle(w, f, p) && p in f.captures && f.captures[p].at <= |f.received|
    requires f.captures[p].at == |f.received| ==> f.cursor[p] == f.captures[p].head
    ensures |f.cursor| == |w.placement|
    ensures var s := w.placement[p];
            && f.sources[s].sub.value.received <= |w.logs[s]|
            && Head(w.logs[s], f.sources[s].sub.value.received, w.ty, p) <= f.cursor[p]
  {
    var s := w.placement[p];
    var b := f.sources[s].sub.value;
    InvBounded(w, f);
    Serves(w, p);
    SubAt(w, f, s, p);
    ReceivedCut(w, f, p);
    assert f.All() == f.received;
    hide Announced, Head, Numbered, InOrder, AllLocal, Local;
    assert PartitionOk(w, f, p);
    assert Items(b.stream, p) == [] && Messages(f.messages, p) == [];
    assert f.merger.cursor[p] == b.next[p];
    var at, log := f.captures[p].at, w.Log(p);
    if at < |f.received| {
      ChainEnds(Frames(f.received[at..], p), log, Some(f.captures[p].head), Some(f.merger.cursor[p]), Some(f.cursor[p]));
    } else {
      assert Frames(f.received[at..], p) == [];
    }
  }

  /**
   * Nothing is held back. Whenever a follow from a cursor has nothing under way for a partition, the client has been
   * shown every event of it, from where it started, that the replica it is served by has announced.
   */
  lemma AllShown(w: World, replicas: seq<seq<Replica>>, start: seq<nat>, actions: seq<Action>, p: nat)
    requires w.Valid() && |start| == |w.placement| && ReplicasOk(w, replicas) && p < |w.placement|
    requires Idle(w, Follow(w, replicas, start, actions), p)
    ensures var f, s := Follow(w, replicas, start, actions), w.placement[p];
            var announced := f.replicas[s][f.sources[s].sub.value.replica].broadcast;
            && announced <= |w.logs[s]| && p < |f.cursor|
            && Head(w.logs[s], announced, w.ty, p) <= f.cursor[p]
            && Shown(f.received, p) == Slice(w.Log(p), start[p], f.cursor[p])
  {
    var f := Follow(w, replicas, start, actions);
    FollowCounts(w, replicas, start, actions, p);
    GapFree(w, replicas, start, actions, p);
    hide Follow, Inv, Chain, Frames, Announced, Head, Shown, Slice, Opened, Bounded;
    assert f.captures[p].at == 0;
    IdleCursor(w, f, p);
  }

  // ---------------------------------------------------------------- only what is committed is shown

  /** The furthest any of these replicas has committed a partition. */
  function Furthest(w: World, s: nat, p: nat, replicas: seq<Replica>): nat
    requires s < |w.logs|
  {
    if replicas == [] then 0
    else Max(Head(w.logs[s], Min(replicas[0].committed, |w.logs[s]|), w.ty, p), Furthest(w, s, p, replicas[1..]))
  }

  lemma {:induction false} FurthestCovers(w: World, s: nat, p: nat, replicas: seq<Replica>, r: nat)
    requires s < |w.logs| && r < |replicas| && replicas[r].committed <= |w.logs[s]|
    ensures Head(w.logs[s], replicas[r].committed, w.ty, p) <= Furthest(w, s, p, replicas)
    decreases |replicas|
  {
    hide Head;
    if r > 0 { FurthestCovers(w, s, p, replicas[1..], r - 1); }
  }

  lemma {:induction false} FurthestRises(w: World, s: nat, p: nat, replicas: seq<Replica>, r: nat, replica: Replica)
    requires s < |w.logs| && r < |replicas| && replicas[r].committed <= replica.committed
    ensures Furthest(w, s, p, replicas) <= Furthest(w, s, p, replicas[r := replica])
    decreases |replicas|
  {
    if r > 0 {
      assert replicas[r := replica][1..] == replicas[1..][r - 1 := replica];
      FurthestRises(w, s, p, replicas[1..], r - 1, replica);
    } else {
      HeadMonotone(w.logs[s], Min(replicas[0].committed, |w.logs[s]|), Min(replica.committed, |w.logs[s]|), w.ty, p);
      assert replicas[0 := replica][1..] == replicas[1..];
    }
  }

  function Limit(w: World, f: Feed, start: nat, p: nat): nat
    requires p < |w.placement| && w.placement[p] < |w.logs| && w.placement[p] < |f.replicas|
  {
    Max(start, Furthest(w, w.placement[p], p, f.replicas[w.placement[p]]))
  }

  /** Where a subscription starts and where it has brought, or is about to bring, its stream. */
  ghost predicate SubBelow(b: Sub, p: nat, limit: nat) {
    p in b.starts && b.starts[p] <= limit && (p in b.next ==> b.next[p] + Held(b, p) <= limit)
  }

  ghost predicate SourceBelow(source: Source, p: nat, limit: nat) {
    && p in source.cursors && source.cursors[p] <= limit
    && (source.sub.Some? ==> SubBelow(source.sub.value, p, limit))
  }

  ghost predicate Below(w: World, f: Feed, start: nat, p: nat) {
    && Bounded(w, f) && w.Valid() && p < |w.placement|
    && f.cursor[p] <= Limit(w, f, start, p)
    && SourceBelow(f.sources[w.placement[p]], p, Limit(w, f, start, p))
  }

  lemma RaisedLimit(source: Source, p: nat, limit: nat, higher: nat)
    requires SourceBelow(source, p, limit) && limit <= higher
    ensures SourceBelow(source, p, higher)
  {
  }

  // ---------------------------------------------------------------- frames lie below the source

  lemma FrameBelow(w: World, f: Feed, p: nat, k: nat)
    requires Inv(w, f) && p < |w.placement| && k < |f.frames|
    ensures Bounded(w, f) && |f.frames[k].cursor| == |w.placement|
    ensures f.frames[k].cursor[p] <= f.sources[w.placement[p]].cursors[p]
  {
    InvBounded(w, f);
    hide SubOk, Announced, InOrder, AllLocal, SubBounded, Numbered;
    assert PartitionOk(w, f, p);
    var all, i := f.All(), |f.received| + k;
    assert all[i] == f.frames[k];
    if p in f.captures && f.captures[p].at <= i {
      var at := f.captures[p].at;
      hide Chain, Frames, Messages, FrameEffect;
      CutFrames(all[at..], p, w.Log(p), f.captures[p].head, f.merger.cursor[p], i - at);
      assert all[at..][i - at] == all[i];
      ChainRises(Messages(f.messages, p), w.Log(p), f.merger.cursor[p], SourcePlace(f.sources[w.placement[p]], p));
    } else if p in f.captures {
      assert f.All()[..f.captures[p].at][i] == all[i];
    }
  }

  /** The cursors of chained frames rise to where the chain ends. */
  lemma {:induction false} CutFrames(frames: seq<Frame>, p: nat, log: seq<StoredEvent>, from: nat, to: nat, k: nat)
    requires Chain(Frames(frames, p), log, Some(from), Some(to)) && k < |frames|
    ensures p < |frames[k].cursor| && frames[k].cursor[p] <= to
    decreases |frames|
  {
    FramesTail(frames, p, log, Some(from), Some(to));
    var e := FrameEffect(frames[0], p);
    if k == 0 {
      ChainRises(Frames(frames[1..], p), log, After(e, Some(from)).value, Some(to));
    } else {
      CutFrames(frames[1..], p, log, After(e, Some(from)).value, to, k - 1);
    }
  }

  // ---------------------------------------------------------------- the steps

  lemma ReadBelow(w: World, s: nat, b: Sub, committed: nat, p: nat, limit: nat)
    requires s < |w.logs| && committed <= |w.logs[s]| && b.todo != [] && b.todo[0] in b.starts && b.pending == []
    requires SubBelow(b, p, limit) && Head(w.logs[s], committed, w.ty, p) <= limit
    ensures SubBelow(StartReading(w, s, b, committed), p, limit)
  {
  }

  lemma SendBelow(w: World, s: nat, b: Sub, p: nat, limit: nat)
    requires s < |w.logs| && b.received <= |w.logs[s]| && b.pending != [] && b.reading in b.next
    requires Numbered(w.logs[s], w.ty, b.reading)
    requires HeldIsLog(b, b.reading, Announced(w.logs[s], w.ty, b.reading)) && SubBelow(b, p, limit)
    ensures SubBelow(SendOne(b), p, limit)
  {
    hide Announced;
    assert b.pending[0] == Announced(w.logs[s], w.ty, b.reading)[b.next[b.reading]];
  }

  lemma LiveBelow(w: World, s: nat, b: Sub, p: nat, limit: nat)
    requires s < |w.logs| && b.received < |w.logs[s]| && b.pending == [] && SubBelow(b, p, limit)
    requires Numbered(w.logs[s], w.ty, p) && Head(w.logs[s], b.received + 1, w.ty, p) <= limit
    ensures SubBelow(TakeLive(w, b, w.logs[s][b.received]), p, limit)
  {
    HeadMoves(w.logs[s], b.received, w.ty, p);
    hide Announced, Head, InOrder;
  }

  /** An item moves the source's cursor no further than its stream goes. */
  lemma TakeBelow(w: World, s: nat, source: Source, p: nat, limit: nat)
    requires s < |w.logs| && source.sub.Some? && source.sub.value.stream != [] && p in source.cursors
    requires source.sub.value.received <= |w.logs[s]| && Numbered(w.logs[s], w.ty, p)
    requires SubOk(w, s, p, SourcePlace(source, p), source.sub.value) && SourceBelow(source, p, limit)
    requires source.fromNow ==> source.cursors[p] == 0
    ensures SourceBelow(SourceTakes(source, source.sub.value.stream[0]), p, limit)
  {
    var b := source.sub.value;
    var log, item := Announced(w.logs[s], w.ty, p), b.stream[0];
    ItemsTail(b.stream, p, log, SourcePlace(source, p), SubPlace(b, p));
    var after := After(ItemEffect(item, p), SourcePlace(source, p));
    if after.Some? {
      ChainRises(Items(b.stream[1..], p), log, after.value, SubPlace(b, p));
    }
    hide Chain, Items, Announced, Head, InOrder;
    assert b.starts[p] <= limit && (p in b.next ==> b.next[p] <= limit);
    TakesLeaves(source, item);
  }

  lemma SameLimit(w: World, f: Feed, g: Feed, start: nat, p: nat)
    requires Below(w, f, start, p) && Bounded(w, g) && g.replicas == f.replicas && g.cursor == f.cursor
    requires SourceBelow(f.sources[w.placement[p]], p, Limit(w, f, start, p)) ==>
               SourceBelow(g.sources[w.placement[p]], p, Limit(w, f, start, p))
    ensures Below(w, g, start, p)
  {
    hide SourceBelow, Bounded, Furthest;
  }

  lemma ReplicaStepBelow(w: World, f: Feed, s: nat, r: nat, replica: Replica, start: nat, p: nat)
    requires Below(w, f, start, p) && s < |f.replicas| && r < |f.replicas[s]|
    requires f.replicas[s][r].committed <= replica.committed && Bounded(w, WithReplica(f, s, r, replica))
    ensures Below(w, WithReplica(f, s, r, replica), start, p)
  {
    var t := w.placement[p];
    if s == t { FurthestRises(w, t, p, f.replicas[t], r, replica); }
    hide Furthest, Bounded;
    RaisedLimit(f.sources[t], p, Limit(w, f, start, p), Limit(w, WithReplica(f, s, r, replica), start, p));
  }

  lemma CommittedBelow(w: World, f: Feed, start: nat, p: nat, r: nat)
    requires Below(w, f, start, p) && r < |f.replicas[w.placement[p]]|
    ensures f.replicas[w.placement[p]][r].committed <= |w.logs[w.placement[p]]|
    ensures Head(w.logs[w.placement[p]], f.replicas[w.placement[p]][r].committed, w.ty, p) <= Limit(w, f, start, p)
  {
    FurthestCovers(w, w.placement[p], p, f.replicas[w.placement[p]], r);
    hide Furthest, Head;
  }

  predicate SubStep(a: Action) {
    a.ReadHistory? || a.SendHistory? || a.ReportHeads? || a.Receive? || a.Lag?
  }

  /** The subscription after a step of its own. */
  function NextSub(w: World, f: Feed, a: Action): Sub
    requires SubStep(a) && Enabled(w, f, a) && Bounded(w, f)
  {
    var s := a.shard;
    var b := f.sources[s].sub.value;
    assert SubBounded(w, f, s, b);
    match a
    case ReadHistory(_) => StartReading(w, s, b, f.replicas[s][b.replica].committed)
    case SendHistory(_) => SendOne(b)
    case ReportHeads(_) => b.(live := true, stream := b.stream + [Heads(b.next)])
    case Receive(_) => TakeLive(w, b, w.logs[s][b.received])
    case _ => b.(stopped := true, stream := b.stream + [Failed])
  }

  lemma NextIsSub(w: World, f: Feed, a: Action)
    requires SubStep(a) && Enabled(w, f, a) && Bounded(w, f)
    ensures a.shard < |f.sources| && Next(w, f, a) == WithSub(f, a.shard, NextSub(w, f, a))
  {
    hide StartReading, SendOne, TakeLive;
  }

  lemma NextSubBelow(w: World, f: Feed, a: Action, start: nat, p: nat)
    requires SubStep(a) && Inv(w, f) && Enabled(w, f, a) && Below(w, f, start, p) && a.shard == w.placement[p]
    ensures SubBelow(NextSub(w, f, a), p, Limit(w, f, start, p))
  {
    var s := a.shard;
    var b := f.sources[s].sub.value;
    Serves(w, p);
    SubAt(w, f, s, p);
    CommittedBelow(w, f, start, p, b.replica);
    var limit := Limit(w, f, start, p);
    hide Furthest, Limit, Inv, SubOk, StartReading, SendOne, TakeLive, Local, Numbered, Head, Announced;
    if a.ReadHistory? {
      ReadBelow(w, s, b, f.replicas[s][b.replica].committed, p, limit);
    } else if a.SendHistory? {
      ReadingServed(w, f, s);
      SubAt(w, f, s, b.reading);
      SubHeld(w, s, b.reading, SourcePlace(f.sources[s], b.reading), b);
      SendBelow(w, s, b, p, limit);
    } else if a.Receive? {
      HeadMonotone(w.logs[s], b.received + 1, f.replicas[s][b.replica].committed, w.ty, p);
      LiveBelow(w, s, b, p, limit);
    }
  }

  lemma SubStepBelow(w: World, f: Feed, a: Action, start: nat, p: nat)
    requires Inv(w, f) && Enabled(w, f, a) && Below(w, f, start, p) && Bounded(w, Next(w, f, a))
    requires SubStep(a) && a.shard == w.placement[p]
    ensures Below(w, Next(w, f, a), start, p)
  {
    hide Inv, Next, Enabled, Furthest, Limit, Bounded, NextSub;
    NextIsSub(w, f, a);
    NextSubBelow(w, f, a, start, p);
    SameLimit(w, f, Next(w, f, a), start, p);
  }

  lemma ReadingServed(w: World, f: Feed, s: nat)
    requires Bounded(w, f) && HasSub(f, s) && s < |w.logs| && f.sources[s].sub.value.pending != []
    ensures f.sources[s].sub.value.reading in w.Served(s) && f.sources[s].sub.value.reading in f.sources[s].sub.value.next
  {
    assert SubBounded(w, f, s, f.sources[s].sub.value);
  }

  lemma ForwardBelow(w: World, f: Feed, start: nat, p: nat)
    requires Inv(w, f) && Below(w, f, start, p) && Enabled(w, f, Forward(w.placement[p]))
    requires Bounded(w, Next(w, f, Forward(w.placement[p])))
    ensures Below(w, Next(w, f, Forward(w.placement[p])), start, p)
  {
    var s := w.placement[p];
    Serves(w, p);
    SubAt(w, f, s, p);
    assert PartitionOk(w, f, p);
    TakeBelow(w, s, f.sources[s], p, Limit(w, f, start, p));
    hide Inv, SubOk, PartitionOk, SourceTakes, SourceBelow, Limit, Numbered, Local, Bounded;
    SameLimit(w, f, Next(w, f, Forward(s)), start, p);
  }

  /** A step of another shard leaves this partition's source alone. */
  lemma ElsewhereBelow(w: World, f: Feed, a: Action, start: nat, p: nat)
    requires Enabled(w, f, a) && Below(w, f, start, p) && Bounded(w, Next(w, f, a))
    requires !a.Commit? && !a.Broadcast? && !a.Restart? && !a.Merge? && !a.Show? && !a.Reconnect?
    requires a.shard != w.placement[p]
    ensures Below(w, Next(w, f, a), start, p)
  {
    hide Furthest, Limit, SourceBelow, StartReading, SendOne, TakeLive, SourceTakes, Subscribed, SubBounded;
    SameLimit(w, f, Next(w, f, a), start, p);
  }

  lemma OpenBelow(w: World, f: Feed, a: Action, start: nat, p: nat)
    requires Enabled(w, f, a) && Below(w, f, start, p) && Bounded(w, Next(w, f, a))
    requires (a.Open? || a.OpenFails? || a.Break?) && a.shard == w.placement[p]
    ensures Below(w, Next(w, f, a), start, p)
  {
    hide Furthest, Limit, Bounded, Ascending;
    SameLimit(w, f, Next(w, f, a), start, p);
  }

  lemma ClientBelow(w: World, f: Feed, a: Action, start: nat, p: nat)
    requires Inv(w, f) && Enabled(w, f, a) && Below(w, f, start, p) && Bounded(w, Next(w, f, a))
    requires a.Merge? || a.Show? || a.Reconnect?
    ensures Below(w, Next(w, f, a), start, p)
  {
    if a.Show? { FrameBelow(w, f, p, 0); }
    Serves(w, p);
    hide Furthest, Inv, Take, Learnt, Resumed, Bounded;
    var s, g := w.placement[p], Next(w, f, a);
    assert Limit(w, g, start, p) == Limit(w, f, start, p);
  }

  lemma RestartBelow(w: World, f: Feed, s: nat, r: nat, start: nat, p: nat)
    requires Enabled(w, f, Restart(s, r)) && Below(w, f, start, p)
    requires Bounded(w, Next(w, f, Restart(s, r))) && Bounded(w, WithReplica(f, s, r, Silent(f.replicas[s][r])))
    ensures Below(w, Next(w, f, Restart(s, r)), start, p)
  {
    var g := WithReplica(f, s, r, Silent(f.replicas[s][r]));
    ReplicaStepBelow(w, f, s, r, Silent(f.replicas[s][r]), start, p);
    hide Furthest, Limit, Bounded;
    SameLimit(w, g, Next(w, f, Restart(s, r)), start, p);
  }

  lemma SilentBounded(w: World, f: Feed, s: nat, r: nat)
    requires Inv(w, f) && Enabled(w, f, Restart(s, r))
    ensures Bounded(w, WithReplica(f, s, r, Silent(f.replicas[s][r])))
  {
    InvBounded(w, f);
    assert s < |w.logs|;
    ReplicaKeeps(w, f, s, r, Silent(f.replicas[s][r]));
    hide Inv;
    InvBounded(w, WithReplica(f, s, r, Silent(f.replicas[s][r])));
  }

  lemma CommitBelow(w: World, f: Feed, a: Action, start: nat, p: nat)
    requires (a.Commit? || a.Broadcast?) && Enabled(w, f, a) && Below(w, f, start, p) && Bounded(w, Next(w, f, a))
    ensures Below(w, Next(w, f, a), start, p)
  {
    hide WithReplica, Furthest, SourceBelow;
    var r := f.replicas[a.shard][a.replica];
    if a.Commit? {
      ReplicaStepBelow(w, f, a.shard, a.replica, r.(committed := r.committed + a.count), start, p);
    } else {
      ReplicaStepBelow(w, f, a.shard, a.replica, r.(broadcast := r.broadcast + 1), start, p);
    }
  }

  lemma StepBelow(w: World, f: Feed, a: Action, start: nat, p: nat)
    requires Inv(w, f) && Enabled(w, f, a) && Below(w, f, start, p)
    ensures Inv(w, Next(w, f, a)) && Below(w, Next(w, f, a), start, p)
  {
    hide Inv, Next, Enabled, Bounded;
    assert p < |w.placement|;
    hide Below;
    StepKeeps(w, f, a);
    InvBounded(w, Next(w, f, a));
    if a.Commit? || a.Broadcast? {
      CommitBelow(w, f, a, start, p);
    } else if a.Restart? {
      SilentBounded(w, f, a.shard, a.replica);
      RestartBelow(w, f, a.shard, a.replica, start, p);
    } else if a.Merge? || a.Show? || a.Reconnect? {
      ClientBelow(w, f, a, start, p);
    } else if a.shard != w.placement[p] {
      ElsewhereBelow(w, f, a, start, p);
    } else if a.Forward? {
      ForwardBelow(w, f, start, p);
    } else if SubStep(a) {
      SubStepBelow(w, f, a, start, p);
    } else {
      OpenBelow(w, f, a, start, p);
    }
  }

  lemma {:induction false} RunBelow(w: World, f: Feed, actions: seq<Action>, start: nat, p: nat)
    requires Inv(w, f) && Below(w, f, start, p)
    ensures Below(w, RunFrom(w, f, actions), start, p)
    decreases |actions|
  {
    hide Inv, Below, Next, Enabled;
    if actions != [] {
      if Enabled(w, f, actions[0]) {
        BelowBounded(w, f, start, p);
        StepBelow(w, f, actions[0], start, p);
        RunBelow(w, Next(w, f, actions[0]), actions[1..], start, p);
      } else {
        RunBelow(w, f, actions[1..], start, p);
      }
    }
  }

  lemma BelowBounded(w: World, f: Feed, start: nat, p: nat)
    requires Below(w, f, start, p)
    ensures Bounded(w, f)
  {
  }

  /** How far the replicas of a partition's shard have committed it, or where the client started if that is further. */
  lemma StartBelow(w: World, replicas: seq<seq<Replica>>, start: seq<nat>, p: nat)
    requires w.Valid() && |start| == |w.placement| && ReplicasOk(w, replicas) && p < |w.placement|
    ensures Below(w, FromStart(w, replicas, start), start[p], p) && Below(w, StartNow(w, replicas), 0, p)
  {
    StartOk(w, replicas, start);
    InvBounded(w, FromStart(w, replicas, start));
    InvBounded(w, StartNow(w, replicas));
    Serves(w, p);
    hide Furthest, Inv, Bounded;
  }

  /**
   * Nothing is shown before it is committed. A client's cursor for a partition never passes what some replica of the
   * partition's shard has committed, unless it started further on; so with `GapFree` every event it was shown is one
   * that a replica has committed.
   */
  lemma OnlyCommitted(w: World, replicas: seq<seq<Replica>>, start: seq<nat>, actions: seq<Action>, p: nat)
    requires w.Valid() && |start| == |w.placement| && ReplicasOk(w, replicas) && p < |w.placement|
    ensures var f := Follow(w, replicas, start, actions);
            p < |f.cursor| && w.placement[p] < |f.replicas| && f.cursor[p] <= Limit(w, f, start[p], p)
    ensures var f := FollowNow(w, replicas, actions);
            p < |f.cursor| && w.placement[p] < |f.replicas| && f.cursor[p] <= Limit(w, f, 0, p)
  {
    StartOk(w, replicas, start);
    StartOk(w, replicas, Zeros(w));
    StartBelow(w, replicas, start, p);
    RunBelow(w, FromStart(w, replicas, start), actions, start[p], p);
    RunBelow(w, StartNow(w, replicas), actions, 0, p);
    hide Furthest, RunFrom, Inv, Opened;
  }
}
