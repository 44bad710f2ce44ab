/**
 * The follow feed over whole runs: any interleaving of its steps delivers every partition's log without gap or
 * repeat.
 */
module FollowFeedRuns {
  import opened Base
  import opened Aggregate
  import opened ReadMerger
  import opened StoreReads
  import opened FeedChain
  import opened FollowFeed
  import opened FollowFeedProof
  import opened FollowFeedSteps

  // ---------------------------------------------------------------- the merger

  lemma RaisedTo(cursor: seq<nat>, heads: map<nat, nat>, p: nat)
    requires p < |cursor| && p <= U16_MAX
    ensures p in heads && (heads[p] == cursor[p] || cursor[p] == 0) ==> Raise(cursor, heads)[p] == heads[p]
    ensures p !in heads ==> Raise(cursor, heads)[p] == cursor[p]
  {
  }

  /** A message gives rise to at most one frame, which carries the merger's new cursor. */
  lemma OneFrame(m: Merger, message: Message)
    ensures var t := Take(m, message);
            && |t.merger.cursor| == |m.cursor|
            && (t.frames == [] || (|t.frames| == 1 && t.frames[0].cursor == t.merger.cursor))
  {
    hide Raise;
  }

  /** The merger's cursor for a partition moves by the message's effect on it. */
  lemma MergedPlace(m: Merger, message: Message, p: nat, log: seq<StoredEvent>, place: Place)
    requires p < |m.cursor| <= U16_MAX + 1 && InOrder(log, p)
    requires place == Some(m.cursor[p]) || (place.None? && m.cursor[p] == 0)
    requires InPlace(MessageEffect(message, p), log, place)
    ensures var t := Take(m, message);
            var place' := After(MessageEffect(message, p), place);
            && |t.merger.cursor| == |m.cursor|
            && t.merger.cursor[p] == (if place'.Some? then place'.value else 0)
            && (place.None? ==> (place'.Some? <==> message.SourceCaughtUp? && p in message.heads))
            && (place.None? && place'.Some? ==> place'.value == message.heads[p])
            && (place.Some? ==> place'.Some? && (t.frames == [] ==> place' == place))
  {
    OneFrame(m, message);
    if message.SourceCaughtUp? {
      RaisedTo(m.cursor, message.heads, p);
      hide Raise;
    }
  }

  /** The frame of a message is in place for a partition the merger knows the place of. */
  lemma MergedFrame(m: Merger, message: Message, p: nat, log: seq<StoredEvent>, place: Place)
    requires p < |m.cursor| <= U16_MAX + 1 && InOrder(log, p)
    requires place == Some(m.cursor[p]) || (place.None? && m.cursor[p] == 0)
    requires InPlace(MessageEffect(message, p), log, place) && After(MessageEffect(message, p), place).Some?
    requires Take(m, message).frames != []
    ensures var f := Take(m, message).frames[0];
            var from := if place.Some? then place else After(MessageEffect(message, p), place);
            InPlace(FrameEffect(f, p), log, from) && After(FrameEffect(f, p),
                                                           from) == After(MessageEffect(message, p), place)
  {
    MergedPlace(m, message, p, log, place);
    OneFrame(m, message);
    hide Raise;
  }

  /** A message about other partitions makes a blank frame for one whose place is not known. */
  lemma MergedBlank(m: Merger, message: Message, p: nat, log: seq<StoredEvent>)
    requires p < |m.cursor| <= U16_MAX + 1 && m.cursor[p] == 0 && InOrder(log, p)
    requires InPlace(MessageEffect(message, p), log, None) && After(MessageEffect(message, p), None).None?
    ensures Blank(Take(m, message).frames, p)
  {
    MergedPlace(m, message, p, log, None);
    OneFrame(m, message);
    hide Raise;
  }

  lemma BlankConcat(a: seq<Frame>, b: seq<Frame>, p: nat)
    requires Blank(a, p) && Blank(b, p)
    ensures Blank(a + b, p)
  {
  }

  /** The frames of a follow after one more message. */
  lemma MergeFrames(m: Merger, message: Message, all: seq<Frame>, p: nat, log: seq<StoredEvent>, captures: map<nat,
                    Capture>)
    requires p < |m.cursor| <= U16_MAX + 1 && InOrder(log, p)
    requires p !in captures ==> m.cursor[p] == 0
    requires InPlace(MessageEffect(message, p), log, if p in captures then Some(m.cursor[p]) else None)
    requires FramesAre(all, p, log, captures, m.cursor[p])
    ensures var t := Take(m, message);
            var learnt := Learnt(captures, message, |all|);
            && |t.merger.cursor| == |m.cursor|
            && (p !in learnt ==> t.merger.cursor[p] == 0)
            && (if p in learnt then Some(t.merger.cursor[p]) else None) ==
               After(MessageEffect(message, p), if p in captures then Some(m.cursor[p]) else None)
            && FramesAre(all + t.frames, p, log, learnt, t.merger.cursor[p])
  {
    hide Chain, Frames, Take, Blank, MessageEffect, FrameEffect, InPlace, InOrder;
    var t := Take(m, message);
    var place := if p in captures then Some(m.cursor[p]) else None;
    MergedPlace(m, message, p, log, place);
    OneFrame(m, message);
    if After(MessageEffect(message, p), place).None? {
      MergedBlank(m, message, p, log);
      BlankConcat(all, t.frames, p);
    } else {
      var from := if place.Some? then place else After(MessageEffect(message, p), place);
      var at, head := if p in captures then captures[p].at else |all|, if p in captures then captures[p].head else from.value;
      assert p in Learnt(captures, message, |all|) && Learnt(captures, message, |all|)[p] == Capture(head, at);
      if p !in captures {
        NoFrames(all, p, log, head);
      }
      if t.frames != [] {
        MergedFrame(m, message, p, log, place);
        FramesSnoc(all[at..], t.frames[0], p, log, Some(head), from);
      }
      Cuts(all, t.frames, at);
    }
  }

  lemma NoFrames(all: seq<Frame>, p: nat, log: seq<StoredEvent>, head: nat)
    ensures all[..|all|] == all && Chain(Frames(all[|all|..], p), log, Some(head), Some(head))
  {
    assert Frames(all[|all|..], p) == [];
  }

  lemma Cuts(all: seq<Frame>, more: seq<Frame>, at: nat)
    requires at <= |all|
    ensures (all + more)[..at] == all[..at] && (all + more)[at..] == all[at..] + more
    ensures more == [] ==> all + more == all
    ensures |more| == 1 ==> more == [more[0]]
  {
  }

  // ---------------------------------------------------------------- every step

  lemma Serves(w: World, p: nat)
    requires p < |w.placement|
    ensures p in w.Served(w.placement[p])
    ensures forall s :: p in w.Served(s) <==> s == w.placement[p]
  {
  }

  /** A step that replaces one subscription. */
  lemma SubKeeps(w: World, f: Feed, s: nat, b: Sub)
    requires Inv(w, f) && s < |w.logs| && SubBounded(w, f, s, b) && Local(w, s, b.stream)
    requires forall p :: p in w.Served(s) ==> SubOk(w, s, p, SourcePlace(f.sources[s], p), b)
    ensures Inv(w, WithSub(f, s, b))
  {
    var g := WithSub(f, s, b);
    hide Local, SubOk, SubBounded, Chain, Numbered;
    assert g.All() == f.All();
    assert Bounded(w, g) by {
      forall t | 0 <= t < |w.logs| && g.sources[t].sub.Some? ensures SubBounded(w, g, t, g.sources[t].sub.value) {
        SubBoundedFramed(w, f, g, t, g.sources[t].sub.value);
      }
    }
    hide Bounded, FramesAre, Messages;
    forall p | 0 <= p < |w.placement| ensures PartitionOk(w, g, p) {
      SubPartition(w, f, s, b, p);
    }
  }

  lemma SubPartition(w: World, f: Feed, s: nat, b: Sub, p: nat)
    requires Inv(w, f) && s < |w.logs| && SubBounded(w, f, s, b) && p < |w.placement| && Bounded(w, WithSub(f, s, b))
    requires p in w.Served(s) ==> SubOk(w, s, p, SourcePlace(f.sources[s], p), b)
    ensures PartitionOk(w, WithSub(f, s, b), p)
  {
    hide Local, SubOk, SubBounded, Chain, Numbered, FramesAre, Messages;
    assert PartitionOk(w, f, p);
    assert WithSub(f, s, b).All() == f.All();
    Serves(w, p);
  }

  lemma SubBoundedFramed(w: World, f: Feed, g: Feed, s: nat, b: Sub)
    requires s < |f.replicas| && g.replicas == f.replicas && SubBounded(w, f, s, b)
    ensures SubBounded(w, g, s, b)
  {
  }

  /** Dropping a subscription, and telling the merger about it or not. */
  lemma DroppedKeeps(w: World, f: Feed, s: nat, told: bool)
    requires Inv(w, f) && s < |w.logs|
    ensures Inv(w, Dropped(f, s, told))
  {
    var g := Dropped(f, s, told);
    hide Local, SubOk, SubBounded, Chain, Messages, Numbered, FramesAre;
    assert g.All() == f.All();
    assert Bounded(w, g) by {
      forall t | 0 <= t < |w.logs| && g.sources[t].sub.Some? ensures SubBounded(w, g, t, g.sources[t].sub.value) {
        SubBoundedFramed(w, f, g, t, g.sources[t].sub.value);
      }
    }
    hide SourceOk, MessagesOk, FramesOk, Bounded;
    forall p | 0 <= p < |w.placement| ensures PartitionOk(w, g, p) {
      DroppedPartition(w, f, s, told, p);
    }
  }

  lemma DroppedPartition(w: World, f: Feed, s: nat, told: bool, p: nat)
    requires Inv(w, f) && s < |w.logs| && p < |w.placement| && Bounded(w, Dropped(f, s, told))
    ensures PartitionOk(w, Dropped(f, s, told), p)
  {
    hide Local, SubOk, SubBounded, Chain, Messages, Numbered, FramesAre;
    assert PartitionOk(w, f, p);
    assert Dropped(f, s, told).All() == f.All();
    MessagesSnoc(f.messages, SourceDegraded(s), p, w.Log(p), MergerPlace(f, p),
                 SourcePlace(f.sources[w.placement[p]], p));
  }

  lemma ReplicaKeeps(w: World, f: Feed, s: nat, r: nat, replica: Replica)
    requires Inv(w, f) && s < |w.logs| && r < |f.replicas[s]|
    requires f.replicas[s][r].broadcast <= replica.broadcast <= replica.committed <= |w.logs[s]|
    ensures Inv(w, WithReplica(f, s, r, replica))
  {
    var g := WithReplica(f, s, r, replica);
    hide Local, SubOk, Chain, Numbered;
    assert g.All() == f.All();
    assert Bounded(w, g);
    forall p | 0 <= p < |w.placement| ensures PartitionOk(w, g, p) {
      assert PartitionOk(w, f, p);
    }
  }

  /** What the invariant says about one running subscription and a partition its shard serves. */
  lemma SubAt(w: World, f: Feed, s: nat, p: nat)
    requires Inv(w, f) && s < |w.logs| && p in w.Served(s) && f.sources[s].sub.Some?
    ensures SubBounded(w, f, s, f.sources[s].sub.value) && Local(w, s, f.sources[s].sub.value.stream)
    ensures SubOk(w, s, p, SourcePlace(f.sources[s], p), f.sources[s].sub.value)
    ensures Numbered(w.logs[s], w.ty, p)
  {
    hide Local, SubOk, Chain, Numbered;
    assert PartitionOk(w, f, p);
  }

  lemma OpenKeeps(w: World, f: Feed, s: nat, r: nat)
    requires Inv(w, f) && Enabled(w, f, Open(s, r))
    ensures Inv(w, Next(w, f, Open(s, r)))
  {
    hide PartitionOk, SubOk, Numbered, Ascending;
    var b := Subscribed(f.sources[s].cursors, f.sources[s].fromNow, r, f.replicas[s][r].broadcast);
    forall i | 0 <= i < |b.todo| ensures b.todo[i] in b.starts {
      assert b.todo[i] in b.todo;
    }
    assert SubBounded(w, f, s, b);
    assert Local(w, s, b.stream);
    forall p | p in w.Served(s) ensures SubOk(w, s, p, SourcePlace(f.sources[s], p), b) {
      OpenOk(w, s, p, f.sources[s], r, f.replicas[s][r].broadcast);
    }
    SubKeeps(w, f, s, b);
  }

  lemma ReadKeeps(w: World, f: Feed, s: nat)
    requires Inv(w, f) && Enabled(w, f, ReadHistory(s))
    ensures Inv(w, Next(w, f, ReadHistory(s)))
  {
    hide PartitionOk, SubOk, Local, Numbered, History;
    var b := f.sources[s].sub.value;
    var c := StartReading(w, s, b, f.replicas[s][b.replica].committed);
    assert SubBounded(w, f, s, b);
    assert SubBounded(w, f, s, c);
    forall p | p in w.Served(s) ensures SubOk(w, s, p, SourcePlace(f.sources[s], p), c) {
      SubAt(w, f, s, p);
      ReadOk(w, s, p, SourcePlace(f.sources[s], p), b, f.replicas[s][b.replica].committed);
    }
    SubKeeps(w, f, s, c);
  }

  lemma SubHeld(w: World, s: nat, p: nat, place: Place, b: Sub)
    requires s < |w.logs| && b.received <= |w.logs[s]| && SubOk(w, s, p, place, b)
    ensures HeldIsLog(b, p, Announced(w.logs[s], w.ty, p))
  {
  }

  lemma LocalSnoc(w: World, s: nat, stream: seq<Item>, item: Item)
    requires Local(w, s, stream)
    requires item.Ev? ==> item.event.partition in w.Served(s)
    requires item.Heads? ==> item.heads.Keys == w.Served(s)
    ensures Local(w, s, stream + [item])
  {
  }

  lemma SendKeeps(w: World, f: Feed, s: nat)
    requires Inv(w, f) && Enabled(w, f, SendHistory(s))
    ensures Inv(w, Next(w, f, SendHistory(s)))
  {
    hide PartitionOk, SubOk, Local, Numbered, HeldIsLog;
    var b := f.sources[s].sub.value;
    var c := SendOne(b);
    assert SubBounded(w, f, s, b);
    SubAt(w, f, s, b.reading);
    SubHeld(w, s, b.reading, SourcePlace(f.sources[s], b.reading), b);
    forall p | p in w.Served(s) ensures SubOk(w, s, p, SourcePlace(f.sources[s], p), c) {
      SubAt(w, f, s, p);
      SendOk(w, s, p, SourcePlace(f.sources[s], p), b);
    }
    SendOk(w, s, b.reading, SourcePlace(f.sources[s], b.reading), b);
    LocalSnoc(w, s, b.stream, Ev(b.pending[0]));
    assert SubBounded(w, f, s, c);
    SubKeeps(w, f, s, c);
  }

  lemma ReportKeeps(w: World, f: Feed, s: nat)
    requires Inv(w, f) && Enabled(w, f, ReportHeads(s))
    ensures Inv(w, Next(w, f, ReportHeads(s)))
  {
    hide PartitionOk, SubOk, Local, Numbered;
    var b := f.sources[s].sub.value;
    var c := b.(live := true, stream := b.stream + [Heads(b.next)]);
    assert SubBounded(w, f, s, b);
    forall p | p in w.Served(s) ensures p in b.next && SubOk(w, s, p, SourcePlace(f.sources[s], p), c) {
      SubAt(w, f, s, p);
      ReportOk(w, s, p, SourcePlace(f.sources[s], p), b);
    }
    assert b.next.Keys == w.Served(s);
    LocalSnoc(w, s, b.stream, Heads(b.next));
    assert SubBounded(w, f, s, c);
    SubKeeps(w, f, s, c);
  }

  lemma ReceiveKeeps(w: World, f: Feed, s: nat)
    requires Inv(w, f) && Enabled(w, f, Receive(s))
    ensures Inv(w, Next(w, f, Receive(s)))
  {
    hide PartitionOk, SubOk, Local, Numbered;
    var b := f.sources[s].sub.value;
    var e := w.logs[s][b.received];
    var c := TakeLive(w, b, e);
    assert SubBounded(w, f, s, b);
    forall p | p in w.Served(s) ensures SubOk(w, s, p, SourcePlace(f.sources[s], p), c) {
      SubAt(w, f, s, p);
      ReceiveOk(w, s, p, SourcePlace(f.sources[s], p), b);
    }
    if e.partition in b.next {
      LocalSnoc(w, s, b.stream, Ev(e));
    }
    assert SubBounded(w, f, s, c);
    SubKeeps(w, f, s, c);
  }

  lemma LagKeeps(w: World, f: Feed, s: nat)
    requires Inv(w, f) && Enabled(w, f, Lag(s))
    ensures Inv(w, Next(w, f, Lag(s)))
  {
    hide PartitionOk, SubOk, Local, Numbered;
    var b := f.sources[s].sub.value;
    var c := b.(stopped := true, stream := b.stream + [Failed]);
    assert SubBounded(w, f, s, b);
    forall p | p in w.Served(s) ensures SubOk(w, s, p, SourcePlace(f.sources[s], p), c) {
      SubAt(w, f, s, p);
      LagOk(w, s, p, SourcePlace(f.sources[s], p), b);
    }
    LocalSnoc(w, s, b.stream, Failed);
    assert SubBounded(w, f, s, c);
    SubKeeps(w, f, s, c);
  }

  /** A restart skips announcements, but no subscription is left that would have needed them. */
  lemma RestartKeeps(w: World, f: Feed, s: nat, r: nat)
    requires Inv(w, f) && Enabled(w, f, Restart(s, r))
    ensures Inv(w, Next(w, f, Restart(s, r)))
  {
    assert f.replicas[s][r].broadcast <= f.replicas[s][r].committed <= |w.logs[s]|;
    ReplicaKeeps(w, f, s, r, Silent(f.replicas[s][r]));
    var g := WithReplica(f, s, r, Silent(f.replicas[s][r]));
    if f.sources[s].sub.Some? && f.sources[s].sub.value.replica == r {
      hide PartitionOk, SubOk, Local, Numbered;
      var b := g.sources[s].sub.value;
      var c := b.(stopped := true);
      assert SubBounded(w, g, s, b);
      forall p | p in w.Served(s) ensures SubOk(w, s, p, SourcePlace(g.sources[s], p), c) {
        SubAt(w, g, s, p);
        StopOk(w, s, p, SourcePlace(g.sources[s], p), b);
      }
      assert Local(w, s, c.stream);
      assert SubBounded(w, g, s, c);
      SubKeeps(w, g, s, c);
    }
  }

  lemma PassedEffect(w: World, s: nat, item: Item, p: nat)
    ensures MessageEffect(Passed(s, item), p) == ItemEffect(item, p)
  {
  }

  lemma ElsewhereNothing(w: World, s: nat, stream: seq<Item>, p: nat)
    requires Local(w, s, stream) && stream != [] && p !in w.Served(s)
    ensures ItemEffect(stream[0], p) == Nothing
  {
  }

  /** What is left of a stream, and the cursors, after taking one item. */
  lemma TakesLeaves(source: Source, item: Item)
    requires source.sub.Some? && source.sub.value.stream != []
    ensures var taken := SourceTakes(source, item);
            && taken.cursors.Keys == source.cursors.Keys
            && (taken.sub.Some? ==> taken.sub.value == source.sub.value.(stream := source.sub.value.stream[1..]))
  {
  }

  lemma TakesBounded(w: World, f: Feed, g: Feed, s: nat, source: Source)
    requires s < |f.replicas| && g.replicas == f.replicas
    requires source.sub.Some? && source.sub.value.stream != []
    requires SubBounded(w, f, s, source.sub.value) && Local(w, s, source.sub.value.stream)
    ensures var taken := SourceTakes(source, source.sub.value.stream[0]);
            && taken.cursors.Keys == source.cursors.Keys
            && (taken.sub.Some? ==> SubBounded(w, g, s, taken.sub.value) && Local(w, s, taken.sub.value.stream))
  {
    TakesLeaves(source, source.sub.value.stream[0]);
    hide SourceTakes;
  }

  lemma ForwardBounded(w: World, f: Feed, s: nat)
    requires Inv(w, f) && Enabled(w, f, Forward(s))
    ensures Bounded(w, Next(w, f, Forward(s))) && AllLocal(w, Next(w, f, Forward(s)))
  {
    hide PartitionOk, SubBounded, Local, Numbered, SourceTakes, World.Served;
    var g := Next(w, f, Forward(s));
    assert g.All() == f.All();
    TakesBounded(w, f, g, s, f.sources[s]);
    forall t | 0 <= t < |w.logs| && g.sources[t].sub.Some?
      ensures SubBounded(w, g, t, g.sources[t].sub.value) && Local(w, t, g.sources[t].sub.value.stream)
    {
      if t != s {
        SubBoundedFramed(w, f, g, t, g.sources[t].sub.value);
      }
    }
  }

  lemma ForwardPartition(w: World, f: Feed, s: nat, p: nat)
    requires Inv(w, f) && Enabled(w, f, Forward(s)) && p < |w.placement|
    requires Bounded(w, Next(w, f, Forward(s)))
    ensures PartitionOk(w, Next(w, f, Forward(s)), p)
  {
    var source := f.sources[s];
    var item := source.sub.value.stream[0];
    var t := w.placement[p];
    assert PartitionOk(w, f, p);
    Serves(w, p);
    PassedEffect(w, s, item, p);
    if s == t {
      SubAt(w, f, s, p);
      TakeOk(w, s, p, source);
    } else {
      assert Local(w, s, source.sub.value.stream);
      ElsewhereNothing(w, s, source.sub.value.stream, p);
    }
    hide SubOk, Numbered, Chain, Messages, ItemEffect, MessageEffect, SourceTakes, Passed;
    MessagesSnoc(f.messages, Passed(s, item), p, w.Log(p), MergerPlace(f, p), SourcePlace(f.sources[t], p));
  }

  lemma ForwardKeeps(w: World, f: Feed, s: nat)
    requires Inv(w, f) && Enabled(w, f, Forward(s))
    ensures Inv(w, Next(w, f, Forward(s)))
  {
    ForwardBounded(w, f, s);
    hide PartitionOk, Bounded, AllLocal;
    forall p | 0 <= p < |w.placement| ensures PartitionOk(w, Next(w, f, Forward(s)), p) {
      ForwardPartition(w, f, s, p);
    }
  }

  lemma MergePartition(w: World, f: Feed, p: nat)
    requires Inv(w, f) && f.messages != [] && p < |w.placement| && Bounded(w, Next(w, f, Merge))
    ensures PartitionOk(w, Next(w, f, Merge), p)
  {
    hide SubOk, Chain, Messages, Frames, Take, MessageEffect, InOrder, InPlace, Learnt, FramesAre, Announced;
    hide SubBounded, AllLocal;
    var g := Next(w, f, Merge);
    assert PartitionOk(w, f, p);
    assert Numbered(w.logs[w.placement[p]], w.ty, p);
    MessagesTail(f.messages, p, w.Log(p), MergerPlace(f, p), SourcePlace(f.sources[w.placement[p]], p));
    MergeFrames(f.merger, f.messages[0], f.All(), p, w.Log(p), f.captures);
    assert g.All() == f.All() + Take(f.merger, f.messages[0]).frames;
  }

  lemma TakeKeepsLength(m: Merger, message: Message)
    ensures |Take(m, message).merger.cursor| == |m.cursor|
    ensures forall i :: 0 <= i < |Take(m, message).frames| ==> |Take(m, message).frames[i].cursor| == |m.cursor|
  {
    hide Raise;
  }

  lemma MergeBounded(w: World, f: Feed)
    requires Inv(w, f) && f.messages != []
    ensures Bounded(w, Next(w, f, Merge))
  {
    var g := Next(w, f, Merge);
    hide PartitionOk, Take, AllLocal, Numbered, SubBounded;
    TakeKeepsLength(f.merger, f.messages[0]);
    forall t | 0 <= t < |w.logs| && g.sources[t].sub.Some? ensures SubBounded(w, g, t, g.sources[t].sub.value) {
      SubBoundedFramed(w, f, g, t, g.sources[t].sub.value);
    }
    assert g.All() == f.All() + Take(f.merger, f.messages[0]).frames;
  }

  lemma MergeKeeps(w: World, f: Feed)
    requires Inv(w, f) && f.messages != []
    ensures Inv(w, Next(w, f, Merge))
  {
    MergeBounded(w, f);
    var g := Next(w, f, Merge);
    hide PartitionOk, Take, Bounded, Local;
    forall p | 0 <= p < |w.placement| ensures PartitionOk(w, g, p) {
      MergePartition(w, f, p);
    }
  }

  lemma ShowAll(w: World, f: Feed)
    requires Bounded(w, f) && f.frames != []
    ensures Next(w, f, Show).All() == f.All() && f.All()[|f.received|] == f.frames[0]
  {
    hide Bounded;
  }

  lemma ShowKeeps(w: World, f: Feed)
    requires Inv(w, f) && f.frames != []
    ensures Inv(w, Next(w, f, Show))
  {
    ShowAll(w, f);
    var g := Next(w, f, Show);
    hide SubOk, Chain, Messages, Frames, Local, Numbered, Announced, Feed.All, FramesAre, SubBounded;
    assert Bounded(w, g) by {
      forall t | 0 <= t < |w.logs| && g.sources[t].sub.Some? ensures SubBounded(w, g, t, g.sources[t].sub.value) {
        SubBoundedFramed(w, f, g, t, g.sources[t].sub.value);
      }
    }
    forall p | 0 <= p < |w.placement| ensures PartitionOk(w, g, p) {
      assert PartitionOk(w, f, p);
    }
  }

  /** Where every replica's pointers may start. */
  ghost predicate ReplicasOk(w: World, replicas: seq<seq<Replica>>) {
    && |replicas| == |w.logs|
    && forall s, r :: 0 <= s < |w.logs| && 0 <= r < |replicas[s]| ==>
         replicas[s][r].broadcast <= replicas[s][r].committed <= |w.logs[s]|
  }

  /** What opening a follow needs of the client's side. */
  ghost predicate MayOpen(w: World, cursor: seq<nat>, fromNow: bool, received: seq<Frame>, captures: map<nat, Capture>)
    requires w.Valid()
  {
    && |cursor| == |w.placement|
    && (forall i :: 0 <= i < |received| ==> |received[i].cursor| == |w.placement|)
    && (received != [] ==> cursor == received[|received| - 1].cursor)
    && (if fromNow then received == [] && captures == map[] && cursor == Zeros(w)
        else forall p :: 0 <= p < |w.placement| ==>
               && p in captures && FramesAre(received, p, w.Log(p), captures, cursor[p])
               && (received == [] ==> captures[p] == Capture(cursor[p], 0)))
  }

  lemma OpenedKeeps(w: World, replicas: seq<seq<Replica>>, cursor: seq<nat>, fromNow: bool, received: seq<Frame>,
                    captures: map<nat, Capture>)
    requires w.Valid() && ReplicasOk(w, replicas) && MayOpen(w, cursor, fromNow, received, captures)
    ensures Inv(w, Opened(w, replicas, cursor, fromNow, received, captures))
  {
    var g := Opened(w, replicas, cursor, fromNow, received, captures);
    hide Numbered, FramesAre, Announced;
    assert g.All() == received;
    assert Bounded(w, g);
    forall p | 0 <= p < |w.placement| ensures PartitionOk(w, g, p) {
      Serves(w, p);
      assert Messages([], p) == [];
      if fromNow {
        NothingIsBlank(p, w.Log(p), captures);
      }
    }
  }

  lemma NothingIsBlank(p: nat, log: seq<StoredEvent>, captures: map<nat, Capture>)
    requires p !in captures
    ensures FramesAre([], p, log, captures, 0)
  {
  }

  /** Cutting a chained list after a frame cuts the chain at that frame's cursor. */
  lemma {:induction false} CutAtCursor(frames: seq<Frame>, p: nat, log: seq<StoredEvent>, from: nat, to: Place, k: nat)
    requires Chain(Frames(frames, p), log, Some(from), to) && k < |frames|
    ensures p < |frames[k].cursor| && Chain(Frames(frames[..k + 1], p), log, Some(from), Some(frames[k].cursor[p]))
    decreases k
  {
    FramesTail(frames, p, log, Some(from), to);
    if k == 0 {
      assert frames[..1] == [] + [frames[0]];
      assert Frames([], p) == [];
      FramesSnoc([], frames[0], p, log, Some(from), Some(from));
    } else {
      var mid := After(FrameEffect(frames[0], p), Some(from));
      CutAtCursor(frames[1..], p, log, mid.value, to, k - 1);
      assert frames[1..][..k] == frames[..k + 1][1..];
      assert Frames(frames[..k + 1], p)[1..] == Frames(frames[1..][..k], p);
    }
  }

  /** The frames a client has been shown are a chain that ends at its cursor, or are blank. */
  lemma ReceivedCut(w: World, f: Feed, p: nat)
    requires Inv(w, f) && p < |w.placement|
    ensures p !in f.captures || |f.received| <= f.captures[p].at ==> Blank(f.received, p)
    ensures p in f.captures && f.captures[p].at <= |f.received| ==> Blank(f.received[..f.captures[p].at], p)
    ensures p in f.captures && f.captures[p].at < |f.received| ==>
              Chain(Frames(f.received[f.captures[p].at..], p), w.Log(p), Some(f.captures[p].head), Some(f.cursor[p]))
  {
    hide SubOk, Chain, Messages, Frames, Announced, InOrder, AllLocal, SubBounded, Numbered;
    assert PartitionOk(w, f, p);
    var all := f.All();
    forall i | 0 <= i < |f.received| ensures f.received[i] == all[i] {
    }
    if p in f.captures && f.captures[p].at < |f.received| {
      var at := f.captures[p].at;
      var k := |f.received| - 1 - at;
      CutAtCursor(all[at..], p, w.Log(p), f.captures[p].head, Some(f.merger.cursor[p]), k);
      assert all[at..][..k + 1] == f.received[at..];
    }
  }

  lemma EmptyChain(received: seq<Frame>, p: nat, log: seq<StoredEvent>, captures: map<nat, Capture>)
    requires p in captures && captures[p].at == |received| && Blank(received, p)
    ensures FramesAre(received, p, log, captures, captures[p].head)
  {
    assert received[..|received|] == received;
    assert Frames(received[|received|..], p) == [];
  }

  lemma ResumedFrames(w: World, f: Feed, p: nat)
    requires Inv(w, f) && p < |w.placement|
    ensures p in Resumed(f) && FramesAre(f.received, p, w.Log(p), Resumed(f), f.cursor[p])
  {
    ReceivedCut(w, f, p);
    hide Inv, Chain, Frames, Blank, Announced;
    assert |f.cursor| == |w.placement| by {
      InvBounded(w, f);
    }
    if !StillCounts(f, p) || f.captures[p].at == |f.received| {
      assert f.received[..|f.received|] == f.received;
      EmptyChain(f.received, p, w.Log(p), Resumed(f));
    }
  }

  lemma ReconnectKeeps(w: World, f: Feed)
    requires Inv(w, f) && Enabled(w, f, Reconnect)
    ensures Inv(w, Next(w, f, Reconnect))
  {
    hide PartitionOk, SubBounded, AllLocal, Opened, FramesAre, Numbered, Announced;
    forall i | 0 <= i < |f.received| ensures |f.received[i].cursor| == |w.placement| {
      assert f.received[i] == f.All()[i];
    }
    if f.fromNow {
      OpenedKeeps(w, f.replicas, Zeros(w), true, f.received, map[]);
    } else {
      forall p | 0 <= p < |w.placement|
        ensures p in Resumed(f) && FramesAre(f.received, p, w.Log(p), Resumed(f), f.cursor[p])
      {
        ResumedFrames(w, f, p);
      }
      OpenedKeeps(w, f.replicas, f.cursor, false, f.received, Resumed(f));
    }
  }

  lemma InvBounded(w: World, f: Feed)
    requires Inv(w, f)
    ensures Bounded(w, f)
  {
  }

  /** Every step of the feed keeps the invariant. */
  lemma StepKeeps(w: World, f: Feed, a: Action)
    requires Inv(w, f) && Enabled(w, f, a)
    ensures Inv(w, Next(w, f, a))
  {
    hide Inv, Dropped, Opened, Restarted;
    InvBounded(w, f);
    match a {
      case Commit(s, r, count) => ReplicaKeeps(w, f, s, r, f.replicas[s][r].(committed := f.replicas[s][r].committed + count));
      case Broadcast(s, r) => ReplicaKeeps(w, f, s, r, f.replicas[s][r].(broadcast := f.replicas[s][r].broadcast + 1));
      case Restart(s, r) => RestartKeeps(w, f, s, r);
      case Open(s, r) => OpenKeeps(w, f, s, r);
      case OpenFails(s) => DroppedKeeps(w, f, s, true);
      case ReadHistory(s) => ReadKeeps(w, f, s);
      case SendHistory(s) => SendKeeps(w, f, s);
      case ReportHeads(s) => ReportKeeps(w, f, s);
      case Receive(s) => ReceiveKeeps(w, f, s);
      case Lag(s) => LagKeeps(w, f, s);
      case Forward(s) => ForwardKeeps(w, f, s);
      case Break(s, failed) => DroppedKeeps(w, f, s, failed || !f.sources[s].fromNow);
      case Merge => MergeKeeps(w, f);
      case Show => ShowKeeps(w, f);
      case Reconnect => ReconnectKeeps(w, f);
    }
  }

  // ---------------------------------------------------------------- whole runs

  /** A follow that starts from a cursor. */
  function FromStart(w: World, replicas: seq<seq<Replica>>, start: seq<nat>): Feed
    requires |start| == |w.placement|
  {
    Opened(w, replicas, start, false, [], FromCursor(start))
  }

  /** A follow that starts from now. */
  function StartNow(w: World, replicas: seq<seq<Replica>>): Feed {
    Opened(w, replicas, Zeros(w), true, [], map[])
  }

  lemma StartOk(w: World, replicas: seq<seq<Replica>>, start: seq<nat>)
    requires w.Valid() && |start| == |w.placement| && ReplicasOk(w, replicas)
    ensures Inv(w, FromStart(w, replicas, start)) && Inv(w, StartNow(w, replicas))
  {
    forall p | 0 <= p < |w.placement| ensures FramesAre([], p, w.Log(p), FromCursor(start), start[p]) {
      EmptyChain([], p, w.Log(p), FromCursor(start));
    }
    hide FramesAre, Opened, Numbered;
    OpenedKeeps(w, replicas, start, false, [], FromCursor(start));
    OpenedKeeps(w, replicas, Zeros(w), true, [], map[]);
  }

  /** The feed after any interleaving of steps; a step that is not enabled when its turn comes does nothing. */
  ghost function RunFrom(w: World, f: Feed, actions: seq<Action>): (g: Feed)
    requires Inv(w, f)
    ensures Inv(w, g)
    decreases |actions|
  {
    if actions == [] then f
    else if Enabled(w, f, actions[0]) then
      StepKeeps(w, f, actions[0]);
      RunFrom(w, Next(w, f, actions[0]), actions[1..])
    else RunFrom(w, f, actions[1..])
  }

  /** A follow from a cursor, run to any point. */
  ghost function Follow(w: World, replicas: seq<seq<Replica>>, start: seq<nat>, actions: seq<Action>): Feed
    requires w.Valid() && |start| == |w.placement| && ReplicasOk(w, replicas)
  {
    StartOk(w, replicas, start);
    RunFrom(w, FromStart(w, replicas, start), actions)
  }

  /** A follow from now, run to any point. */
  ghost function FollowNow(w: World, replicas: seq<seq<Replica>>, actions: seq<Action>): Feed
    requires w.Valid() && ReplicasOk(w, replicas)
  {
    StartOk(w, replicas, Zeros(w));
    RunFrom(w, StartNow(w, replicas), actions)
  }

  /** The events of one partition that a client was shown, in order. */
  function Shown(frames: seq<Frame>, p: nat): seq<StoredEvent>
    decreases |frames|
  {
    if frames == [] then []
    else (if frames[0].payload.EventFrame? && frames[0].payload.event.partition == p then [frames[0].payload.event] else [])
         + Shown(frames[1..], p)
  }

  /** The log between two positions. */
  function Slice(log: seq<StoredEvent>, from: nat, to: nat): seq<StoredEvent> {
    if from < to <= |log| then log[from..to] else []
  }

  lemma SliceCons(log: seq<StoredEvent>, from: nat, to: nat)
    requires from < |log| && from + 1 <= to <= |log|
    ensures Slice(log, from, to) == [log[from]] + Slice(log, from + 1, to)
  {
  }

  /** A chained list of frames shows exactly a slice of the log. */
  lemma {:induction false} ShownIsSlice(frames: seq<Frame>, p: nat, log: seq<StoredEvent>, from: nat, to: nat)
    requires Chain(Frames(frames, p), log, Some(from), Some(to))
    ensures from <= to && (from < to ==> to <= |log|) && Shown(frames, p) == Slice(log, from, to)
    decreases |frames|
  {
    if frames == [] {
      assert Frames(frames, p) == [];
    } else {
      hide Slice, Chain, Frames;
      FramesTail(frames, p, log, Some(from), Some(to));
      var e := FrameEffect(frames[0], p);
      ShownIsSlice(frames[1..], p, log, After(e, Some(from)).value, to);
      if e.Emits? {
        SliceCons(log, from, to);
      }
    }
  }

  // ---------------------------------------------------------------- from a cursor

  /** A partition's frames count from a capture the client has been shown a cursor for. */
  ghost predicate Fixed(f: Feed, p: nat, c: Capture)
    requires p < |f.cursor|
  {
    !f.fromNow && StillCounts(f, p) && f.captures[p] == c
  }

  /** The steps of replicas, subscriptions and sources change nothing on the client's side. */
  lemma QuietSide(w: World, f: Feed, a: Action)
    requires Bounded(w, f) && Enabled(w, f, a) && !a.Show? && !a.Reconnect? && !a.Merge?
    ensures var g := Next(w, f, a);
            g.received == f.received && g.cursor == f.cursor && g.fromNow == f.fromNow && g.captures == f.captures
  {
    hide Bounded, Silent, SourceTakes, StartReading, TakeLive, Subscribed, SendOne, Opened, Passed, Feed.All;
  }

  lemma MergeSide(w: World, f: Feed)
    requires Bounded(w, f) && Enabled(w, f, Merge)
    ensures var g := Next(w, f, Merge);
            && g.received == f.received && g.cursor == f.cursor && g.fromNow == f.fromNow
            && g.captures == Learnt(f.captures, f.messages[0], |f.All()|)
  {
    hide Bounded, Take, Learnt, Feed.All;
  }

  lemma ReconnectSide(w: World, f: Feed)
    requires Bounded(w, f) && Enabled(w, f, Reconnect)
    ensures var g := Next(w, f, Reconnect);
            && g.received == f.received && g.fromNow == f.fromNow && |g.cursor| == |w.placement|
            && g.captures == (if f.fromNow then map[] else Resumed(f))
            && (!f.fromNow ==> g.cursor == f.cursor)
  {
    hide Bounded, Resumed, Feed.All;
  }

  /** What a step does to what the client holds and to where frames count from. */
  lemma ClientSide(w: World, f: Feed, a: Action)
    requires Inv(w, f) && Enabled(w, f, a)
    ensures var g := Next(w, f, a);
            && |f.cursor| == |g.cursor| == |w.placement|
            && (!a.Show? ==> g.received == f.received)
            && (!a.Show? && !a.Reconnect? ==> g.cursor == f.cursor && g.fromNow == f.fromNow)
            && (a.Show? ==> g.received == f.received + [f.frames[0]] && !g.fromNow)
            && (a.Merge? ==> g.captures == Learnt(f.captures, f.messages[0], |f.All()|))
            && (!a.Merge? && !a.Reconnect? ==> g.captures == f.captures)
            && (a.Reconnect? ==> g.fromNow == f.fromNow && g.captures == if f.fromNow then map[] else Resumed(f))
            && (a.Reconnect? && !f.fromNow ==> g.cursor == f.cursor)
  {
    InvBounded(w, f);
    assert |f.cursor| == |w.placement|;
    if a.Show? {
      assert f.All()[|f.received|] == f.frames[0];
      hide Inv, SubBounded;
    } else {
      hide Inv, Next, Bounded, Learnt, Resumed, Feed.All;
      if a.Merge? {
        MergeSide(w, f);
      } else if a.Reconnect? {
        ReconnectSide(w, f);
      } else {
        QuietSide(w, f, a);
      }
    }
  }

  lemma FixedStays(w: World, f: Feed, p: nat, c: Capture, a: Action)
    requires Inv(w, f) && p < |w.placement| && Fixed(f, p, c) && Enabled(w, f, a)
    ensures |Next(w, f, a).cursor| == |w.placement| && Fixed(Next(w, f, a), p, c)
    ensures f.received <= Next(w, f, a).received
  {
    ClientSide(w, f, a);
    hide Inv, Next, Bounded;
    var g := Next(w, f, a);
    if a.Show? {
      assert |f.received| < |g.received|;
    }
  }

  /** From there on a run neither moves the capture nor takes back what the client was shown. */
  lemma {:induction false} RunStays(w: World, f: Feed, p: nat, c: Capture, actions: seq<Action>)
    requires Inv(w, f) && p < |w.placement| == |f.cursor| && Fixed(f, p, c)
    ensures var g := RunFrom(w, f, actions);
            |g.cursor| == |w.placement| && Fixed(g, p, c) && f.received <= g.received
    decreases |actions|
  {
    hide Inv, Fixed, Next;
    InvBounded(w, f);
    if actions != [] && Enabled(w, f, actions[0]) {
      StepKeeps(w, f, actions[0]);
      FixedStays(w, f, p, c, actions[0]);
      RunStays(w, Next(w, f, actions[0]), p, c, actions[1..]);
    } else if actions != [] {
      RunStays(w, f, p, c, actions[1..]);
    }
  }

  lemma FollowCounts(w: World, replicas: seq<seq<Replica>>, start: seq<nat>, actions: seq<Action>, p: nat)
    requires w.Valid() && |start| == |w.placement| && ReplicasOk(w, replicas) && p < |w.placement|
    ensures var f := Follow(w, replicas, start, actions);
            && Inv(w, f) && |f.cursor| == |w.placement| && p in f.captures && f.captures[p] == Capture(start[p], 0)
            && (f.received == [] ==> f.cursor[p] == start[p])
  {
    StartOk(w, replicas, start);
    RunStays(w, FromStart(w, replicas, start), p, Capture(start[p], 0), actions);
    hide RunFrom, Inv, Opened;
    var f := Follow(w, replicas, start, actions);
    assert StillCounts(f, p);
    assert f.received == [] ==> |f.received| == 0;
  }

  /**
   * Gap-free feed. Under any interleaving of commits, broadcasts, subscriptions, history reads, live events, lags,
   * replica restarts, source reconnects and client reconnects, the client has been shown, for each partition, exactly the events
   * between the cursor it started from and the cursor it holds: each once, in order, none missing.
   */
  lemma GapFree(w: World, replicas: seq<seq<Replica>>, start: seq<nat>, actions: seq<Action>, p: nat)
    requires w.Valid() && |start| == |w.placement| && ReplicasOk(w, replicas) && p < |w.placement|
    ensures var f := Follow(w, replicas, start, actions);
            && |f.cursor| == |w.placement| && start[p] <= f.cursor[p]
            && (start[p] < f.cursor[p] ==> f.cursor[p] <= |w.Log(p)|)
            && Shown(f.received, p) == Slice(w.Log(p), start[p], f.cursor[p])
  {
    var f := Follow(w, replicas, start, actions);
    FollowCounts(w, replicas, start, actions, p);
    hide Follow, Inv, Chain, Frames, Announced;
    if f.received != [] {
      ReceivedCut(w, f, p);
      assert f.received[0..] == f.received;
      ShownIsSlice(f.received, p, w.Log(p), start[p], f.cursor[p]);
    }
  }

  /** Each frame's cursor names exactly what had been shown up to and including that frame. */
  lemma CursorsAreExact(w: World, replicas: seq<seq<Replica>>, start: seq<nat>, actions: seq<Action>, p: nat, k: nat)
    requires w.Valid() && |start| == |w.placement| && ReplicasOk(w, replicas) && p < |w.placement|
    requires k < |Follow(w, replicas, start, actions).received|
    ensures var f := Follow(w, replicas, start, actions);
            && p < |f.received[k].cursor|
            && start[p] + |Shown(f.received[..k + 1], p)| == f.received[k].cursor[p]
  {
    var f := Follow(w, replicas, start, actions);
    FollowCounts(w, replicas, start, actions, p);
    hide Follow, Inv, Chain, Frames, Announced;
    ReceivedCut(w, f, p);
    assert f.received[0..] == f.received;
    CutAtCursor(f.received, p, w.Log(p), start[p], Some(f.cursor[p]), k);
    ShownIsSlice(f.received[..k + 1], p, w.Log(p), start[p], f.received[k].cursor[p]);
  }
}
