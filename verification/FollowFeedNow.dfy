/**
 * Follows from now. Such a follow starts with a cursor of zeros and learns a partition's head only when its source
 * reports it, so a frame sent before that names the beginning of the partition, and a client that resumes from such
 * a frame is shown the partition's whole history.
 */
module FollowFeedNow {
  import opened Base
  import opened Aggregate
  import opened ReadMerger
  import opened StoreReads
  import opened FeedChain
  import opened FollowFeed
  import opened FollowFeedProof
  import opened FollowFeedRuns

  // ---------------------------------------------------------------- what frames show

  lemma {:induction false} ShownConcat(a: seq<Frame>, b: seq<Frame>, p: nat)
    ensures Shown(a + b, p) == Shown(a, p) + Shown(b, p)
    decreases |a|
  {
    if a == [] {
      assert a + b == b;
    } else {
      assert (a + b)[1..] == a[1..] + b;
      ShownConcat(a[1..], b, p);
    }
  }

  lemma {:induction false} BlankShowsNothing(frames: seq<Frame>, p: nat)
    requires Blank(frames, p)
    ensures Shown(frames, p) == []
    decreases |frames|
  {
    if frames != [] {
      BlankShowsNothing(frames[1..], p);
    }
  }

  /** A client whose frames for a partition are a blank part and then a chain. */
  lemma ShownAfterBlank(frames: seq<Frame>, at: nat, p: nat, log: seq<StoredEvent>, head: nat, to: nat)
    requires at <= |frames| && Blank(frames[..at], p) && Chain(Frames(frames[at..], p), log, Some(head), Some(to))
    ensures head <= to && Shown(frames, p) == Shown(frames[at..], p) == Slice(log, head, to) && |Shown(frames,
        p)| == to - head
  {
    hide Chain, Frames, Blank, Shown;
    assert frames == frames[..at] + frames[at..];
    ShownConcat(frames[..at], frames[at..], p);
    BlankShowsNothing(frames[..at], p);
    ShownIsSlice(frames[at..], p, log, head, to);
  }

  // ---------------------------------------------------------------- heads

  /** A captured head is a place in the partition's log. */
  ghost predicate HeadsInLog(w: World, f: Feed)
    requires w.Valid()
  {
    forall p :: 0 <= p < |w.placement| && p in f.captures ==> f.captures[p].head <= |w.Log(p)|
  }

  lemma MergeLearns(w: World, f: Feed, p: nat)
    requires Inv(w, f) && f.messages != [] && p < |w.placement| && p !in f.captures && p in Learnt(f.captures,
        f.messages[0], 0)
    ensures f.messages[0].heads[p] <= |w.Log(p)|
  {
    hide SubOk, Chain, Messages, Announced, Numbered, FramesAre, SubBounded, AllLocal;
    assert PartitionOk(w, f, p);
    MessagesTail(f.messages, p, w.Log(p), None, SourcePlace(f.sources[w.placement[p]], p));
  }

  lemma ResumeHead(w: World, f: Feed, p: nat)
    requires Inv(w, f) && !f.fromNow && p < |w.placement|
    ensures |f.cursor| == |w.placement| && (StillCounts(f, p) || (f.cursor[p] == 0 && f.received != []))
  {
    ReceivedCut(w, f, p);
    hide PartitionOk, Bounded, AllLocal, Announced;
    InvBounded(w, f);
    if f.received != [] && !StillCounts(f, p) {
      assert Blank(f.received, p);
      assert f.received[|f.received| - 1].cursor[p] == 0;
    }
  }

  lemma HeadsKept(w: World, f: Feed, a: Action)
    requires Inv(w, f) && HeadsInLog(w, f) && Enabled(w, f, a) && Bounded(w, f)
    ensures HeadsInLog(w, Next(w, f, a))
  {
    assert w.Valid();
    ClientSide(w, f, a);
    hide Inv, Announced, Next, Bounded, Numbered, Resumed;
    var g := Next(w, f, a);
    forall p | 0 <= p < |w.placement| && p in g.captures ensures g.captures[p].head <= |w.Log(p)| {
      if a.Merge? && p !in f.captures {
        MergeLearns(w, f, p);
      } else if a.Reconnect? {
        ReopenedHead(w, f, p);
      }
    }
  }

  lemma ReopenedHead(w: World, f: Feed, p: nat)
    requires Inv(w, f) && Bounded(w, f) && HeadsInLog(w, f) && p < |w.placement| && p in Next(w, f, Reconnect).captures
    ensures Next(w, f, Reconnect).captures[p].head <= |w.Log(p)|
  {
    ClientSide(w, f, Reconnect);
    hide Inv, Announced, Next, Bounded;
    if !f.fromNow {
      ResumeHead(w, f, p);
    }
  }

  lemma {:induction false} RunHeads(w: World, f: Feed, actions: seq<Action>)
    requires Inv(w, f) && HeadsInLog(w, f)
    ensures HeadsInLog(w, RunFrom(w, f, actions))
    decreases |actions|
  {
    hide Inv, HeadsInLog, Next;
    InvBounded(w, f);
    if actions != [] && Enabled(w, f, actions[0]) {
      StepKeeps(w, f, actions[0]);
      HeadsKept(w, f, actions[0]);
      RunHeads(w, Next(w, f, actions[0]), actions[1..]);
    } else if actions != [] {
      RunHeads(w, f, actions[1..]);
    }
  }

  // ---------------------------------------------------------------- what a follow from now shows

  /**
   * A follow from now shows, of a partition whose head it has learnt, exactly the events from that head to the cursor
   * the client holds, each once and in order; of any other partition it shows nothing.
   */
  lemma NowIsGapFree(w: World, replicas: seq<seq<Replica>>, actions: seq<Action>, p: nat)
    requires w.Valid() && ReplicasOk(w, replicas) && p < |w.placement|
    ensures var f := FollowNow(w, replicas, actions);
            && |f.cursor| == |w.placement|
            && (p in f.captures ==> f.captures[p].head <= |w.Log(p)|)
            && Shown(f.received, p) ==
               if p in f.captures && f.captures[p].at < |f.received| then Slice(w.Log(p), f.captures[p].head,
                   f.cursor[p]) else []
  {
    StartOk(w, replicas, Zeros(w));
    RunHeads(w, StartNow(w, replicas), actions);
    var f := FollowNow(w, replicas, actions);
    hide FollowNow, Inv, Chain, Frames, Announced, Blank;
    InvBounded(w, f);
    ReceivedCut(w, f, p);
    if p in f.captures && f.captures[p].at < |f.received| {
      ShownAfterBlank(f.received, f.captures[p].at, p, w.Log(p), f.captures[p].head, f.cursor[p]);
    } else {
      BlankShowsNothing(f.received, p);
    }
  }

  /** The cursor of a frame the client was shown, against what it had been shown up to and including that frame. */
  lemma FrameCursor(w: World, f: Feed, p: nat, k: nat)
    requires Inv(w, f) && p < |w.placement| && k < |f.received|
    ensures p < |f.received[k].cursor|
    ensures p !in f.captures || k < f.captures[p].at ==>
            f.received[k].cursor[p] == 0 && Shown(f.received[..k + 1], p) == []
    ensures p in f.captures && f.captures[p].at <= k ==>
              f.received[k].cursor[p] == f.captures[p].head + |Shown(f.received[..k + 1], p)|
  {
    ReceivedCut(w, f, p);
    InvBounded(w, f);
    assert |f.cursor| == |w.placement|;
    hide Inv, Chain, Frames, Announced, Shown, Blank, Bounded;
    if p in f.captures && f.captures[p].at <= k {
      FrameAfter(f.received, f.captures[p].at, k, p, w.Log(p), f.captures[p].head, f.cursor[p]);
    } else if p in f.captures && f.captures[p].at < |f.received| {
      FrameBefore(f.received[..f.captures[p].at], f.received, k, p);
    } else {
      FrameBefore(f.received, f.received, k, p);
    }
  }

  lemma FrameAfter(received: seq<Frame>, at: nat, k: nat, p: nat, log: seq<StoredEvent>, head: nat, to: nat)
    requires at <= k < |received| && Blank(received[..at], p) && Chain(Frames(received[at..], p), log, Some(head),
        Some(to))
    ensures p < |received[k].cursor| && received[k].cursor[p] == head + |Shown(received[..k + 1], p)|
  {
    hide Chain, Frames, Shown, Blank;
    var seen := received[..k + 1];
    CutAtCursor(received[at..], p, log, head, Some(to), k - at);
    assert received[at..][..k - at + 1] == seen[at..] && received[..at] == seen[..at];
    ShownAfterBlank(seen, at, p, log, head, received[k].cursor[p]);
  }

  lemma FrameBefore(blank: seq<Frame>, received: seq<Frame>, k: nat, p: nat)
    requires k < |blank| && blank <= received && Blank(blank, p)
    ensures p < |received[k].cursor| && received[k].cursor[p] == 0 && Shown(received[..k + 1], p) == []
  {
    hide Shown;
    assert received[..k + 1] == blank[..k + 1];
    BlankShowsNothing(received[..k + 1], p);
  }

  /**
   * In a follow from now, the cursor of a frame counts the events shown from the head that was learnt, exactly when
   * the head had been learnt before the frame was made or is zero.
   */
  lemma NowCursorsExact(w: World, replicas: seq<seq<Replica>>, actions: seq<Action>, p: nat, k: nat)
    requires w.Valid() && ReplicasOk(w, replicas) && p < |w.placement|
    requires k < |FollowNow(w, replicas, actions).received|
    ensures var f := FollowNow(w, replicas, actions);
            && p < |f.received[k].cursor|
            && (p !in f.captures ==> f.received[k].cursor[p] == 0 && Shown(f.received, p) == [])
            && (p in f.captures ==>
                  (f.received[k].cursor[p] == f.captures[p].head + |Shown(f.received[..k + 1], p)|
                   <==> f.captures[p].at <= k || f.captures[p].head == 0))
  {
    var f := FollowNow(w, replicas, actions);
    NowIsGapFree(w, replicas, actions, p);
    hide FollowNow, Inv, Announced;
    FrameCursor(w, f, p, k);
  }

  // ---------------------------------------------------------------- resuming

  /**
   * A client that resumes asks again for events below a head the feed had learnt, exactly when the last frame it
   * was shown was made before the head was learnt and the head is not zero. A client that was shown no frame asks
   * for now again.
   */
  lemma ResumingRewinds(w: World, f: Feed, p: nat)
    requires Inv(w, f) && Bounded(w, f) && p < |w.placement| && p in f.captures
    ensures var source := Next(w, f, Reconnect).sources[w.placement[p]];
            && source.fromNow == f.fromNow && p in source.cursors
            && (!f.fromNow ==>
                  (source.cursors[p] < f.captures[p].head <==>
                   f.received != [] && |f.received| <= f.captures[p].at && 0 < f.captures[p].head))
  {
    ReceivedCut(w, f, p);
    Serves(w, p);
    ReopenedSource(w, f, p);
    hide PartitionOk, AllLocal, SubBounded, Numbered, Chain, Frames, Announced, Next;
    if !f.fromNow && f.received != [] {
      if |f.received| <= f.captures[p].at {
        assert f.received[|f.received| - 1].cursor[p] == 0;
      } else {
        ShownIsSlice(f.received[f.captures[p].at..], p, w.Log(p), f.captures[p].head, f.cursor[p]);
      }
    }
  }

  lemma ReopenedSource(w: World, f: Feed, p: nat)
    requires w.Valid() && Bounded(w, f) && p < |w.placement|
    ensures var g := Next(w, f, Reconnect);
            && |g.sources| == |w.logs|
            && g.sources[w.placement[p]].fromNow == f.fromNow
            && p in g.sources[w.placement[p]].cursors
            && (!f.fromNow ==> g.sources[w.placement[p]].cursors[p] == f.cursor[p])
  {
  }

  /** A client that so rewinds is shown, from then on, the partition's events from the very first. */
  lemma RewoundShowsHistory(w: World, f: Feed, p: nat, actions: seq<Action>)
    requires Inv(w, f) && p < |w.placement| && p in f.captures
    requires !f.fromNow && f.received != [] && |f.received| <= f.captures[p].at && 0 < f.captures[p].head
    ensures var g := RunFrom(w, f, [Reconnect] + actions);
            && |g.cursor| == |w.placement| && f.received <= g.received
            && Shown(g.received[|f.received|..], p) == Slice(w.Log(p), 0, g.cursor[p])
  {
    var n := |f.received|;
    InvBounded(w, f);
    StepKeeps(w, f, Reconnect);
    var f' := Next(w, f, Reconnect);
    assert ([Reconnect] + actions)[1..] == actions;
    var g := RunFrom(w, f, [Reconnect] + actions);
    assert g == RunFrom(w, f', actions);
    RewoundFixed(w, f, p);
    RunStays(w, f', p, Capture(0, n), actions);
    hide Inv, RunFrom, Next, Chain, Frames, Announced, Shown, Bounded, Enabled;
    ReceivedCut(w, g, p);
    if n < |g.received| {
      ShownIsSlice(g.received[n..], p, w.Log(p), 0, g.cursor[p]);
    } else {
      NothingShown(g.received, p);
    }
  }

  lemma RewoundFixed(w: World, f: Feed, p: nat)
    requires Inv(w, f) && Bounded(w, f) && p < |w.placement| && p in f.captures
    requires !f.fromNow && f.received != [] && |f.received| <= f.captures[p].at && 0 < f.captures[p].head
    ensures var g := Next(w, f, Reconnect);
            p < |g.cursor| == |w.placement| && Fixed(g, p, Capture(0, |f.received|)) && g.received == f.received
  {
    ReceivedCut(w, f, p);
    ClientSide(w, f, Reconnect);
    assert f.received[|f.received| - 1].cursor[p] == 0;
    hide PartitionOk, Bounded, AllLocal, Next;
  }

  lemma NothingShown(frames: seq<Frame>, p: nat)
    ensures Shown(frames[|frames|..], p) == []
  {
  }
}
