/** A run of a follow from now in which a client resumes too early and is shown an event below the head. */
module FollowFeedRewind {
  import opened Base
  import opened Aggregate
  import opened ReadMerger
  import opened StoreReads
  import opened FeedChain
  import opened FollowFeed
  import opened FollowFeedProof
  import opened FollowFeedRuns

  /** One shard with one partition and one event, committed and broadcast on its only replica. */
  function OneEvent(e: StoredEvent): World {
    World(e.aggregateType, [[e]], [0], 1)
  }

  const REPLICA := [[Replica(1, 1)]]

  const DEGRADED := Frame(DegradedFrame(1), [0])

  /** A state of the run: its one source, and the rest. */
  function State(source: Source, messages: seq<Message>, merger: Merger, frames: seq<Frame>, cursor: seq<nat>,
                 fromNow: bool,
                 received: seq<Frame>, captures: map<nat, Capture>): Feed
  {
    Feed(REPLICA, [source], messages, merger, frames, cursor, fromNow, received, captures)
  }

  /** The client has been shown that the source is unavailable. */
  function Warned(): Feed {
    State(Source(map[0 := 0], true, None), [], Merger([0], {0}, {0}, false), [], [0], false, [DEGRADED], map[])
  }

  /** The source has reported its head and the merger has taken the report. */
  function CaughtUp(): Feed {
    State(Source(map[0 := 1], false, Some(Sub(0, map[0 := 0], true, 1, [], 0, [], map[0 := 1], true, false, []))), [],
          Merger([1], {}, {}, true), [Frame(CaughtUpFrame, [1])], [0], false, [DEGRADED], map[0 := Capture(1, 1)])
  }

  /** The client has opened the follow again with the cursor it was shown. */
  function Resuming(): Feed {
    State(Source(map[0 := 0], false, None), [], Merger([0], {0}, {}, false), [], [0], false, [DEGRADED],
          map[0 := Capture(0, 1)])
  }

  /** The client has been shown the first event. */
  function Rewound(e: StoredEvent): Feed {
    State(Source(map[0 := 1], false, Some(Sub(0, map[0 := 0], false, 1, [], 0, [], map[0 := 1], false, false, []))), [],
          Merger([1], {0}, {}, false), [], [1], false, [DEGRADED, Frame(EventFrame(e), [1])], map[0 := Capture(0, 1)])
  }

  lemma OneEventIsValid(e: StoredEvent)
    requires e.partition == 0 && e.position == 0
    ensures OneEvent(e).Valid() && OneEvent(e).Log(0) == [e] && ReplicasOk(OneEvent(e), REPLICA)
    ensures Head([e], 1, e.aggregateType, 0) == 1
  {
    OneAnnounced(e);
    hide Announced;
    assert [e][..1] == [e];
    assert OneEvent(e).logs[0] == [e];
    assert Numbered([e], e.aggregateType, 0);
  }

  lemma OneAnnounced(e: StoredEvent)
    requires e.partition == 0
    ensures Announced([e], e.aggregateType, 0) == [e]
  {
    assert [e][..0] == [];
    assert Announced([], e.aggregateType, 0) == [];
  }

  lemma OneServed(e: StoredEvent)
    ensures OneEvent(e).Served(0) == {0} && Ascending({0}) == [0]
  {
    var s := Ascending({0});
    assert 0 in s;
    assert forall i :: 0 <= i < |s| ==> s[i] == 0 by {
      forall i | 0 <= i < |s| ensures s[i] == 0 {
        assert s[i] in s;
      }
    }
  }

  lemma One<T>(x: T, y: T)
    ensures [] + [x] == [x] && [x][1..] == [] && [x][0 := y] == [y]
  {
  }

  /** One enabled step at the head of a run. */
  lemma Step(w: World, f: Feed, a: Action, g: Feed, rest: seq<Action>)
    requires Inv(w, f) && Bounded(w, f) && Enabled(w, f, a) && Next(w, f, a) == g
    ensures Inv(w, g) && Bounded(w, g) && RunFrom(w, f, [a] + rest) == RunFrom(w, g, rest)
  {
    StepKeeps(w, f, a);
    hide Inv, Bounded, Enabled, Next;
    InvBounded(w, g);
    assert ([a] + rest)[1..] == rest;
  }

  lemma StartingState(e: StoredEvent)
    ensures StartNow(OneEvent(e), REPLICA) == State(Source(map[0 := 0], true, None), [], Merger([0], {0}, {}, false),
                                                    [], [0], true, [], map[])
  {
    OneServed(e);
    var f := StartNow(OneEvent(e), REPLICA);
    assert f.sources[0].cursors == map[0 := 0];
    assert f.sources == [Source(map[0 := 0], true, None)];
    assert OneEvent(e).placement[0] in f.merger.pending;
    assert f.merger.pending == {0};
    assert Zeros(OneEvent(e)) == [0];
  }

  /** The feed with another source in its place. */
  function With(f: Feed, cursor: nat, fromNow: bool, sub: Sub): Feed {
    f.(sources := [Source(map[0 := cursor], fromNow, Some(sub))])
  }

  function Opening(now: bool): Sub {
    Sub(0, map[0 := 0], now, 1, [0], 0, [], map[], false, false, [])
  }

  function Reading(now: bool, next: nat, pending: seq<StoredEvent>): Sub {
    Sub(0, map[0 := 0], now, 1, [], 0, pending, map[0 := next], false, false, [])
  }

  lemma Starts(w: World, f: Feed)
    requires Bounded(w, f) && f == State(Source(map[0 := 0], true, None), [], Merger([0], {0}, {}, false), [], [0],
                                         true, [], map[])
    ensures Enabled(w, f, OpenFails(0)) && Next(w, f, OpenFails(0)) == f.(messages := [SourceDegraded(0)])
  {
    hide Bounded;
    assert 0 in map[0 := 0];
    assert f.sources[0 := f.sources[0].(sub := None)] == f.sources;
  }

  lemma Degrades(w: World, f: Feed)
    requires Bounded(w, f) && f.messages == [SourceDegraded(0)] && f.merger == Merger([0], {0}, {}, false) &&
             f.frames == []
    ensures Enabled(w, f, Merge) && Next(w, f, Merge) == f.(messages := [], merger := Merger([0], {0}, {0}, false),
                                                            frames := [DEGRADED])
  {
    hide Bounded;
    assert |{0}| == 1;
    assert {0} + {0} == {0} && {} + {0} == {0};
  }

  lemma Warning(e: StoredEvent, rest: seq<Action>)
    requires e.partition == 0 && e.position == 0
    ensures var w := OneEvent(e);
            && w.Valid() && ReplicasOk(w, REPLICA) && Inv(w, Warned()) && Bounded(w, Warned())
            && FollowNow(w, REPLICA, [OpenFails(0)] + ([Merge] + ([Show] + rest))) == RunFrom(w, Warned(), rest)
  {
    var w := OneEvent(e);
    OneEventIsValid(e);
    StartingState(e);
    var f0 := StartNow(w, REPLICA);
    var first := [OpenFails(0)] + ([Merge] + ([Show] + rest));
    StartsAtNow(w, REPLICA, first);
    hide Inv, Bounded, StartNow, RunFrom, Next, World.Valid, ReplicasOk, FollowNow, Enabled;
    Starts(w, f0);
    var f1 := f0.(messages := [SourceDegraded(0)]);
    Step(w, f0, OpenFails(0), f1, [Merge] + ([Show] + rest));
    Degrades(w, f1);
    var f2 := f0.(merger := Merger([0], {0}, {0}, false), frames := [DEGRADED]);
    Step(w, f1, Merge, f2, [Show] + rest);
    Warns(w, f2);
    Step(w, f2, Show, Warned(), rest);
  }

  lemma StartsAtNow(w: World, replicas: seq<seq<Replica>>, actions: seq<Action>)
    requires w.Valid() && ReplicasOk(w, replicas)
    ensures var f := StartNow(w, replicas);
            Inv(w, f) && Bounded(w, f) && FollowNow(w, replicas, actions) == RunFrom(w, f, actions)
  {
    StartOk(w, replicas, Zeros(w));
    hide Inv, RunFrom, StartNow;
    InvBounded(w, StartNow(w, replicas));
  }

  lemma Warns(w: World, f: Feed)
    requires Bounded(w, f)
    requires f == State(Source(map[0 := 0], true, None), [], Merger([0], {0}, {0}, false), [DEGRADED], [0], true, [],
                        map[])
    ensures Enabled(w, f, Show) && Next(w, f, Show) == Warned()
  {
    hide Bounded;
  }

  lemma Opens(e: StoredEvent, f: Feed, now: bool)
    requires Bounded(OneEvent(e), f) && f.replicas == REPLICA && f.sources == [Source(map[0 := 0], now, None)]
    ensures Enabled(OneEvent(e), f, Open(0, 0)) && Next(OneEvent(e), f, Open(0, 0)) == With(f, 0, now, Opening(now))
  {
    hide Bounded, Ascending;
    OneServed(e);
    assert 0 in map[0 := 0] && map[0 := 0].Keys == {0};
  }

  lemma Reads(e: StoredEvent, f: Feed, now: bool)
    requires e.partition == 0 && e.position == 0 && f.replicas == REPLICA && Bounded(OneEvent(e),
        With(f, 0, now, Opening(now)))
    ensures var g := With(f, 0, now, Opening(now));
            && Enabled(OneEvent(e), g, ReadHistory(0))
            && Next(OneEvent(e), g, ReadHistory(0)) ==
               With(f, 0, now, Reading(now, if now then 1 else 0, if now then [] else [e]))
  {
    OneEventIsValid(e);
    hide Bounded, Head, Announced;
    assert [e][..1] == [e];
    assert History(OneEvent(e), 0, 1, 0, 0) == [e];
    assert StartReading(OneEvent(e), 0, Opening(now), 1) == Reading(now, if now then 1 else 0, if now then [] else [e]);
  }

  lemma Reports(w: World, f: Feed)
    requires Bounded(w, With(f, 0, true, Reading(true, 1, [])))
    ensures var g := With(f, 0, true, Reading(true, 1, []));
            && Enabled(w, g, ReportHeads(0))
            && Next(w, g, ReportHeads(0)) ==
               With(f, 0, true, Reading(true, 1, []).(live := true, stream := [Heads(map[0 := 1])]))
  {
    hide Bounded;
    var g := With(f, 0, true, Reading(true, 1, []));
    One(Heads(map[0 := 1]), Failed);
    assert g.sources[0].sub.value.stream + [Heads(map[0 := 1])] == [Heads(map[0 := 1])];
    assert Next(w, g, ReportHeads(0)).sources == [Source(map[0 := 0], true,
                                                         Some(Reading(true, 1, []).(live := true,
                                                         stream := [Heads(map[0 := 1])])))];
  }

  lemma PassesHeads(w: World, f: Feed)
    requires f.messages == [] && Bounded(w, With(f, 0, true,
                                                 Reading(true, 1, []).(live := true, stream := [Heads(map[0 := 1])])))
    ensures var g := With(f, 0, true, Reading(true, 1, []).(live := true, stream := [Heads(map[0 := 1])]));
            && Enabled(w, g, Forward(0))
            && Next(w, g, Forward(0)) ==
               With(f, 1, false, Reading(true, 1, []).(live := true)).(messages := [SourceCaughtUp(0, map[0 := 1])])
  {
    hide Bounded;
    assert RaiseCursors(map[0 := 0], map[0 := 1]) == map[0 := 1];
    var g := With(f, 0, true, Reading(true, 1, []).(live := true, stream := [Heads(map[0 := 1])]));
    One(Heads(map[0 := 1]), Failed);
    assert SourceTakes(g.sources[0], Heads(map[0 := 1])) ==
      Source(map[0 := 1], false, Some(Reading(true, 1, []).(live := true)));
    assert Next(w, g, Forward(0)).sources == [Source(map[0 := 1], false, Some(Reading(true, 1, []).(live := true)))];
  }

  lemma Learns(w: World, f: Feed)
    requires Bounded(w, f)
    requires f == With(Warned(), 1, false, Reading(true, 1, []).(live := true)).(messages := [SourceCaughtUp(0, map[0 := 1])])
    ensures Next(w, f, Merge) == CaughtUp()
  {
    hide Bounded;
    assert {0} - {0} == {};
    assert Raise([0], map[0 := 1]) == [1];
    assert Take(f.merger, f.messages[0]) == Merged(CaughtUp().merger, CaughtUp().frames);
    assert Learnt(map[], f.messages[0], 1) == map[0 := Capture(1, 1)];
  }

  lemma CatchingUp(e: StoredEvent, rest: seq<Action>)
    requires e.partition == 0 && e.position == 0
    requires var w := OneEvent(e); w.Valid() && Inv(w, Warned()) && Bounded(w, Warned())
    ensures var w := OneEvent(e);
            && Inv(w, CaughtUp()) && Bounded(w, CaughtUp())
            && RunFrom(w, Warned(), [Open(0, 0)] + ([ReadHistory(0)] + ([ReportHeads(0)] + ([Forward(0)] + ([Merge] + rest)))))
               == RunFrom(w, CaughtUp(), rest)
  {
    var w, f := OneEvent(e), Warned();
    hide Inv, Bounded, RunFrom, Next, CaughtUp;
    Opens(e, f, true);
    Step(w, f, Open(0, 0), With(f, 0, true, Opening(true)),
         [ReadHistory(0)] + ([ReportHeads(0)] + ([Forward(0)] + ([Merge] + rest))));
    Reads(e, f, true);
    Step(w, With(f, 0, true, Opening(true)), ReadHistory(0), With(f, 0, true, Reading(true, 1, [])),
         [ReportHeads(0)] + ([Forward(0)] + ([Merge] + rest)));
    Reports(w, f);
    var reported := Reading(true, 1, []).(live := true);
    Step(w, With(f, 0, true, Reading(true, 1, [])), ReportHeads(0),
         With(f, 0, true, reported.(stream := [Heads(map[0 := 1])])),
         [Forward(0)] + ([Merge] + rest));
    PassesHeads(w, f);
    var passed := With(f, 1, false, reported).(messages := [SourceCaughtUp(0, map[0 := 1])]);
    Step(w, With(f, 0, true, reported.(stream := [Heads(map[0 := 1])])), Forward(0), passed, [Merge] + rest);
    Learns(w, passed);
    Step(w, passed, Merge, CaughtUp(), rest);
  }

  lemma Sends(e: StoredEvent, w: World, f: Feed)
    requires e.position == 0 && Bounded(w, With(f, 0, false, Reading(false, 0, [e])))
    ensures var g := With(f, 0, false, Reading(false, 0, [e]));
            && Enabled(w, g, SendHistory(0))
            && Next(w, g, SendHistory(0)) == With(f, 0, false, Reading(false, 1, []).(stream := [Ev(e)]))
  {
    hide Bounded;
    assert SendOne(Reading(false, 0, [e])) == Reading(false, 1, []).(stream := [Ev(e)]);
  }

  lemma PassesEvent(e: StoredEvent, w: World, f: Feed)
    requires e.partition == 0 && e.position == 0
    requires f.messages == [] && Bounded(w, With(f, 0, false, Reading(false, 1, []).(stream := [Ev(e)])))
    ensures var g := With(f, 0, false, Reading(false, 1, []).(stream := [Ev(e)]));
            && Enabled(w, g, Forward(0))
            && Next(w, g, Forward(0)) == With(f, 1, false, Reading(false, 1,
                                                                   [])).(messages := [SourceEvent(0, 0, 0, Some(e))])
  {
    hide Bounded;
    var g := With(f, 0, false, Reading(false, 1, []).(stream := [Ev(e)]));
    One(Ev(e), Failed);
    assert SourceTakes(g.sources[0], Ev(e)) == Source(map[0 := 1], false, Some(Reading(false, 1, [])));
    assert Next(w, g, Forward(0)).sources == [Source(map[0 := 1], false, Some(Reading(false, 1, [])))];
  }

  lemma ShowsEvent(e: StoredEvent, w: World, f: Feed)
    requires Bounded(w, f) && f == With(Resuming(), 1, false,
                                        Reading(false, 1, [])).(messages := [SourceEvent(0, 0, 0, Some(e))])
    requires e.partition == 0 && e.position == 0
    ensures Next(w, f, Merge) == Rewound(e).(frames := [Frame(EventFrame(e), [1])], cursor := [0],
                                             received := [DEGRADED])
  {
    hide Bounded;
    assert [0][0 := 1] == [1];
    assert Take(f.merger, f.messages[0]) == Merged(Merger([1], {0}, {}, false), [Frame(EventFrame(e), [1])]);
  }

  lemma Rewinding(e: StoredEvent, rest: seq<Action>)
    requires e.partition == 0 && e.position == 0
    requires var w := OneEvent(e); w.Valid() && Inv(w, CaughtUp()) && Bounded(w, CaughtUp())
    ensures var w := OneEvent(e);
            && Inv(w, Rewound(e))
            && RunFrom(w, CaughtUp(),
                 [Reconnect] + ([Open(0, 0)] + ([ReadHistory(0)] + ([SendHistory(0)] + ([Forward(0)] + ([Merge] + ([Show] + rest)))))))
               == RunFrom(w, Rewound(e), rest)
  {
    var w, f := OneEvent(e), Resuming();
    hide Inv, Bounded, RunFrom, Next;
    var later := [SendHistory(0)] + ([Forward(0)] + ([Merge] + ([Show] + rest)));
    ResumingState(e);
    Step(w, CaughtUp(), Reconnect, f, [Open(0, 0)] + ([ReadHistory(0)] + later));
    Opens(e, f, false);
    Step(w, f, Open(0, 0), With(f, 0, false, Opening(false)), [ReadHistory(0)] + later);
    Reads(e, f, false);
    Step(w, With(f, 0, false, Opening(false)), ReadHistory(0), With(f, 0, false, Reading(false, 0, [e])), later);
    Sends(e, w, f);
    var sent := Reading(false, 1, []);
    Step(w, With(f, 0, false, Reading(false, 0, [e])), SendHistory(0), With(f, 0, false, sent.(stream := [Ev(e)])),
         [Forward(0)] + ([Merge] + ([Show] + rest)));
    PassesEvent(e, w, f);
    var passed := With(f, 1, false, sent).(messages := [SourceEvent(0, 0, 0, Some(e))]);
    Step(w, With(f, 0, false, sent.(stream := [Ev(e)])), Forward(0), passed, [Merge] + ([Show] + rest));
    ShowsEvent(e, w, passed);
    var merged := Rewound(e).(frames := [Frame(EventFrame(e), [1])], cursor := [0], received := [DEGRADED]);
    Step(w, passed, Merge, merged, [Show] + rest);
    EventShown(e, w);
    Step(w, merged, Show, Rewound(e), rest);
  }

  lemma EventShown(e: StoredEvent, w: World)
    requires Bounded(w, Rewound(e).(frames := [Frame(EventFrame(e), [1])], cursor := [0], received := [DEGRADED]))
    ensures Next(w, Rewound(e).(frames := [Frame(EventFrame(e), [1])], cursor := [0], received := [DEGRADED]),
                 Show) == Rewound(e)
  {
    hide Bounded;
  }

  lemma ResumingState(e: StoredEvent)
    requires var w := OneEvent(e); w.Valid() && Bounded(w, CaughtUp())
    ensures Enabled(OneEvent(e), CaughtUp(), Reconnect) && Next(OneEvent(e), CaughtUp(), Reconnect) == Resuming()
  {
    OneServed(e);
    hide Bounded;
    var w := OneEvent(e);
    var f := Next(w, CaughtUp(), Reconnect);
    assert f.sources[0].cursors == map[0 := 0];
    assert f.sources == [Source(map[0 := 0], false, None)];
    assert w.placement[0] in f.merger.pending;
    assert f.merger.pending == {0};
    assert f.captures == map[0 := Capture(0, 1)];
  }

  /** What the client and the feed do, step by step. */
  function UntilCaughtUp(rest: seq<Action>): seq<Action> {
    [OpenFails(0)] + ([Merge] + ([Show] +
    ([Open(0, 0)] + ([ReadHistory(0)] + ([ReportHeads(0)] + ([Forward(0)] + ([Merge] + rest)))))))
  }

  function AndBack(): seq<Action> {
    [Reconnect] + ([Open(0, 0)] + ([ReadHistory(0)] + ([SendHistory(0)] + ([Forward(0)] + ([Merge] + ([Show] + []))))))
  }

  /**
   * The cursors of a follow from now may be too early: here the feed has learnt that the partition's head is one, and
   * a client that resumes from the frame it was shown before is then shown the event at position zero.
   */
  lemma NowCursorRewinds(e: StoredEvent)
    requires e.partition == 0 && e.position == 0
    ensures var w := OneEvent(e);
            && w.Valid() && ReplicasOk(w, REPLICA)
            && var f := FollowNow(w, REPLICA, UntilCaughtUp([]));
               var g := FollowNow(w, REPLICA, UntilCaughtUp(AndBack()));
               && 0 in f.captures && f.captures[0].head == 1 && Shown(f.received, 0) == []
               && Shown(g.received, 0) == [e] && e.position < f.captures[0].head
  {
    var w := OneEvent(e);
    FromNowToCaughtUp(e, []);
    FromNowToCaughtUp(e, AndBack());
    Rewinding(e, []);
    RunsNothing(w, CaughtUp());
    RunsNothing(w, Rewound(e));
    RewoundShown(e);
    hide Inv, Bounded, RunFrom, FollowNow, UntilCaughtUp, Shown, World.Valid, ReplicasOk, Rewound;
  }

  lemma RewoundShown(e: StoredEvent)
    requires e.partition == 0
    ensures Shown(CaughtUp().received, 0) == [] && Shown(Rewound(e).received, 0) == [e]
  {
    var frames := Rewound(e).received;
    assert frames[1..] == [Frame(EventFrame(e), [1])] && frames[1..][1..] == [];
    assert CaughtUp().received[1..] == [];
  }

  lemma RunsNothing(w: World, f: Feed)
    requires Inv(w, f)
    ensures RunFrom(w, f, []) == f
  {
    hide Inv;
  }

  lemma FromNowToCaughtUp(e: StoredEvent, rest: seq<Action>)
    requires e.partition == 0 && e.position == 0
    ensures var w := OneEvent(e);
            && w.Valid() && ReplicasOk(w, REPLICA) && Inv(w, CaughtUp()) && Bounded(w, CaughtUp())
            && FollowNow(w, REPLICA, UntilCaughtUp(rest)) == RunFrom(w, CaughtUp(), rest)
  {
    Warning(e, [Open(0, 0)] + ([ReadHistory(0)] + ([ReportHeads(0)] + ([Forward(0)] + ([Merge] + rest)))));
    CatchingUp(e, rest);
    hide Inv, Bounded, RunFrom, FollowNow;
  }
}
