/**
 * What the merger tells a client about its sources: when it says that everything is caught up, that a source is
 * missing, and that all are back. All of it is read off the messages of the sources.
 */
module MergerStatus {
  import opened Base
  import opened ReadMerger

  datatype Status = Unheard | CaughtUp | Down

  /** What a source last said of itself. */
  function StatusOf(messages: seq<Message>, source: nat): Status {
    if messages == [] then Unheard
    else
      var last := messages[|messages| - 1];
      if last.source == source && last.SourceCaughtUp? then CaughtUp
      else if last.source == source && last.SourceDegraded? then Down
      else StatusOf(messages[..|messages| - 1], source)
  }

  /** Every source of the follow has caught up, and none that was heard of is down. */
  ghost predicate AllCaughtUp(sources: set<nat>, messages: seq<Message>) {
    && (forall s :: s in sources ==> StatusOf(messages, s).CaughtUp?)
    && (forall s :: !StatusOf(messages, s).Down?)
  }

  /** Some report of a source found all of them caught up. */
  ghost predicate Completed(sources: set<nat>, messages: seq<Message>) {
    exists j: nat :: CompletedAt(sources, messages, j)
  }

  ghost predicate CompletedAt(sources: set<nat>, messages: seq<Message>, j: nat) {
    j < |messages| && messages[j].SourceCaughtUp? && AllCaughtUp(sources, messages[..j + 1])
  }

  /** The sources that are down. */
  function Downs(messages: seq<Message>): set<nat> {
    set i | 0 <= i < |messages| && StatusOf(messages, messages[i].source).Down? :: messages[i].source
  }

  /** What a message makes the merger say, with the cursor it says it with. */
  ghost function Says(sources: set<nat>, messages: seq<Message>, message: Message, cursor: seq<nat>): seq<Frame> {
    var s, longer := message.source, messages + [message];
    match message
    case SourceEvent(_, partition, _, event) =>
      if event.Some? && partition <= U16_MAX && partition < |cursor| then [Frame(EventFrame(event.value), cursor)] else []
    case SourceDegraded(_) =>
      if StatusOf(messages, s).Down? then [] else [Frame(DegradedFrame(|Downs(longer)| % (U32_MAX + 1)), cursor)]
    case SourceCaughtUp(_, _) =>
      (if StatusOf(messages, s).Down? && Downs(longer) == {} && Completed(sources, messages)
       then [Frame(RecoveredFrame, cursor)] else []) +
      (if AllCaughtUp(sources, longer) && !Completed(sources, messages) then [Frame(CaughtUpFrame, cursor)] else [])
  }

  // ---------------------------------------------------------------- one more message

  lemma StatusSnoc(messages: seq<Message>, message: Message, source: nat)
    ensures StatusOf(messages + [message], source) ==
            if message.source == source && message.SourceCaughtUp? then CaughtUp
            else if message.source == source && message.SourceDegraded? then Down
            else StatusOf(messages, source)
  {
    assert (messages + [message])[..|messages|] == messages;
  }

  lemma {:induction false} DownWasHeard(messages: seq<Message>, source: nat)
    requires StatusOf(messages, source).Down?
    ensures exists i :: 0 <= i < |messages| && messages[i].source == source
    decreases |messages|
  {
    var before, last := messages[..|messages| - 1], messages[|messages| - 1];
    if last.source != source {
      DownWasHeard(before, source);
      var i :| 0 <= i < |before| && before[i].source == source;
      assert messages[i].source == source;
    } else {
      assert messages[|messages| - 1].source == source;
    }
  }

  lemma DownsAre(messages: seq<Message>)
    ensures forall s: nat :: s in Downs(messages) <==> StatusOf(messages, s).Down?
  {
    forall s: nat | StatusOf(messages, s).Down? ensures s in Downs(messages) {
      DownWasHeard(messages, s);
    }
  }

  lemma CompletedSnoc(sources: set<nat>, messages: seq<Message>, message: Message)
    ensures Completed(sources, messages + [message]) <==>
            Completed(sources, messages) || (message.SourceCaughtUp? && AllCaughtUp(sources, messages + [message]))
  {
    hide AllCaughtUp;
    var longer := messages + [message];
    forall j: nat | j < |messages| ensures CompletedAt(sources, longer, j) <==> CompletedAt(sources, messages, j) {
      assert longer[..j + 1] == messages[..j + 1];
    }
    assert longer[..|messages| + 1] == longer;
    if Completed(sources, messages) {
      var j: nat :| CompletedAt(sources, messages, j);
      assert CompletedAt(sources, longer, j);
    }
    if message.SourceCaughtUp? && AllCaughtUp(sources, longer) {
      assert CompletedAt(sources, longer, |messages|);
    }
    if Completed(sources, longer) {
      var j: nat :| CompletedAt(sources, longer, j);
      if j < |messages| { assert CompletedAt(sources, messages, j); }
    }
  }

  /** The merger remembers what the messages say. */
  ghost predicate Remembers(m: Merger, sources: set<nat>, messages: seq<Message>) {
    && (forall s: nat :: s in m.pending <==>
          (s in sources && StatusOf(messages, s).Unheard?) || StatusOf(messages, s).Down?)
    && (forall s: nat :: s in m.unavailable <==> StatusOf(messages, s).Down?)
    && (m.caughtUpSent <==> Completed(sources, messages))
  }

  /** Nothing is pending when all have caught up. */
  lemma NothingPending(pending: set<nat>, sources: set<nat>, messages: seq<Message>)
    requires forall s: nat :: s in pending <==>
               (s in sources && StatusOf(messages, s).Unheard?) || StatusOf(messages, s).Down?
    ensures pending == {} <==> AllCaughtUp(sources, messages)
  {
    hide StatusOf;
    if pending != {} {
      var s :| s in pending;
    }
  }

  lemma DownsEqual(unavailable: set<nat>, messages: seq<Message>)
    requires forall s: nat :: s in unavailable <==> StatusOf(messages, s).Down?
    ensures unavailable == Downs(messages)
  {
    DownsAre(messages);
    hide StatusOf, Downs;
  }

  lemma RemembersOne(m: Merger, sources: set<nat>, messages: seq<Message>, message: Message)
    requires Remembers(m, sources, messages)
    ensures var longer, r := messages + [message], Take(m, message).merger;
            && (forall s: nat :: s in r.pending <==>
                  (s in sources && StatusOf(longer, s).Unheard?) || StatusOf(longer, s).Down?)
            && (forall s: nat :: s in r.unavailable <==> StatusOf(longer, s).Down?)
  {
    hide StatusOf, Completed, Raise;
    var longer, r := messages + [message], Take(m, message).merger;
    forall s: nat
      ensures s in r.pending <==> (s in sources && StatusOf(longer, s).Unheard?) || StatusOf(longer, s).Down?
      ensures s in r.unavailable <==> StatusOf(longer, s).Down?
    {
      StatusSnoc(messages, message, s);
    }
  }

  lemma SaysOne(m: Merger, sources: set<nat>, messages: seq<Message>, message: Message)
    requires Remembers(m, sources, messages)
    ensures var r := Take(m, message);
            && Remembers(r.merger, sources, messages + [message])
            && r.frames == Says(sources, messages, message, r.merger.cursor)
  {
    hide StatusOf, Completed, Raise, AllCaughtUp, Downs;
    var longer, r := messages + [message], Take(m, message);
    RemembersOne(m, sources, messages, message);
    CompletedSnoc(sources, messages, message);
    NothingPending(r.merger.pending, sources, longer);
    DownsEqual(r.merger.unavailable, longer);
    var known, told := StatusOf(messages, message.source).Down?, Completed(sources, messages);
    assert (message.source in m.unavailable <==> known) && (m.caughtUpSent <==> told);
    hide Remembers;
    SaysIs(m, sources, messages, message);
    RemembersFrom(r.merger, sources, longer);
  }

  lemma RemembersFrom(m: Merger, sources: set<nat>, messages: seq<Message>)
    requires forall s: nat :: s in m.pending <==>
               (s in sources && StatusOf(messages, s).Unheard?) || StatusOf(messages, s).Down?
    requires forall s: nat :: s in m.unavailable <==> StatusOf(messages, s).Down?
    requires m.caughtUpSent <==> Completed(sources, messages)
    ensures Remembers(m, sources, messages)
  {
    hide StatusOf, Completed;
  }

  lemma SaysIs(m: Merger, sources: set<nat>, messages: seq<Message>, message: Message)
    requires message.source in m.unavailable <==> StatusOf(messages, message.source).Down?
    requires m.caughtUpSent <==> Completed(sources, messages)
    requires Take(m, message).merger.pending == {} <==> AllCaughtUp(sources, messages + [message])
    requires Take(m, message).merger.unavailable == Downs(messages + [message])
    ensures Take(m, message).frames == Says(sources, messages, message, Take(m, message).merger.cursor)
  {
    hide StatusOf, Completed, Raise, AllCaughtUp, Downs;
  }

  // ---------------------------------------------------------------- every run of messages

  lemma StartRemembers(cursor: seq<nat>, sources: set<nat>)
    ensures Remembers(Merger(cursor, sources, {}, false), sources, [])
  {
  }

  lemma {:induction false} AllRemember(cursor: seq<nat>, sources: set<nat>, messages: seq<Message>)
    ensures Remembers(TakeAll(Merger(cursor, sources, {}, false), messages).merger, sources, messages)
    decreases |messages|
  {
    hide Remembers, Take;
    if messages == [] {
      StartRemembers(cursor, sources);
    } else {
      var before, last := messages[..|messages| - 1], messages[|messages| - 1];
      assert messages == before + [last];
      AllRemember(cursor, sources, before);
      SaysOne(TakeAll(Merger(cursor, sources, {}, false), before).merger, sources, before, last);
    }
  }

  /**
   * What each message makes the merger say. A source that goes down is announced once, with how many are down; the
   * client is told that everything has caught up when, for the first time, a report leaves every source caught up; and
   * that all are back when, after that, the last source that was down reports.
   */
  lemma MessageSays(cursor: seq<nat>, sources: set<nat>, messages: seq<Message>, message: Message)
    ensures var before := TakeAll(Merger(cursor, sources, {}, false), messages);
            var after := TakeAll(Merger(cursor, sources, {}, false), messages + [message]);
            after.frames == before.frames + Says(sources, messages, message, after.merger.cursor)
  {
    hide Remembers, Take, Says;
    AllRemember(cursor, sources, messages);
    assert (messages + [message])[..|messages|] == messages;
    SaysOne(TakeAll(Merger(cursor, sources, {}, false), messages).merger, sources, messages, message);
  }

  /** How often the client has been told that everything has caught up. */
  function ToldCaughtUp(frames: seq<Frame>): nat {
    if frames == [] then 0
    else ToldCaughtUp(frames[..|frames| - 1]) + (if frames[|frames| - 1].payload.CaughtUpFrame? then 1 else 0)
  }

  lemma {:induction false} ToldConcat(a: seq<Frame>, b: seq<Frame>)
    ensures ToldCaughtUp(a + b) == ToldCaughtUp(a) + ToldCaughtUp(b)
    decreases |b|
  {
    if b == [] {
      assert a + b == a;
    } else {
      assert (a + b)[..|a + b| - 1] == a + b[..|b| - 1];
      ToldConcat(a, b[..|b| - 1]);
    }
  }

  lemma SaysCaughtUp(sources: set<nat>, messages: seq<Message>, message: Message, cursor: seq<nat>)
    ensures ToldCaughtUp(Says(sources, messages, message, cursor)) ==
            if message.SourceCaughtUp? && AllCaughtUp(sources, messages + [message]) && !Completed(sources, messages)
            then 1 else 0
  {
    hide AllCaughtUp, Completed, StatusOf, Downs;
    var frames := Says(sources, messages, message, cursor);
    if frames != [] { assert ToldCaughtUp(frames[..|frames| - 1]) == 0 by { OneBefore(frames); } }
  }

  lemma OneBefore(frames: seq<Frame>)
    requires frames != [] && |frames| <= 2 && (|frames| == 2 ==> !frames[0].payload.CaughtUpFrame?)
    ensures ToldCaughtUp(frames[..|frames| - 1]) == 0
  {
    var rest := frames[..|frames| - 1];
    if |rest| == 1 {
      assert rest[..0] == [];
    }
  }

  /** A client is told at most once that everything has caught up, and it is told if and only if it has. */
  lemma {:induction false} ToldOnce(cursor: seq<nat>, sources: set<nat>, messages: seq<Message>)
    ensures ToldCaughtUp(TakeAll(Merger(cursor, sources, {}, false), messages).frames) ==
            if Completed(sources, messages) then 1 else 0
    decreases |messages|
  {
    hide Take, Says, AllCaughtUp, Completed;
    var start := Merger(cursor, sources, {}, false);
    if messages == [] {
      NotAtOnce(sources);
    } else {
      var before, last := messages[..|messages| - 1], messages[|messages| - 1];
      assert messages == before + [last];
      ToldOnce(cursor, sources, before);
      MessageSays(cursor, sources, before, last);
      CompletedSnoc(sources, before, last);
      var frames := Says(sources, before, last, TakeAll(start, messages).merger.cursor);
      SaysCaughtUp(sources, before, last, TakeAll(start, messages).merger.cursor);
      ToldConcat(TakeAll(start, before).frames, frames);
    }
  }

  lemma NotAtOnce(sources: set<nat>)
    ensures !Completed(sources, [])
  {
  }
}
