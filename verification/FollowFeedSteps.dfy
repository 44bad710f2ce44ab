/** Every step of a subscription and of its source keeps the streams chained. */
module FollowFeedSteps {
  import opened Base
  import opened Aggregate
  import opened StoreReads
  import opened FeedChain
  import opened FollowFeed
  import opened FollowFeedProof

  // ---------------------------------------------------------------- one subscription

  lemma OpenOk(w: World, s: nat, p: nat, source: Source, replica: nat, broadcast: nat)
    requires s < |w.logs| && broadcast <= |w.logs[s]| && p in source.cursors
    ensures SubOk(w, s, p, SourcePlace(source, p), Subscribed(source.cursors, source.fromNow, replica, broadcast))
  {
    hide Announced, Head;
    assert p in Ascending(source.cursors.Keys);
    assert Items([], p) == [];
  }

  lemma HistoryIsLog(w: World, s: nat, committed: nat, p: nat, start: nat)
    requires s < |w.logs| && committed <= |w.logs[s]|
    ensures var log := Announced(w.logs[s], w.ty, p);
            var h := History(w, s, committed, p, start);
            && (h != [] ==> start + |h| <= |log| && h == log[start..start + |h|])
            && Head(w.logs[s], committed, w.ty, p) <= start + |h|
  {
    HeadMonotone(w.logs[s], committed, committed, w.ty, p);
    hide Announced;
  }

  lemma TailMember(todo: seq<nat>, p: nat)
    requires todo != [] && forall i, j :: 0 <= i < j < |todo| ==> todo[i] < todo[j]
    ensures p in todo[1..] <==> p in todo && p != todo[0]
  {
    assert todo == [todo[0]] + todo[1..];
  }

  /** What reading does to the partition whose turn it is, and to the others. */
  lemma ReadPlaces(w: World, s: nat, p: nat, b: Sub, committed: nat)
    requires s < |w.logs| && b.received <= committed <= |w.logs[s]|
    requires b.todo != [] && b.todo[0] in b.starts && b.pending == [] && !b.live
    requires forall i, j :: 0 <= i < j < |b.todo| ==> b.todo[i] < b.todo[j]
    requires p in b.starts && (p in b.todo <==> p !in b.next)
    ensures var c := StartReading(w, s, b, committed);
            && (p in c.todo <==> p !in c.next) && SubPlace(c, p) == SubPlace(b, p) && c.stream == b.stream
            && (p != b.todo[0] ==> Held(c, p) == 0 && (p in c.next <==> p in b.next) && (p in b.next ==> c.next[p] == b.next[p]))
  {
    TailMember(b.todo, p);
    hide Announced, Head, History;
  }

  lemma ReadHere(w: World, s: nat, b: Sub, committed: nat)
    requires s < |w.logs| && b.received <= committed <= |w.logs[s]| && b.todo != [] && b.todo[0] in b.starts
    requires b.pending == []
    ensures var c := StartReading(w, s, b, committed);
            var p := b.todo[0];
            var log := Announced(w.logs[s], w.ty, p);
            && p in c.next && HeldIsLog(c, p, log)
            && Head(w.logs[s], b.received, w.ty, p) <= c.next[p] + Held(c, p)
            && (b.fromNow ==> c.pending == [] && c.next[p] <= |log|)
  {
    var p := b.todo[0];
    HistoryIsLog(w, s, committed, p, b.starts[p]);
    HeadMonotone(w.logs[s], b.received, committed, w.ty, p);
    hide Announced, Head, History;
  }

  lemma ReadOk(w: World, s: nat, p: nat, place: Place, b: Sub, committed: nat)
    requires s < |w.logs| && b.received <= committed <= |w.logs[s]|
    requires b.todo != [] && b.todo[0] in b.starts && b.pending == [] && !b.live
    requires forall i, j :: 0 <= i < j < |b.todo| ==> b.todo[i] < b.todo[j]
    requires SubOk(w, s, p, place, b)
    ensures SubOk(w, s, p, place, StartReading(w, s, b, committed))
  {
    ReadPlaces(w, s, p, b, committed);
    ReadHere(w, s, b, committed);
    hide Announced, Head, History, Chain, Items, SubPlace;
    var c := StartReading(w, s, b, committed);
    assert b.fromNow ==> c.pending == [];
    assert p != b.todo[0] ==> HeldIsLog(c, p, Announced(w.logs[s], w.ty, p));
  }

  lemma SendOk(w: World, s: nat, p: nat, place: Place, b: Sub)
    requires s < |w.logs| && b.received <= |w.logs[s]| && b.pending != [] && b.reading in b.next
    requires b.next.Keys <= b.starts.Keys
    requires Numbered(w.logs[s], w.ty, p) && Numbered(w.logs[s], w.ty, b.reading)
    requires SubOk(w, s, p, place, b) && HeldIsLog(b, b.reading, Announced(w.logs[s], w.ty, b.reading))
    ensures SubOk(w, s, p, place, SendOne(b)) && b.pending[0].partition == b.reading
  {
    hide Announced, Head, Chain, Items;
    var log := Announced(w.logs[s], w.ty, p);
    var e := b.pending[0];
    var at := b.next[b.reading];
    assert e == Announced(w.logs[s], w.ty, b.reading)[at];
    ItemsSnoc(b.stream, Ev(e), p, log, place, SubPlace(b, p));
    if p == b.reading && |b.pending| > 1 {
      assert b.pending[1..] == log[at + 1..at + |b.pending|];
    }
  }

  lemma ReportOk(w: World, s: nat, p: nat, place: Place, b: Sub)
    requires s < |w.logs| && b.received <= |w.logs[s]| && b.pending == [] && b.todo == [] && !b.live
    requires SubOk(w, s, p, place, b)
    ensures p in b.next && SubOk(w, s, p, place, b.(live := true, stream := b.stream + [Heads(b.next)]))
  {
    hide Announced, Head, Chain, Items;
    ItemsSnoc(b.stream, Heads(b.next), p, Announced(w.logs[s], w.ty, p), place, SubPlace(b, p));
  }

  lemma ReceiveOk(w: World, s: nat, p: nat, place: Place, b: Sub)
    requires s < |w.logs| && b.received < |w.logs[s]| && b.pending == [] && b.todo == [] && b.live
    requires Numbered(w.logs[s], w.ty, p)
    requires SubOk(w, s, p, place, b)
    ensures SubOk(w, s, p, place, TakeLive(w, b, w.logs[s][b.received]))
  {
    hide Announced, Head, Chain, Items, InOrder;
    var log := Announced(w.logs[s], w.ty, p);
    var e := w.logs[s][b.received];
    HeadMoves(w.logs[s], b.received, w.ty, p);
    if e.aggregateType == w.ty && e.partition in b.next && e.position >= b.next[e.partition] {
      ItemsSnoc(b.stream, Ev(e), p, log, place, SubPlace(b, p));
    }
  }

  /** The next event of a shard and its partition's head. */
  lemma HeadMoves(log: seq<StoredEvent>, c: nat, ty: TypeId, p: nat)
    requires c < |log| && Numbered(log, ty, p)
    ensures log[c].aggregateType == ty && log[c].partition == p ==>
              && log[c].position == Head(log, c, ty, p) < |Announced(log, ty, p)| && log[c].position < U64_MAX
              && log[c] == Announced(log, ty, p)[log[c].position]
              && Head(log, c + 1, ty, p) == Head(log, c, ty, p) + 1
    ensures !(log[c].aggregateType == ty && log[c].partition == p) ==> Head(log, c + 1, ty, p) == Head(log, c, ty, p)
  {
    if log[c].aggregateType == ty && log[c].partition == p {
      EventAtHead(log, c, ty, p);
    } else {
      OtherKeepsHead(log, c, ty, p);
    }
    hide Announced, Head;
  }

  lemma StopOk(w: World, s: nat, p: nat, place: Place, b: Sub)
    requires s < |w.logs| && b.received <= |w.logs[s]| && SubOk(w, s, p, place, b)
    ensures SubOk(w, s, p, place, b.(stopped := true))
  {
    hide Announced, Head, Chain, Items;
  }

  lemma LagOk(w: World, s: nat, p: nat, place: Place, b: Sub)
    requires s < |w.logs| && b.received <= |w.logs[s]|
    requires SubOk(w, s, p, place, b)
    ensures SubOk(w, s, p, place, b.(stopped := true, stream := b.stream + [Failed]))
  {
    hide Announced, Head, Chain, Items;
    ItemsSnoc(b.stream, Failed, p, Announced(w.logs[s], w.ty, p), place, SubPlace(b, p));
  }

  lemma RaisedInPlace(cursors: map<nat, nat>, heads: map<nat, nat>, p: nat)
    requires p in cursors
    ensures p in RaiseCursors(cursors, heads)
    ensures p in heads && (heads[p] == cursors[p] || cursors[p] == 0) ==> RaiseCursors(cursors, heads)[p] == heads[p]
    ensures p !in heads ==> RaiseCursors(cursors, heads)[p] == cursors[p]
  {
  }

  /** Taking an item off the stream moves the source's place by the item's effect. */
  lemma TakeOk(w: World, s: nat, p: nat, source: Source)
    requires s < |w.logs| && source.sub.Some? && source.sub.value.stream != [] && p in source.cursors
    requires source.sub.value.received <= |w.logs[s]| && Numbered(w.logs[s], w.ty, p)
    requires source.fromNow ==> source.cursors[p] == 0
    requires p in w.Served(s) && Local(w, s, source.sub.value.stream)
    requires SubOk(w, s, p, SourcePlace(source, p), source.sub.value)
    ensures var item := source.sub.value.stream[0];
            var taken := SourceTakes(source, item);
            && InPlace(ItemEffect(item, p), Announced(w.logs[s], w.ty, p), SourcePlace(source, p))
            && p in taken.cursors && SourcePlace(taken, p) == After(ItemEffect(item, p), SourcePlace(source, p))
            && (taken.fromNow ==> taken.cursors[p] == 0)
            && (taken.sub.Some? ==> taken.sub.value.received <= |w.logs[s]| && SubOk(w, s, p, SourcePlace(taken, p),
                taken.sub.value))
  {
    hide Announced, Head, Chain, Items, RaiseCursors, InPlace, ItemEffect, SourcePlace, InOrder, After;
    var b := source.sub.value;
    var item := b.stream[0];
    ItemsTail(b.stream, p, Announced(w.logs[s], w.ty, p), SourcePlace(source, p), SubPlace(b, p));
    TakePlace(w, s, p, source, item);
  }

  lemma TakePlace(w: World, s: nat, p: nat, source: Source, item: Item)
    requires s < |w.logs| && source.sub.Some? && source.sub.value.stream != [] && p in source.cursors
    requires p in w.Served(s)
    requires Numbered(w.logs[s], w.ty, p) && (source.fromNow ==> source.cursors[p] == 0)
    requires item.Heads? ==> item.heads.Keys == w.Served(s)
    requires InPlace(ItemEffect(item, p), Announced(w.logs[s], w.ty, p), SourcePlace(source, p))
    ensures var taken := SourceTakes(source, item);
            && p in taken.cursors && SourcePlace(taken, p) == After(ItemEffect(item, p), SourcePlace(source, p))
            && (taken.fromNow ==> taken.cursors[p] == 0)
  {
    hide Announced, RaiseCursors;
    if item.Heads? {
      RaisedInPlace(source.cursors, item.heads, p);
    }
  }
}
