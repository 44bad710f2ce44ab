/**
 * Listing the states of a sharded aggregate type page by page. Each page asks every partition for a little more
 * than one page of ids after a per-partition token, merges them, and keeps one page. Following the tokens
 * enumerates every state once, in order.
 */
module StatePages {
  import opened Base
  import opened Lexicographic

  const DEFAULT_PAGE_SIZE: nat := 100
  const MAX_PAGE_SIZE: nat := 1000

  /** A state id with the place its partition takes when the shards are asked. */
  datatype Item = Item(rank: nat, id: Text)

  /** The ids stored in each partition, in the order partitions are asked. */
  type States = seq<set<Text>>

  /** One id per partition: the last one already listed, empty when none is. */
  type Token = seq<Text>

  function PageSize(requested: nat): (n: nat)
    ensures 1 <= n <= MAX_PAGE_SIZE
  {
    if requested == 0 then DEFAULT_PAGE_SIZE else Min(requested, MAX_PAGE_SIZE)
  }

  // ---------------------------------------------------------------- the order of a listing

  /** By id; equal ids of different partitions keep the order they were fetched in. */
  predicate Before(x: Item, y: Item) {
    Less(x.id, y.id) || (x.id == y.id && x.rank < y.rank)
  }

  lemma BeforeTotal(x: Item, y: Item)
    ensures x == y || Before(x, y) || Before(y, x)
    ensures Before(x, y) ==> x != y && !Before(y, x)
  {
    LessTotal(x.id, y.id);
    LessIrreflexive(x.id);
    if Less(x.id, y.id) {
      LessAsymmetric(x.id, y.id);
    }
    if Less(y.id, x.id) {
      LessAsymmetric(y.id, x.id);
    }
    hide Less;
  }

  lemma BeforeTransitive(x: Item, y: Item, z: Item)
    requires Before(x, y) && Before(y, z)
    ensures Before(x, z)
  {
    if Less(x.id, y.id) && Less(y.id, z.id) {
      LessTransitive(x.id, y.id, z.id);
    }
    hide Less;
  }

  predicate IsFirst(x: Item, s: set<Item>) {
    x in s && forall y :: y in s && y != x ==> Before(x, y)
  }

  lemma FirstUnique(x: Item, y: Item, s: set<Item>)
    requires IsFirst(x, s) && IsFirst(y, s)
    ensures x == y
  {
    BeforeTotal(x, y);
  }

  lemma {:induction false} FirstExists(s: set<Item>)
    requires s != {}
    ensures exists x :: IsFirst(x, s)
    decreases s
  {
    hide Before;
    var x :| x in s;
    if s == {x} {
      assert IsFirst(x, s);
    } else {
      FirstExists(s - {x});
      var m :| IsFirst(m, s - {x});
      BeforeTotal(x, m);
      if Before(x, m) {
        forall y | y in s && y != x ensures Before(x, y) {
          if y != m {
            BeforeTransitive(x, m, y);
          }
        }
        assert IsFirst(x, s);
      } else {
        assert IsFirst(m, s);
      }
    }
  }

  lemma FirstIsThe(s: set<Item>)
    requires s != {}
    ensures exists x :: IsFirst(x, s)
    ensures forall x, y :: IsFirst(x, s) && IsFirst(y, s) ==> x == y
  {
    FirstExists(s);
    forall x, y | IsFirst(x, s) && IsFirst(y, s) ensures x == y {
      FirstUnique(x, y, s);
    }
  }

  function First(s: set<Item>): (x: Item)
    requires s != {}
    ensures IsFirst(x, s)
  {
    FirstIsThe(s);
    var x :| IsFirst(x, s);
    x
  }

  /** The first `k` items of a set in listing order, or all of them when there are fewer. */
  function Top(s: set<Item>, k: nat): seq<Item>
    decreases k
  {
    if k == 0 || s == {} then [] else [First(s)] + Top(s - {First(s)}, k - 1)
  }

  /** The whole set in listing order. */
  function Listing(s: set<Item>): seq<Item> {
    Top(s, |s|)
  }

  ghost predicate Ascends(r: seq<Item>) {
    forall i, j :: 0 <= i < j < |r| ==> Before(r[i], r[j])
  }

  lemma AscendsCons(m: Item, rest: seq<Item>)
    requires Ascends(rest) && forall x :: x in rest ==> Before(m, x)
    ensures Ascends([m] + rest)
  {
    hide Before;
    var r := [m] + rest;
    forall i, j | 0 <= i < j < |r| ensures Before(r[i], r[j]) {
      assert rest[j - 1] in rest;
    }
  }

  /** The top of a set is ascending, comes from the set, and precedes everything it leaves out. */
  lemma {:induction false} TopFacts(s: set<Item>, k: nat)
    ensures |Top(s, k)| == Min(k, |s|)
    ensures Ascends(Top(s, k))
    ensures forall x :: x in Top(s, k) ==> x in s
    ensures forall x, y :: x in s && x !in Top(s, k) && y in Top(s, k) ==> Before(y, x)
    decreases k
  {
    if k != 0 && s != {} {
      var m := First(s);
      var rest := Top(s - {m}, k - 1);
      TopFacts(s - {m}, k - 1);
      TopStep(s, k);
      hide Before, Top, First, Ascends;
      AscendsCons(m, rest);
      forall x, y | x in s && x !in Top(s, k) && y in Top(s, k) ensures Before(y, x) {
        if y != m {
          assert y in rest && x in s - {m} && x !in rest;
        }
      }
    }
  }

  /** A listing holds every item exactly once, in order. */
  lemma ListingFacts(s: set<Item>)
    ensures |Listing(s)| == |s| && Ascends(Listing(s))
    ensures forall x :: x in Listing(s) <==> x in s
  {
    TopFacts(s, |s|);
    hide Top, Before;
    var r := Listing(s);
    forall x | x in s ensures x in r {
      if x !in r {
        DistinctBelow(r, s - {x});
      }
    }
  }

  /** An ascending list inside a set is no longer than the set. */
  lemma {:induction false} DistinctBelow(r: seq<Item>, s: set<Item>)
    requires Ascends(r) && forall x :: x in r ==> x in s
    ensures |r| <= |s|
    decreases |r|
  {
    if r != [] {
      var last := r[|r| - 1];
      forall x | x in r[..|r| - 1] ensures x in s - {last} {
        var i :| 0 <= i < |r| - 1 && r[i] == x;
        BeforeTotal(r[i], last);
      }
      DistinctBelow(r[..|r| - 1], s - {last});
    }
  }

  /** An ascending list that holds exactly the items of a set. */
  ghost predicate Exhausts(r: seq<Item>, s: set<Item>) {
    Ascends(r) && forall x :: x in r <==> x in s
  }

  /** Its head is the first of them, and its tail lists the others. */
  lemma HeadAndTail(r: seq<Item>, s: set<Item>)
    requires Exhausts(r, s) && r != []
    ensures s != {} && First(s) == r[0] && Exhausts(r[1..], s - {r[0]})
  {
    hide Before;
    var x := r[0];
    assert x in r;
    forall y | y in s && y != x ensures Before(x, y) {
      var j :| 0 <= j < |r| && r[j] == y;
    }
    FirstUnique(x, First(s), s);
    forall y | y in r[1..] ensures y in s - {x} {
      var j :| 0 <= j < |r| - 1 && r[1..][j] == y;
      assert r[j + 1] in r;
      BeforeTotal(r[0], r[j + 1]);
    }
    forall y | y in s - {x} ensures y in r[1..] {
      var j :| 0 <= j < |r| && r[j] == y;
      assert r[1..][j - 1] == y;
    }
  }

  lemma TakeCons(r: seq<Item>, k: nat)
    requires 0 < k <= |r|
    ensures r[..k] == [r[0]] + r[1..][..k - 1]
  {
  }

  /** An ascending list is the listing of its items. */
  lemma {:induction false} AscendingTop(r: seq<Item>, s: set<Item>, k: nat)
    requires Exhausts(r, s) && k <= |r|
    ensures Top(s, k) == r[..k]
    decreases k
  {
    if k != 0 {
      hide Exhausts, Top, First;
      HeadAndTail(r, s);
      TopStep(s, k);
      AscendingTop(r[1..], s - {r[0]}, k - 1);
      TakeCons(r, k);
    }
  }

  lemma {:induction false} TopPrefix(s: set<Item>, j: nat, k: nat)
    requires j <= k
    ensures Top(s, j) <= Top(s, k)
    decreases j
  {
    if j != 0 && s != {} {
      TopPrefix(s - {First(s)}, j - 1, k - 1);
    }
  }

  // ---------------------------------------------------------------- fetching enough

  function Ahead(f: set<Item>, x: Item): set<Item> {
    set y | y in f && Before(y, x)
  }

  /** Every item the fetch left out has at least `k` fetched items ahead of it. */
  ghost predicate Enough(f: set<Item>, all: set<Item>, k: nat) {
    f <= all && forall x :: x in all && x !in f ==> |Ahead(f, x)| >= k
  }

  lemma AheadWithout(f: set<Item>, m: Item, x: Item)
    ensures |Ahead(f, x)| <= |Ahead(f - {m}, x)| + 1
  {
    hide Before;
    if m in Ahead(f, x) {
      assert Ahead(f, x) == Ahead(f - {m}, x) + {m};
    } else {
      assert Ahead(f, x) == Ahead(f - {m}, x);
    }
  }

  lemma NothingAheadOfFirst(f: set<Item>, all: set<Item>)
    requires f <= all && all != {}
    ensures Ahead(f, First(all)) == {}
  {
    forall y | y in f ensures !Before(y, First(all)) {
      BeforeTotal(First(all), y);
    }
  }

  /** Then the first `k` items of the fetch are the first `k` of everything. */
  lemma {:induction false} EnoughTop(f: set<Item>, all: set<Item>, k: nat)
    requires Enough(f, all, k)
    ensures Top(f, k) == Top(all, k)
    decreases k
  {
    hide Before;
    if k != 0 && all != {} {
      var m := First(all);
      NothingAheadOfFirst(f, all);
      assert m in f;
      assert IsFirst(m, f);
      FirstUnique(m, First(f), f);
      forall x | x in all - {m} && x !in f - {m} ensures |Ahead(f - {m}, x)| >= k - 1 {
        AheadWithout(f, m, x);
      }
      EnoughTop(f - {m}, all - {m}, k - 1);
    }
  }

  // ---------------------------------------------------------------- one page

  /** Strictly after the last listed id; an empty one means the partition starts from its first. */
  predicate Past(after: Text, id: Text) {
    after == [] || Less(after, id)
  }

  /** What a partition still has to list. */
  function Left(ids: set<Text>, after: Text, rank: nat): set<Item> {
    set id | id in ids && Past(after, id) :: Item(rank, id)
  }

  /** What all partitions from `rank` on still have to list. */
  function LeftFrom(states: States, token: Token, rank: nat): set<Item>
    requires |token| == |states|
    decreases |states| - rank
  {
    if rank >= |states| then {} else Left(states[rank], token[rank], rank) + LeftFrom(states, token, rank + 1)
  }

  function Remaining(states: States, token: Token): set<Item>
    requires |token| == |states|
  {
    LeftFrom(states, token, 0)
  }

  predicate Pending(states: States, token: Token, x: Item)
    requires |token| == |states|
  {
    x.rank < |states| && x.id in states[x.rank] && Past(token[x.rank], x.id)
  }

  lemma {:induction false} LeftFromPending(states: States, token: Token, rank: nat, x: Item)
    requires |token| == |states|
    ensures x in LeftFrom(states, token, rank) <==> Pending(states, token, x) && rank <= x.rank
    decreases |states| - rank
  {
    if rank < |states| {
      LeftFromPending(states, token, rank + 1, x);
    }
  }

  /** The answers of the partitions from `rank` on, each cut at `limit`, one after the other. */
  function Fetched(states: States, token: Token, limit: nat, rank: nat): seq<Item>
    requires |token| == |states|
    decreases |states| - rank
  {
    if rank >= |states| then []
    else Top(Left(states[rank], token[rank], rank), limit) + Fetched(states, token, limit, rank + 1)
  }

  /** Stable insertion: after every item whose id is not greater. */
  function InsertById(r: seq<Item>, x: Item): seq<Item>
    decreases |r|
  {
    if r == [] || !Less(x.id, r[|r| - 1].id) then r + [x]
    else InsertById(r[..|r| - 1], x) + [r[|r| - 1]]
  }

  /** A stable sort by id. */
  function SortById(r: seq<Item>): seq<Item>
    decreases |r|
  {
    if r == [] then [] else InsertById(SortById(r[..|r| - 1]), r[|r| - 1])
  }

  /** The token after listing these items. */
  function Advance(token: Token, page: seq<Item>): (t: Token)
    ensures |t| == |token|
    decreases |page|
  {
    if page == [] then token
    else
      var before := Advance(token, page[..|page| - 1]);
      var x := page[|page| - 1];
      if x.rank < |token| then before[x.rank := x.id] else before
  }

  datatype Page = Page(items: seq<Item>, token: Option<Token>)

  function ListPage(states: States, token: Token, requested: nat): Page
    requires |token| == |states|
  {
    var size := PageSize(requested);
    var all := SortById(Fetched(states, token, size + 1, 0));
    var items := all[..Min(size, |all|)];
    Page(items, if |all| > size then Some(Advance(token, items)) else None)
  }

  // ---------------------------------------------------------------- a page is the next stretch of the listing

  /** Where fetched items with one id stand: in the order of their partitions. */
  ghost predicate Stable(r: seq<Item>) {
    forall i, j :: 0 <= i < j < |r| && !Less(r[j].id, r[i].id) ==> Before(r[i], r[j])
  }

  lemma {:induction false} InsertKeeps(r: seq<Item>, x: Item)
    requires Ascends(r) && forall y :: y in r && !Less(x.id, y.id) ==> Before(y, x)
    ensures Ascends(InsertById(r, x))
    ensures forall y :: y in InsertById(r, x) <==> y in r || y == x
    ensures |InsertById(r, x)| == |r| + 1
    decreases |r|
  {
    if r != [] {
      var front, last := r[..|r| - 1], r[|r| - 1];
      assert last in r;
      assert r == front + [last];
      if Less(x.id, last.id) {
        InsertKeeps(front, x);
        var t := InsertById(front, x);
        hide Less;
        forall i | 0 <= i < |t| ensures Before(t[i], last) {
          assert t[i] in t;
        }
      } else {
        forall i | 0 <= i < |r| ensures Before(r[i], x) {
          if i < |r| - 1 {
            BeforeTransitive(r[i], last, x);
          }
        }
      }
    }
  }

  lemma {:induction false} SortFacts(r: seq<Item>)
    requires Stable(r)
    ensures Ascends(SortById(r))
    ensures forall y :: y in SortById(r) <==> y in r
    ensures |SortById(r)| == |r|
    decreases |r|
  {
    if r != [] {
      var front, last := r[..|r| - 1], r[|r| - 1];
      SortFacts(front);
      assert r == front + [last];
      var t := SortById(front);
      hide Less;
      forall y | y in t && !Less(last.id, y.id) ensures Before(y, last) {
        var i :| 0 <= i < |front| && front[i] == y;
        assert Before(r[i], r[|r| - 1]);
      }
      InsertKeeps(t, last);
    }
  }

  lemma {:induction false} FetchedFacts(states: States, token: Token, limit: nat, rank: nat)
    requires |token| == |states|
    ensures Stable(Fetched(states, token, limit, rank))
    ensures forall x :: x in Fetched(states, token, limit, rank) <==>
              rank <= x.rank < |states| && x in Top(Left(states[x.rank], token[x.rank], x.rank), limit)
    decreases |states| - rank
  {
    if rank < |states| {
      FetchedFacts(states, token, limit, rank + 1);
      TopFacts(Left(states[rank], token[rank], rank), limit);
      var here := Top(Left(states[rank], token[rank], rank), limit);
      var rest := Fetched(states, token, limit, rank + 1);
      assert forall x :: x in here ==> x.rank == rank;
      hide Top, Left, Fetched;
      StableConcat(here, rest, rank);
    }
  }

  lemma StableConcat(here: seq<Item>, rest: seq<Item>, rank: nat)
    requires Ascends(here) && Stable(rest)
    requires (forall x :: x in here ==> x.rank == rank) && (forall x :: x in rest ==> rank < x.rank)
    ensures Stable(here + rest)
  {
    var r := here + rest;
    hide Less;
    forall i, j | 0 <= i < j < |r| && !Less(r[j].id, r[i].id) ensures Before(r[i], r[j]) {
      if i < |here| <= j {
        assert r[i] in here && r[j] in rest;
        LessTotal(r[i].id, r[j].id);
      } else if |here| <= i {
        assert rest[i - |here|] == r[i] && rest[j - |here|] == r[j];
      }
    }
  }

  function ItemSet(r: seq<Item>): set<Item> {
    set x | x in r
  }

  lemma FetchedLeft(states: States, token: Token, limit: nat, x: Item)
    requires |token| == |states|
    ensures x in Fetched(states, token, limit, 0) ==> x in Remaining(states, token)
  {
    FetchedFacts(states, token, limit, 0);
    LeftFromPending(states, token, 0, x);
    hide Fetched, LeftFrom, Top;
    if x in Fetched(states, token, limit, 0) {
      TopFacts(Left(states[x.rank], token[x.rank], x.rank), limit);
    }
  }

  lemma UnfetchedHasEnough(states: States, token: Token, limit: nat, f: set<Item>, x: Item)
    requires |token| == |states| && f == ItemSet(Fetched(states, token, limit, 0))
    requires x in Remaining(states, token) && x !in f
    ensures |Ahead(f, x)| >= limit
  {
    FetchedFacts(states, token, limit, 0);
    LeftFromPending(states, token, 0, x);
    hide Fetched, LeftFrom, Top, Ahead, Stable;
    var left := Left(states[x.rank], token[x.rank], x.rank);
    TopFacts(left, limit);
    forall y | y in Top(left, limit) ensures y in f {
      assert y in left;
    }
    LeftOut(f, left, x, limit);
  }

  /** One more than a page from every partition is enough for a page, and to know whether another follows. */
  lemma FetchIsEnough(states: States, token: Token, limit: nat)
    requires |token| == |states|
    ensures Enough(ItemSet(Fetched(states, token, limit, 0)), Remaining(states, token), limit)
  {
    hide Fetched, Remaining, Ahead;
    var f, all := ItemSet(Fetched(states, token, limit, 0)), Remaining(states, token);
    forall x ensures x in f ==> x in all {
      FetchedLeft(states, token, limit, x);
    }
    forall x | x in all && x !in f ensures |Ahead(f, x)| >= limit {
      UnfetchedHasEnough(states, token, limit, f, x);
    }
  }

  lemma LeftOut(f: set<Item>, left: set<Item>, x: Item, limit: nat)
    requires x in left && x !in Top(left, limit) && forall y :: y in Top(left, limit) ==> y in f
    ensures |Ahead(f, x)| >= limit
  {
    var top := Top(left, limit);
    TopFacts(left, limit);
    hide Top, Before;
    DistinctBelow(top, left - {x});
    DistinctBelow(top, Ahead(f, x));
  }

  /** A set with no more than `k` items is its own top. */
  lemma TopCap(s: set<Item>, k: nat)
    requires |s| <= k
    ensures Top(s, k) == Listing(s)
  {
    TopPrefix(s, |s|, k);
    TopFacts(s, |s|);
    TopFacts(s, k);
  }

  /** A page holds the next `size` items of the listing; it has a successor exactly when more remain. */
  lemma PageIsTop(states: States, token: Token, requested: nat)
    requires |token| == |states|
    ensures var size := PageSize(requested);
            var page := ListPage(states, token, requested);
            && page.items == Top(Remaining(states, token), size)
            && (page.token.Some? <==> |Remaining(states, token)| > size)
  {
    var size := PageSize(requested);
    var fetched := Fetched(states, token, size + 1, 0);
    FetchedFacts(states, token, size + 1, 0);
    SortFacts(fetched);
    FetchIsEnough(states, token, size + 1);
    hide Fetched, SortById, Remaining, Enough, Top, Before, Stable, Ascends;
    PageOfSets(SortById(fetched), ItemSet(fetched), Remaining(states, token), size);
  }

  lemma PageOfSets(all: seq<Item>, f: set<Item>, left: set<Item>, size: nat)
    requires Exhausts(all, f) && Enough(f, left, size + 1)
    ensures all[..Min(size, |all|)] == Top(left, size)
    ensures |all| > size <==> |left| > size
  {
    EnoughTop(f, left, size + 1);
    SizeOf(all, f);
    AscendingTop(all, f, Min(size, |all|));
    hide Enough, Top, Exhausts;
    TopsAgree(f, left, size);
  }

  lemma TopsAgree(f: set<Item>, left: set<Item>, size: nat)
    requires Top(f, size + 1) == Top(left, size + 1)
    ensures Top(f, Min(size, |f|)) == Top(left, size)
    ensures |f| > size <==> |left| > size
  {
    hide Top;
    var n := Min(size, |f|);
    TopLength(f, size + 1);
    TopLength(left, size + 1);
    TopLength(left, size);
    TopLength(f, n);
    TopPrefix(f, n, size + 1);
    TopPrefix(left, size, size + 1);
    SamePrefix(Top(f, n), Top(left, size), Top(f, size + 1));
  }

  lemma SamePrefix(a: seq<Item>, b: seq<Item>, c: seq<Item>)
    requires a <= c && b <= c && |a| == |b|
    ensures a == b
  {
    assert a == c[..|a|] && b == c[..|b|];
  }

  lemma TopLength(s: set<Item>, k: nat)
    ensures |Top(s, k)| == Min(k, |s|)
  {
    TopFacts(s, k);
  }

  lemma SizeOf(r: seq<Item>, s: set<Item>)
    requires Exhausts(r, s)
    ensures |r| == |s|
  {
    DistinctBelow(r, s);
    CoveredSize(r, s);
  }

  lemma {:induction false} CoveredSize(r: seq<Item>, s: set<Item>)
    requires forall x :: x in s ==> x in r
    ensures |s| <= |r|
    decreases |r|
  {
    if r == [] {
      assert s == {};
    } else {
      CoveredSize(r[1..], s - {r[0]});
    }
  }

  // ---------------------------------------------------------------- the token

  /** Stored ids were validated, so none is empty. */
  ghost predicate Named(states: States) {
    forall i, id :: 0 <= i < |states| && id in states[i] ==> id != []
  }

  lemma LastComesAfter(page: seq<Item>, x: Item)
    requires Ascends(page) && page != []
    ensures Ascends(page[..|page| - 1])
    ensures x in page <==> x in page[..|page| - 1] || x == page[|page| - 1]
    ensures x in page[..|page| - 1] ==> Before(x, page[|page| - 1])
  {
    hide Before;
    assert page == page[..|page| - 1] + [page[|page| - 1]];
  }

  /** The token holds, for each partition, the greatest id the page lists for it. */
  lemma {:induction false} AdvanceFacts(token: Token, page: seq<Item>, i: nat)
    requires Ascends(page) && i < |token|
    ensures (forall x :: x in page ==> x.rank != i) ==> Advance(token, page)[i] == token[i]
    ensures forall x :: x in page && x.rank == i ==>
            !Less(Advance(token, page)[i], x.id) && Item(i, Advance(token, page)[i]) in page
    decreases |page|
  {
    if page != [] {
      var front, last := page[..|page| - 1], page[|page| - 1];
      LastComesAfter(page, last);
      AdvanceFacts(token, front, i);
      assert Advance(token, page)[i] == if last.rank == i then last.id else Advance(token, front)[i];
      hide Advance, Less, Ascends;
      forall x | x in page && x.rank == i
        ensures !Less(Advance(token, page)[i], x.id) && Item(i, Advance(token, page)[i]) in page
      {
        LastComesAfter(page, x);
        LastComesAfter(page, Item(i, Advance(token, front)[i]));
        if last.rank == i {
          LessIrreflexive(last.id);
          if x != last {
            LessAsymmetric(x.id, last.id);
          }
        }
      }
      if forall x :: x in page ==> x.rank != i {
        assert forall x :: x in front ==> x in page;
      }
    }
  }

  /** A partition some of whose ids are on the page: the token moved to the greatest of them. */
  lemma MovedToken(states: States, token: Token, page: seq<Item>, x: Item, z: Item)
    requires |token| == |states| && x.rank < |states| && x.id in states[x.rank] && z.id != []
    requires z in page && z.rank == x.rank && Pending(states, token, z)
    requires x in page ==> !Less(z.id, x.id)
    requires Pending(states, token, x) && x !in page ==> Before(z, x)
    ensures Past(z.id, x.id) <==> Past(token[x.rank], x.id) && x !in page
  {
    if token[x.rank] != [] && Less(z.id, x.id) {
      LessTransitive(token[x.rank], z.id, x.id);
    }
  }

  /** Listing a page leaves exactly what it did not list. */
  lemma AdvancePending(states: States, token: Token, page: seq<Item>, k: nat, x: Item)
    requires |token| == |states| && Named(states) && page == Top(Remaining(states, token), k)
    ensures Pending(states, Advance(token, page), x) <==> Pending(states, token, x) && x !in page
  {
    TopFacts(Remaining(states, token), k);
    LeftFromPending(states, token, 0, x);
    if x.rank < |states| && x.id in states[x.rank] {
      AdvanceFacts(token, page, x.rank);
      hide Top, LeftFrom, Advance, Less, Before, Ascends;
      var z := Item(x.rank, Advance(token, page)[x.rank]);
      if z in page {
        LeftFromPending(states, token, 0, z);
        MovedToken(states, token, page, x, z);
      } else {
        assert forall y :: y in page ==> y.rank != x.rank;
      }
    }
  }

  lemma AdvanceRemaining(states: States, token: Token, page: seq<Item>, k: nat)
    requires |token| == |states| && Named(states) && page == Top(Remaining(states, token), k)
    ensures Remaining(states, Advance(token, page)) == Remaining(states, token) - ItemSet(page)
  {
    forall x ensures x in Remaining(states, Advance(token, page)) <==> x in Remaining(states, token) - ItemSet(page) {
      AdvancePending(states, token, page, k, x);
      LeftFromPending(states, Advance(token, page), 0, x);
      LeftFromPending(states, token, 0, x);
      hide Pending, LeftFrom, Advance, Top;
    }
  }

  lemma TopStep(s: set<Item>, k: nat)
    requires k > 0 && s != {}
    ensures Top(s, k) == [First(s)] + Top(s - {First(s)}, k - 1)
    ensures First(s) in s
  {
  }

  lemma {:induction false} TopSplit(s: set<Item>, k: nat, n: nat)
    requires k <= n
    ensures Top(s, n) == Top(s, k) + Top(s - ItemSet(Top(s, k)), n - k)
    decreases k
  {
    if k == 0 || s == {} {
      assert s - ItemSet(Top(s, k)) == s;
    } else {
      var x := First(s);
      var rest := s - {x};
      TopSplit(rest, k - 1, n - 1);
      TopStep(s, k);
      TopStep(s, n);
      hide Top, First;
      assert rest - ItemSet(Top(rest, k - 1)) == s - ItemSet(Top(s, k));
    }
  }

  /** The rest of a listing is the listing of the rest. */
  lemma ListingSplit(s: set<Item>, k: nat)
    requires k <= |s|
    ensures Listing(s) == Top(s, k) + Listing(s - ItemSet(Top(s, k)))
  {
    TopFacts(s, k);
    SizeLeft(s, Top(s, k));
    hide Top, Ascends, ItemSet;
    TopSplit(s, k, |s|);
  }

  lemma SizeLeft(s: set<Item>, r: seq<Item>)
    requires Ascends(r) && forall x :: x in r ==> x in s
    ensures |s - ItemSet(r)| == |s| - |r|
  {
    SizeOf(r, ItemSet(r));
    hide Ascends;
    assert s * ItemSet(r) == ItemSet(r);
  }

  // ---------------------------------------------------------------- all pages

  /** Follows page tokens until there is none; each request may ask for its own page size. */
  function AllPages(states: States, token: Token, requested: nat -> nat, call: nat): seq<Item>
    requires |token| == |states| && Named(states)
    decreases |Remaining(states, token)|
  {
    PageShrinks(states, token, requested(call));
    var page := ListPage(states, token, requested(call));
    if page.token.None? then page.items else page.items + AllPages(states, page.token.value, requested, call + 1)
  }

  /** Every page with a successor lists something, so following tokens ends. */
  lemma PageShrinks(states: States, token: Token, requested: nat)
    requires |token| == |states| && Named(states)
    ensures var page := ListPage(states, token, requested);
            page.token.Some? ==>
              && |page.token.value| == |states|
              && Remaining(states, page.token.value) == Remaining(states, token) - ItemSet(page.items)
              && |Remaining(states, page.token.value)| < |Remaining(states, token)|
  {
    PageIsTop(states, token, requested);
    var page := ListPage(states, token, requested);
    var left := Remaining(states, token);
    if page.token.Some? {
      AdvanceRemaining(states, token, page.items, PageSize(requested));
      TopFacts(left, PageSize(requested));
      hide Remaining, Top, Advance, Fetched, SortById;
      assert page.items[0] in page.items;
      Shrinks(left, left - ItemSet(page.items), page.items[0]);
    }
  }

  lemma Shrinks(s: set<Item>, t: set<Item>, x: Item)
    requires t <= s && x in s && x !in t
    ensures |t| < |s|
  {
    Smaller(t, s - {x});
  }

  lemma {:induction false} Smaller(t: set<Item>, s: set<Item>)
    requires t <= s
    ensures |t| <= |s|
    decreases t
  {
    if t != {} {
      var x :| x in t;
      Smaller(t - {x}, s - {x});
    }
  }

  /** Following the page tokens to the end lists everything that remains: each item once, in ascending order. */
  lemma {:induction false} PagesAreListing(states: States, token: Token, requested: nat -> nat, call: nat)
    requires |token| == |states| && Named(states)
    ensures AllPages(states, token, requested, call) == Listing(Remaining(states, token))
    decreases |Remaining(states, token)|
  {
    PageIsTop(states, token, requested(call));
    PageShrinks(states, token, requested(call));
    hide ListPage, Remaining, Top, First;
    var page := ListPage(states, token, requested(call));
    var left := Remaining(states, token);
    if page.token.Some? {
      PagesAreListing(states, page.token.value, requested, call + 1);
      ListingSplit(left, PageSize(requested(call)));
    } else {
      TopCap(left, PageSize(requested(call)));
    }
  }

  function NewToken(count: nat): (t: Token)
    ensures |t| == count
  {
    seq(count, _ => [])
  }

  /** From an empty token, the pages enumerate every state of every partition exactly once, in order. */
  lemma PaginationIsEnumeration(states: States, requested: nat -> nat)
    requires Named(states)
    ensures var r := AllPages(states, NewToken(|states|), requested, 0);
            && Ascends(r)
            && (forall x :: x in r <==> x.rank < |states| && x.id in states[x.rank])
  {
    var token := NewToken(|states|);
    PagesAreListing(states, token, requested, 0);
    hide AllPages, Listing, LeftFrom, Before;
    ListingFacts(Remaining(states, token));
    forall x ensures x in Remaining(states, token) <==> x.rank < |states| && x.id in states[x.rank] {
      LeftFromPending(states, token, 0, x);
    }
  }
}
