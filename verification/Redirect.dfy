/** The budgeted retry plan that chases the leader of a shard, and the call loop that uses it. */
module Redirect {
  import opened Base

  datatype Kind = Redirected | Normal

  datatype Target = Target(address: Text, kind: Kind)

  datatype Plan = Plan(budget: nat, tail: nat, queue: seq<Target>, tried: set<Text>, backoff: Option<Text>) {
    /** How many targets the plan may still yield. */
    function Room(): nat {
      budget + tail
    }
  }

  function NewPlan(endpoints: seq<Text>): Plan {
    Plan(2 * |endpoints| + 2, 2 * |endpoints| + 2,
         seq(|endpoints|, i requires 0 <= i < |endpoints| => Target(endpoints[i], Normal)), {}, None)
  }

  function RedirectTo(p: Plan, address: Text): Plan {
    p.(tried := p.tried - {address}, queue := [Target(address, Redirected)] + p.queue)
  }

  function RetryLater(p: Plan, address: Text): Plan {
    p.(tried := p.tried - {address}, backoff := Some(address), queue := p.queue + [Target(address, Normal)])
  }

  datatype Popped = Popped(plan: Plan, target: Option<Text>)

  /** Takes targets off the queue until one is untried and payable. */
  function Pop(p: Plan): Popped
    decreases |p.queue|
  {
    if p.queue == [] then Popped(p, None)
    else
      var item := p.queue[0];
      var q := p.(queue := p.queue[1..], tried := p.tried + {item.address});
      if item.address in p.tried then Pop(p.(queue := p.queue[1..]))
      else if p.budget > 0 then Popped(q.(budget := p.budget - 1), Some(item.address))
      else if item.kind.Redirected? && p.tail > 0 then Popped(q.(tail := p.tail - 1), Some(item.address))
      else Pop(q)
  }

  // ---------------------------------------------------------------- bounded, and the leader comes first

  /** A yield costs exactly one unit of room; running dry costs nothing. */
  lemma {:induction false} PopSpends(p: Plan)
    ensures Pop(p).target.Some? ==> p.Room() > 0 && Pop(p).plan.Room() == p.Room() - 1
    ensures Pop(p).target.None? ==> Pop(p).plan.Room() == p.Room() && Pop(p).plan.queue == []
    decreases |p.queue|
  {
    if p.queue != [] {
      var item := p.queue[0];
      if item.address in p.tried {
        PopSpends(p.(queue := p.queue[1..]));
      } else if p.budget == 0 && !(item.kind.Redirected? && p.tail > 0) {
        PopSpends(p.(queue := p.queue[1..], tried := p.tried + {item.address}));
      }
    }
  }

  /** Taking targets leaves the one to back off for. */
  lemma {:induction false} PopKeepsBackoff(p: Plan)
    ensures Pop(p).plan.backoff == p.backoff
    decreases |p.queue|
  {
    if p.queue != [] {
      PopKeepsBackoff(p.(queue := p.queue[1..]));
      PopKeepsBackoff(p.(queue := p.queue[1..], tried := p.tried + {p.queue[0].address}));
    }
  }

  datatype Step = Ask | Redirecting(address: Text) | Requeue(address: Text)

  function After(p: Plan, step: Step): Plan {
    match step
    case Ask => Pop(p).plan
    case Redirecting(address) => RedirectTo(p, address)
    case Requeue(address) => RetryLater(p, address)
  }

  /** How many targets the plan yields along a run of redirects, requeues and requests for the next target. */
  function Yields(p: Plan, steps: seq<Step>): nat
    decreases |steps|
  {
    if steps == [] then 0
    else (if steps[0].Ask? && Pop(p).target.Some? then 1 else 0) + Yields(After(p, steps[0]), steps[1..])
  }

  lemma {:induction false} YieldsBounded(p: Plan, steps: seq<Step>)
    ensures Yields(p, steps) <= p.Room()
    decreases |steps|
  {
    if steps != [] {
      PopSpends(p);
      hide Pop;
      YieldsBounded(After(p, steps[0]), steps[1..]);
    }
  }

  /** Bounded retry: with `n` endpoints no run, however it redirects and requeues, yields more than `4n + 4` targets. */
  lemma BoundedRetry(endpoints: seq<Text>, steps: seq<Step>)
    ensures Yields(NewPlan(endpoints), steps) <= 4 * |endpoints| + 4
  {
    YieldsBounded(NewPlan(endpoints), steps);
  }

  /** A target just redirected to is the next one yielded, exactly while there is room for any. */
  lemma RedirectIsNext(p: Plan, address: Text)
    ensures Pop(RedirectTo(p, address)).target == Some(address) <==> p.Room() > 0
    ensures p.Room() == 0 ==> Pop(RedirectTo(p, address)).target.None?
  {
    PopSpends(RedirectTo(p, address));
  }

  /** With budget left, the next target is the first untried one in the queue; those before it were duplicates. */
  lemma {:induction false} PopIsFirstUntried(p: Plan)
    requires p.budget > 0
    ensures Pop(p).target.None? ==> forall i :: 0 <= i < |p.queue| ==> p.queue[i].address in p.tried
    ensures Pop(p).target.Some? ==>
              exists i :: 0 <= i < |p.queue| && p.queue[i].address == Pop(p).target.value && p.queue[i].address !in p.tried &&
                          Pop(p).plan.queue == p.queue[i + 1..] && forall j :: 0 <= j < i ==> p.queue[j].address in p.tried
    decreases |p.queue|
  {
    if p.queue != [] {
      if p.queue[0].address in p.tried {
        var rest := p.(queue := p.queue[1..]);
        PopIsFirstUntried(rest);
        if Pop(p).target.Some? {
          var i :| 0 <= i < |rest.queue| && rest.queue[i].address == Pop(p).target.value && rest.queue[i].address !in p.tried &&
                   Pop(p).plan.queue == rest.queue[i + 1..] && forall j :: 0 <= j < i ==> rest.queue[j].address in p.tried;
          assert rest.queue[i + 1..] == p.queue[i + 2..];
          assert forall j :: 0 < j < i + 1 ==> p.queue[j] == rest.queue[j - 1];
          assert p.queue[i + 1].address == Pop(p).target.value;
        }
      } else {
        assert p.queue[0].address == Pop(p).target.value;
      }
    }
  }

  /** The targets the plan yields when nothing more is queued. */
  function Drain(p: Plan): seq<Text>
    decreases p.Room()
  {
    PopSpends(p);
    var popped := Pop(p);
    if popped.target.None? then [] else [popped.target.value] + Drain(popped.plan)
  }

  /** An untried queued target is reached as long as the budget covers the queue ahead of it. */
  lemma {:induction false} QueuedIsReached(p: Plan, k: nat)
    requires k < |p.queue| && p.queue[k].address !in p.tried && k < p.budget
    ensures p.queue[k].address in Drain(p)
    decreases p.Room(), |p.queue|
  {
    PopSpends(p);
    var item := p.queue[0];
    if item.address in p.tried {
      var rest := p.(queue := p.queue[1..]);
      QueuedIsReached(rest, k - 1);
      PopSpends(rest);
      assert Drain(p) == Drain(rest);
    } else if item.address != p.queue[k].address {
      QueuedIsReached(Pop(p).plan, k - 1);
    }
  }

  /** A requeued target is tried again if the budget covers the queue it was put behind. */
  lemma RequeuedIsRetried(p: Plan, address: Text)
    requires |p.queue| < p.budget
    ensures address in Drain(RetryLater(p, address))
  {
    var q := RetryLater(p, address);
    assert q.queue[|p.queue|].address == address;
    QueuedIsReached(q, |p.queue|);
  }

  // ---------------------------------------------------------------- the plan as an object

  class LeaderRetryPlan {
    var budget: nat
    var tail: nat
    var queue: seq<Target>
    var tried: set<Text>
    var backoff: Option<Text>

    constructor (endpoints: seq<Text>)
      ensures View() == NewPlan(endpoints)
    {
      budget, tail := 2 * |endpoints| + 2, 2 * |endpoints| + 2;
      queue := seq(|endpoints|, i requires 0 <= i < |endpoints| => Target(endpoints[i], Normal));
      tried, backoff := {}, None;
    }

    ghost function View(): Plan
      reads this
    {
      Plan(budget, tail, queue, tried, backoff)
    }

    method Redirect(address: Text)
      modifies this
      ensures View() == RedirectTo(old(View()), address)
    {
      tried := tried - {address};
      queue := [Target(address, Redirected)] + queue;
    }

    method Retry(address: Text)
      modifies this
      ensures View() == RetryLater(old(View()), address)
    {
      tried := tried - {address};
      backoff := Some(address);
      queue := queue + [Target(address, Normal)];
    }

    /** Whether the target just taken is the one put back last. */
    method NeedsBackoff(target: Text) returns (pause: bool)
      ensures pause <==> backoff == Some(target)
    {
      pause := backoff == Some(target);
    }

    method Next() returns (target: Option<Text>)
      modifies this
      ensures Popped(View(), target) == Pop(old(View()))
    {
      while queue != []
        invariant Pop(View()) == Pop(old(View()))
        decreases |queue|
      {
        var item := queue[0];
        queue := queue[1..];
        if item.address in tried {
          continue;
        }
        tried := tried + {item.address};
        if budget == 0 {
          if item.kind.Redirected? && tail > 0 {
            tail := tail - 1;
            return Some(item.address);
          }
          continue;
        }
        budget := budget - 1;
        return Some(item.address);
      }
      return None;
    }
  }

  // ---------------------------------------------------------------- the call loop

  /** What one attempt at a target comes to. */
  datatype Outcome = Answered | Unreachable | NotLeaderAt(leader: Text) | Transient(unavailable: bool) | Refused

  datatype Ended = Done | Rejected | NotLeader(address: Option<Text>) | AllFailed(failed: seq<Text>)

  type Attempts = (nat, Text) -> Outcome

  /** Whether another target may be asked after this outcome. */
  predicate GoesOn(o: Outcome, idempotent: bool) {
    o.Unreachable? || o.NotLeaderAt? || (o.Transient? && idempotent)
  }

  ghost predicate AllGoOn(targets: seq<Text>, idempotent: bool, attempt: Attempts) {
    forall i :: 0 <= i < |targets| ==> GoesOn(attempt(i, targets[i]), idempotent)
  }

  /** Whoever is named leader is asked next. */
  ghost predicate Chases(targets: seq<Text>, attempt: Attempts) {
    forall i :: 0 <= i < |targets| - 1 && attempt(i, targets[i]).NotLeaderAt? ==>
        targets[i + 1] == attempt(i, targets[i]).leader
  }

  /** The leader the last attempt named, if it named one. */
  function Named(targets: seq<Text>, attempt: Attempts): Option<Text> {
    if targets == [] then None
    else
      var o := attempt(|targets| - 1, targets[|targets| - 1]);
      if o.NotLeaderAt? then Some(o.leader) else None
  }

  /** The leader named last, by any attempt. */
  function LastLeader(targets: seq<Text>, attempt: Attempts): Option<Text>
    decreases |targets|
  {
    if targets == [] then None
    else if Named(targets, attempt).Some? then Named(targets, attempt)
    else LastLeader(targets[..|targets| - 1], attempt)
  }

  /** Attempts that are reported when everything failed: lost connections and retryable errors, not elections. */
  predicate Reported(o: Outcome) {
    o.Unreachable? || (o.Transient? && !o.unavailable)
  }

  function Failures(targets: seq<Text>, attempt: Attempts): seq<Text>
    decreases |targets|
  {
    if targets == [] then []
    else
      var last := |targets| - 1;
      Failures(targets[..last], attempt) + (if Reported(attempt(last, targets[last])) then [targets[last]] else [])
  }

  /** The target put back last, which the next attempt at it must wait for. */
  function Requeued(targets: seq<Text>, attempt: Attempts): Option<Text>
    decreases |targets|
  {
    if targets == [] then None
    else
      var last := |targets| - 1;
      var o := attempt(last, targets[last]);
      if o.Unreachable? || o.Transient? then Some(targets[last]) else Requeued(targets[..last], attempt)
  }

  /** An attempt is delayed exactly when its target is the one put back last. */
  ghost predicate Paused(targets: seq<Text>, pauses: seq<bool>, attempt: Attempts) {
    |pauses| == |targets| && forall i :: 0 <= i < |targets| ==> (pauses[i] <==>
        Requeued(targets[..i], attempt) == Some(targets[i]))
  }

  lemma FailOne(targets: seq<Text>, attempt: Attempts, t: Text)
    ensures Failures(targets + [t], attempt) ==
            if Reported(attempt(|targets|, t)) then Failures(targets, attempt) + [t] else Failures(targets, attempt)
  {
    FrontOf(targets, t);
    hide Reported;
    assert Failures(targets, attempt) + [] == Failures(targets, attempt);
  }

  lemma RequeueOne(targets: seq<Text>, attempt: Attempts, t: Text)
    ensures Requeued(targets + [t], attempt) ==
            if attempt(|targets|, t).Unreachable? || attempt(|targets|,
                                                             t).Transient? then Some(t) else Requeued(targets, attempt)
  {
    FrontOf(targets, t);
  }

  lemma PauseOne(targets: seq<Text>, pauses: seq<bool>, attempt: Attempts, t: Text, pause: bool)
    requires Paused(targets, pauses, attempt) && (pause <==> Requeued(targets, attempt) == Some(t))
    ensures Paused(targets + [t], pauses + [pause], attempt)
  {
    hide Requeued;
    var all, slept := targets + [t], pauses + [pause];
    forall i | 0 <= i < |all| ensures slept[i] <==> Requeued(all[..i], attempt) == Some(all[i]) {
      assert all[..i] == targets[..i];
      assert targets[..|targets|] == targets;
    }
  }

  /** What the loop reports when it has run out of targets. */
  function EndOf(lastRedirect: Option<Text>, errors: seq<Text>): Ended {
    if lastRedirect.Some? then NotLeader(lastRedirect) else if errors != [] then AllFailed(errors) else NotLeader(None)
  }

  function RanDry(targets: seq<Text>, attempt: Attempts): Ended {
    EndOf(LastLeader(targets, attempt), Failures(targets, attempt))
  }

  /** A loop that has asked these targets and is still going. */
  ghost predicate Going(targets: seq<Text>, idempotent: bool, attempt: Attempts) {
    AllGoOn(targets, idempotent, attempt) && Chases(targets, attempt)
  }

  /** What a finished loop leaves behind: only its last attempt may have ended it. */
  ghost predicate Trail(targets: seq<Text>, idempotent: bool, attempt: Attempts) {
    (targets != [] ==> AllGoOn(targets[..|targets| - 1], idempotent, attempt)) && Chases(targets, attempt)
  }

  lemma FrontOf(targets: seq<Text>, t: Text)
    ensures (targets + [t])[..|targets|] == targets && (targets + [t])[|targets|] == t
  {
  }

  lemma ChaseOne(targets: seq<Text>, attempt: Attempts, t: Text)
    requires Chases(targets, attempt) && (Named(targets, attempt).Some? ==> t == Named(targets, attempt).value)
    ensures Chases(targets + [t], attempt)
  {
    var all := targets + [t];
    forall i | 0 <= i < |all| - 1 && attempt(i, all[i]).NotLeaderAt? ensures all[i + 1] == attempt(i, all[i]).leader {
      assert all[i] == targets[i];
    }
  }

  lemma GoOnOne(targets: seq<Text>, idempotent: bool, attempt: Attempts, t: Text)
    requires AllGoOn(targets, idempotent, attempt) && GoesOn(attempt(|targets|, t), idempotent)
    ensures AllGoOn(targets + [t], idempotent, attempt)
  {
  }

  lemma NameOne(targets: seq<Text>, attempt: Attempts, t: Text)
    ensures Named(targets + [t], attempt) == if attempt(|targets|,
                                                        t).NotLeaderAt? then Some(attempt(|targets|,
                                                        t).leader) else None
    ensures LastLeader(targets + [t], attempt) ==
            if attempt(|targets|, t).NotLeaderAt? then Some(attempt(|targets|, t).leader)
              else LastLeader(targets, attempt)
  {
    FrontOf(targets, t);
  }

  lemma AskOne(targets: seq<Text>, idempotent: bool, attempt: Attempts, t: Text)
    requires Going(targets, idempotent, attempt) && (Named(targets, attempt).Some? ==>
            t == Named(targets, attempt).value)
    ensures Trail(targets + [t], idempotent, attempt)
    ensures GoesOn(attempt(|targets|, t), idempotent) ==> Going(targets + [t], idempotent, attempt)
  {
    hide AllGoOn, Chases, Named;
    FrontOf(targets, t);
    ChaseOne(targets, attempt, t);
    if GoesOn(attempt(|targets|, t), idempotent) {
      GoOnOne(targets, idempotent, attempt, t);
    }
  }

  lemma GoingTrail(targets: seq<Text>, idempotent: bool, attempt: Attempts)
    requires Going(targets, idempotent, attempt)
    ensures Trail(targets, idempotent, attempt)
    ensures targets != [] ==> GoesOn(attempt(|targets| - 1, targets[|targets| - 1]), idempotent)
  {
  }

  /** The next target of a plan that was just redirected is the leader it was redirected to. */
  lemma NextTarget(before: Plan, from: Plan, named: Option<Text>)
    requires named.Some? ==> before == RedirectTo(from, named.value)
    ensures Pop(before).target.Some? ==> before.Room() > 0 && Pop(before).plan.Room() == before.Room() - 1
    ensures Pop(before).target.Some? && named.Some? ==> Pop(before).target == named
  {
    hide Pop;
    PopSpends(before);
    if named.Some? {
      RedirectIsNext(from, named.value);
    }
  }

  lemma PlanMoves(p: Plan, address: Text)
    ensures RedirectTo(p, address).Room() == p.Room() && RedirectTo(p, address).backoff == p.backoff
    ensures RetryLater(p, address).Room() == p.Room() && RetryLater(p, address).backoff == Some(address)
  {
  }

  /** The last attempt decides how the loop ends: its answer, its refusal, or the plan running dry after it. */
  ghost predicate EndsWith(targets: seq<Text>, idempotent: bool, attempt: Attempts, ended: Ended) {
    if targets == [] || GoesOn(attempt(|targets| - 1, targets[|targets| - 1]),
                               idempotent) then ended == RanDry(targets, attempt)
    else ended == if attempt(|targets| - 1, targets[|targets| - 1]).Answered? then Done else Rejected
  }

  /** What the loop's variables hold between attempts. */
  ghost predicate Standing(targets: seq<Text>, pauses: seq<bool>, idempotent: bool, attempt: Attempts,
                           lastRedirect: Option<Text>, errors: seq<Text>, backoff: Option<Text>)
  {
    && Going(targets, idempotent, attempt) && Paused(targets, pauses, attempt)
    && lastRedirect == LastLeader(targets, attempt)
    && errors == Failures(targets, attempt)
    && backoff == Requeued(targets, attempt)
  }

  lemma StandsFirst(idempotent: bool, attempt: Attempts)
    ensures Standing([], [], idempotent, attempt, None, [], None) && Named([], attempt).None?
  {
  }

  /** One more attempt. */
  lemma StandsNext(targets: seq<Text>, pauses: seq<bool>, idempotent: bool, attempt: Attempts,
                   lastRedirect: Option<Text>, errors: seq<Text>, backoff: Option<Text>, t: Text)
    requires Standing(targets, pauses, idempotent, attempt, lastRedirect, errors, backoff)
    requires Named(targets, attempt).Some? ==> t == Named(targets, attempt).value
    ensures var all, slept, o := targets + [t], pauses + [backoff == Some(t)], attempt(|targets|, t);
            && Trail(all, idempotent, attempt) && Paused(all, slept, attempt)
            && Named(all, attempt) == (if o.NotLeaderAt? then Some(o.leader) else None)
            && (!GoesOn(o, idempotent) ==> EndsWith(all, idempotent, attempt, if o.Answered? then Done else Rejected))
            && (GoesOn(o, idempotent) ==>
                  Standing(all, slept, idempotent, attempt, if o.NotLeaderAt? then Some(o.leader) else lastRedirect,
                           if Reported(o) then errors + [t] else errors, if o.NotLeaderAt? then backoff else Some(t)))
  {
    hide Going, Trail, Paused, Named, LastLeader, Failures, Requeued, RanDry;
    FrontOf(targets, t);
    PauseOne(targets, pauses, attempt, t, backoff == Some(t));
    AskOne(targets, idempotent, attempt, t);
    NameOne(targets, attempt, t);
    FailOne(targets, attempt, t);
    RequeueOne(targets, attempt, t);
  }

  /** No target left. */
  lemma StandsLast(targets: seq<Text>, pauses: seq<bool>, idempotent: bool, attempt: Attempts,
                   lastRedirect: Option<Text>, errors: seq<Text>, backoff: Option<Text>)
    requires Standing(targets, pauses, idempotent, attempt, lastRedirect, errors, backoff)
    ensures Trail(targets, idempotent, attempt) && Paused(targets, pauses, attempt)
    ensures EndsWith(targets, idempotent, attempt,
                     EndOf(lastRedirect, errors))
  {
    hide Going, Trail, Paused, LastLeader, Failures, Requeued;
    GoingTrail(targets, idempotent, attempt);
  }

  // ---------------------------------------------------------------- when the loop gives up

  /** How many attempts named a leader. */
  function Redirects(targets: seq<Text>, attempt: Attempts): nat
    decreases |targets|
  {
    if targets == [] then 0
    else
      var last := |targets| - 1;
      Redirects(targets[..last], attempt) + (if attempt(last, targets[last]).NotLeaderAt? then 1 else 0)
  }

  lemma RedirectsOne(targets: seq<Text>, attempt: Attempts, t: Text)
    ensures Redirects(targets + [t], attempt) ==
            Redirects(targets, attempt) + (if attempt(|targets|, t).NotLeaderAt? then 1 else 0)
  {
    FrontOf(targets, t);
  }

  /** Something in the queue is untried. */
  ghost predicate HasNext(p: Plan) {
    exists i :: 0 <= i < |p.queue| && p.queue[i].address !in p.tried
  }

  /** The budget comes first: the tail is whole as long as any of it is left. */
  ghost predicate BudgetFirst(p: Plan, n: nat) {
    p.tail <= 2 * n + 2 && (p.budget > 0 ==> p.tail == 2 * n + 2)
  }

  ghost predicate AskedUpTo(endpoints: seq<Text>, k: nat, targets: seq<Text>) {
    k <= |endpoints| && forall j :: 0 <= j < k ==> endpoints[j] in targets
  }

  /**
   * The endpoints from `k` on still stand in the queue in order, behind `lead` redirected targets; those before have
   * been asked. Every attempt so far took an endpoint or was paid for by a redirect.
   */
  ghost predicate Lined(p: Plan, endpoints: seq<Text>, k: nat, lead: nat, targets: seq<Text>, redirects: nat) {
    && AskedUpTo(endpoints, k, targets)
    && lead + (|endpoints| - k) <= |p.queue|
    && (forall j :: k <= j < |endpoints| ==> p.queue[lead + j - k].address == endpoints[j])
    && (forall a :: a in p.tried ==> a in targets)
    && (k < |endpoints| ==> |targets| + lead <= k + redirects)
  }

  /** All endpoints have been asked, or redirects have used up what was left of the budget. */
  ghost predicate Spent(endpoints: seq<Text>, k: nat, targets: seq<Text>, attempt: Attempts) {
    && AskedUpTo(endpoints, k, targets) && 2 * |endpoints| + 2 <= |targets|
    && (k == |endpoints| ||
        2 * |endpoints| + 2 <= k + Redirects(targets[..2 * |endpoints| + 2], attempt))
  }

  ghost predicate Covering(p: Plan, endpoints: seq<Text>, k: nat, lead: nat, targets: seq<Text>, attempt: Attempts) {
    && BudgetFirst(p, |endpoints|) && p.Room() + |targets| == 4 * |endpoints| + 4
    && (endpoints != [] ==> HasNext(p))
    && if p.budget > 0 then Lined(p, endpoints, k, lead, targets, Redirects(targets, attempt))
       else Spent(endpoints, k, targets, attempt)
  }

  lemma CoversFirst(endpoints: seq<Text>, attempt: Attempts)
    ensures Covering(NewPlan(endpoints), endpoints, 0, 0, [], attempt)
  {
    var p := NewPlan(endpoints);
    if endpoints != [] { assert p.queue[0].address !in p.tried; }
  }

  /** Where the next target stood, when there is budget for it. */
  lemma {:induction false} PopAt(p: Plan) returns (i: nat)
    requires p.budget > 0 && Pop(p).target.Some?
    ensures i < |p.queue| && p.queue[i].address == Pop(p).target.value && Pop(p).plan.queue == p.queue[i + 1..]
    ensures forall j :: 0 <= j < i ==> p.queue[j].address in p.tried
    ensures Pop(p).plan.tried == p.tried + {Pop(p).target.value} && Pop(p).plan.budget == p.budget - 1
    ensures Pop(p).plan.tail == p.tail
    decreases |p.queue|
  {
    if p.queue[0].address in p.tried {
      var rest := p.(queue := p.queue[1..]);
      var k := PopAt(rest);
      i := k + 1;
      assert rest.queue[k + 1..] == p.queue[i + 1..];
      forall j | 0 <= j < i ensures p.queue[j].address in p.tried {
        if j > 0 { assert p.queue[j] == rest.queue[j - 1]; }
      }
    } else {
      i := 0;
    }
  }

  lemma {:induction false} PopTail(p: Plan)
    requires p.budget == 0
    ensures Pop(p).plan.budget == 0 && Pop(p).plan.tail <= p.tail
    decreases |p.queue|
  {
    if p.queue != [] {
      PopTail(p.(queue := p.queue[1..]));
      PopTail(p.(queue := p.queue[1..], tried := p.tried + {p.queue[0].address}));
    }
  }

  /** With budget left and something untried there is a next target. */
  lemma NotDry(p: Plan)
    requires p.budget > 0 && HasNext(p)
    ensures Pop(p).target.Some?
  {
    PopIsFirstUntried(p);
    var i :| 0 <= i < |p.queue| && p.queue[i].address !in p.tried;
  }

  /** Taking the next target off a lined-up queue. */
  lemma LinedPop(p: Plan, endpoints: seq<Text>, k: nat, lead: nat, targets: seq<Text>, redirects: nat)
      returns (k': nat, lead': nat)
    requires p.budget > 0 && Pop(p).target.Some? && Lined(p, endpoints, k, lead, targets, redirects)
    ensures Lined(Pop(p).plan, endpoints, k', lead', targets + [Pop(p).target.value], redirects)
  {
    var i := PopAt(p);
    var q, n, all := Pop(p).plan, |endpoints|, targets + [Pop(p).target.value];
    hide Pop;
    if i + 1 <= lead {
      k', lead' := k, lead - (i + 1);
    } else {
      k', lead' := Min(n, k + (i + 1 - lead)), 0;
    }
    forall j | 0 <= j < k' ensures endpoints[j] in all {
      if j >= k {
        assert p.queue[lead + j - k].address == endpoints[j];
        assert all[|targets|] == p.queue[i].address;
      }
    }
    forall j | k' <= j < n ensures q.queue[lead' + j - k'].address == endpoints[j] {
      assert p.queue[lead + j - k].address == endpoints[j];
    }
    assert all[|targets|] == Pop(p).target.value;
    forall a | a in q.tried ensures a in all {
    }
  }

  lemma LinedRedirect(p: Plan, endpoints: seq<Text>, k: nat, lead: nat, targets: seq<Text>, redirects: nat, a: Text)
    requires Lined(p, endpoints, k, lead, targets, redirects)
    ensures Lined(RedirectTo(p, a), endpoints, k, lead + 1, targets, redirects + 1)
  {
    forall j | k <= j < |endpoints| ensures RedirectTo(p, a).queue[lead + 1 + j - k].address == endpoints[j] {
      assert RedirectTo(p, a).queue[lead + 1 + j - k] == p.queue[lead + j - k];
    }
  }

  lemma LinedRetry(p: Plan, endpoints: seq<Text>, k: nat, lead: nat, targets: seq<Text>, redirects: nat, a: Text)
    requires Lined(p, endpoints, k, lead, targets, redirects)
    ensures Lined(RetryLater(p, a), endpoints, k, lead, targets, redirects)
  {
  }

  /** What the plan does with an attempt that does not end the loop. */
  function Takes(p: Plan, t: Text, o: Outcome): Plan {
    if o.NotLeaderAt? then RedirectTo(p, o.leader) else RetryLater(p, t)
  }

  lemma TakesNext(p: Plan, t: Text, o: Outcome)
    ensures HasNext(Takes(p, t, o)) && Takes(p, t, o).budget == p.budget && Takes(p, t, o).tail == p.tail
  {
    var q := Takes(p, t, o);
    if o.NotLeaderAt? {
      assert q.queue[0].address !in q.tried;
    } else {
      assert q.queue[|p.queue|].address !in q.tried;
    }
  }

  lemma SpentStays(endpoints: seq<Text>, k: nat, targets: seq<Text>, attempt: Attempts, t: Text)
    requires Spent(endpoints, k, targets, attempt)
    ensures Spent(endpoints, k, targets + [t], attempt)
  {
    var n := 2 * |endpoints| + 2;
    assert (targets + [t])[..n] == targets[..n];
  }

  lemma LinedSpent(p: Plan, endpoints: seq<Text>, k: nat, lead: nat, targets: seq<Text>, attempt: Attempts)
    requires Lined(p, endpoints, k, lead, targets, Redirects(targets, attempt)) && |targets| == 2 * |endpoints| + 2
    ensures Spent(endpoints, k, targets, attempt)
  {
    assert targets[..|targets|] == targets;
  }

  /** One more attempt, and the plan is still covering. */
  lemma CoversNext(p: Plan, endpoints: seq<Text>, k: nat, lead: nat, targets: seq<Text>, attempt: Attempts)
      returns (k': nat, lead': nat)
    requires Covering(p, endpoints, k, lead, targets, attempt) && Pop(p).target.Some?
    ensures var t := Pop(p).target.value;
            Covering(Takes(Pop(p).plan, t, attempt(|targets|, t)), endpoints, k', lead', targets + [t], attempt)
  {
    hide Pop, Redirects, Lined, Spent, RedirectTo, RetryLater;
    var t, all := Pop(p).target.value, targets + [Pop(p).target.value];
    var o := attempt(|targets|, t);
    PopSpends(p);
    TakesNext(Pop(p).plan, t, o);
    RedirectsOne(targets, attempt, t);
    if p.budget > 0 {
      var _ := PopAt(p);
      k', lead' := LinedPop(p, endpoints, k, lead, targets, Redirects(targets, attempt));
      if o.NotLeaderAt? {
        LinedRedirect(Pop(p).plan, endpoints, k', lead', all, Redirects(targets, attempt), o.leader);
        lead' := lead' + 1;
      } else {
        LinedRetry(Pop(p).plan, endpoints, k', lead', all, Redirects(targets, attempt), t);
      }
      if p.budget == 1 {
        LinedSpent(Takes(Pop(p).plan, t, o), endpoints, k', lead', all, attempt);
      }
    } else {
      k', lead' := k, lead;
      PopTail(p);
      SpentStays(endpoints, k, targets, attempt, t);
    }
  }

  /**
   * What a call has done by the time it gives up: with any endpoint at all it has made at least `2n + 2` attempts, and
   * all `4n + 4` if a leader was named last; and unless more than `n + 2` of the first `2n + 2` named a leader, it has
   * asked every endpoint.
   */
  ghost predicate Exhausted(endpoints: seq<Text>, targets: seq<Text>, attempt: Attempts) {
    var n := |endpoints|;
    && (endpoints != [] ==> 2 * n + 2 <= |targets|)
    && (Named(targets, attempt).Some? ==> |targets| == 4 * n + 4)
    && (endpoints != [] && Redirects(targets[..Min(2 * n + 2, |targets|)], attempt) <= n + 2 ==>
          forall j :: 0 <= j < n ==> endpoints[j] in targets)
  }

  lemma DryIsExhausted(p: Plan, endpoints: seq<Text>, k: nat, lead: nat, targets: seq<Text>, attempt: Attempts,
                       from: Plan)
    requires Covering(p, endpoints, k, lead, targets, attempt) && Pop(p).target.None?
    requires Named(targets, attempt).Some? ==> p == RedirectTo(from, Named(targets, attempt).value)
    ensures Exhausted(endpoints, targets, attempt)
  {
    hide Pop, Redirects, Lined, RedirectTo, Named;
    if Named(targets, attempt).Some? {
      RedirectIsNext(from, Named(targets, attempt).value);
      PlanMoves(from, Named(targets, attempt).value);
    }
    if p.budget > 0 && endpoints != [] {
      NotDry(p);
    }
  }

  /**
   * Asks one target after another until one answers or the plan runs dry. The loop ends after at most `4n + 4`
   * attempts. A call that must not be repeated is sent again only after an attempt that cannot have run: one
   * that never connected, or one a follower turned away.
   * A call that gives up has exhausted its plan.
   */
  method Call(endpoints: seq<Text>, idempotent: bool, attempt: Attempts) returns (ended: Ended, targets: seq<Text>,
              pauses: seq<bool>)
    ensures |targets| <= 4 * |endpoints| + 4
    ensures Trail(targets, idempotent, attempt) && Paused(targets, pauses, attempt)
    ensures EndsWith(targets, idempotent, attempt, ended)
    ensures !ended.Done? && !ended.Rejected? ==> Exhausted(endpoints, targets, attempt)
  {
    var plan := new LeaderRetryPlan(endpoints);
    var lastRedirect: Option<Text> := None;
    var errors := [];
    targets, pauses := [], [];
    ghost var from := plan.View();
    ghost var k, lead: nat := 0, 0;
    CoversFirst(endpoints, attempt);
    hide Pop, Standing, Trail, Paused, Named, EndsWith, RedirectTo, RetryLater, Covering, Exhausted, NewPlan;
    StandsFirst(idempotent, attempt);
    while true
      invariant plan.View().Room() + |targets| == 4 * |endpoints| + 4
      invariant Standing(targets, pauses, idempotent, attempt, lastRedirect, errors, plan.backoff)
      invariant Named(targets, attempt).Some? ==> plan.View() == RedirectTo(from, Named(targets, attempt).value)
      invariant Covering(plan.View(), endpoints, k, lead, targets, attempt)
      decreases plan.View().Room()
    {
      NextTarget(plan.View(), from, Named(targets, attempt));
      PopKeepsBackoff(plan.View());
      ghost var before := plan.View();
      var target := plan.Next();
      if target.None? {
        DryIsExhausted(before, endpoints, k, lead, targets, attempt, from);
        StandsLast(targets, pauses, idempotent, attempt, lastRedirect, errors, plan.backoff);
        ended := EndOf(lastRedirect, errors);
        return;
      }
      var pause := plan.NeedsBackoff(target.value);
      StandsNext(targets, pauses, idempotent, attempt, lastRedirect, errors, plan.backoff, target.value);
      var outcome := attempt(|targets|, target.value);
      k, lead := CoversNext(before, endpoints, k, lead, targets, attempt);
      PlanMoves(plan.View(), target.value);
      if outcome.NotLeaderAt? {
        PlanMoves(plan.View(), outcome.leader);
      }
      targets, pauses := targets + [target.value], pauses + [pause];
      if outcome.Answered? {
        return Done, targets, pauses;
      }
      if outcome.Refused? || (outcome.Transient? && !idempotent) {
        return Rejected, targets, pauses;
      }
      if outcome.NotLeaderAt? {
        lastRedirect := Some(outcome.leader);
        from := plan.View();
        plan.Redirect(outcome.leader);
      } else {
        if Reported(outcome) {
          errors := errors + [target.value];
        }
        plan.Retry(target.value);
      }
    }
  }
}
