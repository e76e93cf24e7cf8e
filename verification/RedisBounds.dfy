/** Bounds of the Redis transport over every run: deliveries, order and capacity. */
module RedisBounds {
  import opened Common
  import opened Jobs
  import opened RedisQueue

  function Waiting(delayed: map<Payload, int>, id: JobId): set<Payload> {
    set p | p in delayed && p.jobId == id
  }

  function Having(ps: seq<Payload>, id: JobId): set<Payload> {
    set p | p in ps && p.jobId == id
  }

  ghost predicate Distinct(ps: seq<Payload>) {
    forall i, j :: 0 <= i < j < |ps| ==> ps[i] != ps[j]
  }

  lemma {:induction false} DistinctMembers(ps: seq<Payload>)
    requires Distinct(ps)
    ensures |Members(ps)| == |ps|
  {
    if ps != [] {
      var rest := ps[1..];
      DistinctMembers(rest);
      assert ps[0] !in rest;
      assert Members(ps) == {ps[0]} + Members(rest);
    }
  }

  lemma {:induction false} CopiesOfDistinct(ps: seq<Payload>, id: JobId)
    requires Distinct(ps)
    ensures Copies(ps, id) == |Having(ps, id)|
  {
    if ps != [] {
      var rest := ps[1..];
      CopiesOfDistinct(rest, id);
      assert ps[0] !in rest;
      if ps[0].jobId == id {
        assert Having(ps, id) == {ps[0]} + Having(rest, id);
      } else {
        assert Having(ps, id) == Having(rest, id);
      }
    }
  }

  function Claim(h: Hand, id: JobId): nat {
    if h.Recovering? && h.payload.jobId == id then 1 else 0
  }

  function ClaimOn(id: JobId): Hand -> nat { h => Claim(h, id) }

  /** Copies of a job waiting to be popped or promoted. */
  function Queued(r: Store, id: JobId): nat { Copies(r.main, id) + |Waiting(r.delayed, id)| }

  /** Deliveries, queued copies and recovery claims never outrun acceptances and recoveries. */
  ghost predicate Bounded(y: System, id: JobId) {
    && y.h.delivered[id] + Queued(y.s.store, id) <= y.h.accepted[id] + y.h.repushed[id]
    && y.h.repushed[id] + Sum(y.s.hands, ClaimOn(id)) <= y.h.reclaimed[id] + y.h.resent[id]
  }

  lemma PromotionKeepsQueued(r: Store, now: int, ready: seq<Payload>, id: JobId)
    requires IsReadyBatch(r.delayed, now, ready)
    ensures Queued(r.(main := r.main + ready, delayed := r.delayed - Members(ready)), id) == Queued(r, id)
  {
    CopiesAppend(r.main, ready, id);
    CopiesOfDistinct(ready, id);
    var moved := Having(ready, id);
    assert moved <= Waiting(r.delayed, id);
    assert Waiting(r.delayed - Members(ready), id) == Waiting(r.delayed, id) - moved;
  }

  lemma DelayQueuesOne(r: Store, p: Payload, at: int, id: JobId)
    ensures Queued(r.(delayed := r.delayed[p := at]), id) <= Queued(r, id) + if p.jobId == id then 1 else 0
  {
    assert Waiting(r.delayed[p := at], id) == Waiting(r.delayed, id) + if p.jobId == id then {p} else {};
  }

  lemma QueuedAfterCommand(cap: nat, r: Store, h: History, c: Command, id: JobId)
    ensures Queued(Execute(cap, r, c), id) + h.accepted[id] <= Queued(r, id) + ObserveCommand(cap, r, h, c).accepted[id]
  {
    match c
    case Enqueue(p) => CopiesAppend(r.main, [p], id);
    case EnqueueDelayed(p, at) => DelayQueuesOne(r, p, at, id);
    case Promote(now, ready) => if IsReadyBatch(r.delayed, now, ready) { PromotionKeepsQueued(r, now, ready, id); }
    case _ =>
  }

  lemma BoundedCommand(cap: nat, y: System, c: Command, id: JobId)
    requires Bounded(y, id)
    ensures Bounded(Next(cap, y, Client(c)), id)
  {
    QueuedAfterCommand(cap, y.s.store, y.h, c, id);
  }

  /** Deliveries and queued copies grow only by what recovery pushes. */
  ghost predicate QueueAccounted(r: Store, hand: Hand, h: History, call: Call, id: JobId) {
    var h' := ObserveCall(r, hand, h, call);
    && h'.delivered[id] + Queued(StoreAfter(r, hand, call), id) + h.repushed[id] <=
         h.delivered[id] + Queued(r, id) + h'.repushed[id]
    && h'.accepted == h.accepted
  }

  lemma QueuedAfterRepush(r: Store, hand: Hand, h: History, call: Call, id: JobId)
    requires call.Repush?
    ensures QueueAccounted(r, hand, h, call, id)
  {
    if hand.Recovering? || hand.Repushed? { CopiesAppend(r.main, [hand.payload], id); }
  }

  lemma QueuedAfterPop(r: Store, hand: Hand, h: History, id: JobId)
    ensures QueueAccounted(r, hand, h, Pop, id)
  {
  }

  lemma QueuedAfterRest(r: Store, hand: Hand, h: History, call: Call, id: JobId)
    requires !call.Pop? && !call.Repush?
    ensures QueueAccounted(r, hand, h, call, id)
  {
    var t := StoreAfter(r, hand, call);
    assert t.main == r.main && t.delayed == r.delayed;
  }

  lemma QueuedAfterCall(r: Store, hand: Hand, h: History, call: Call, id: JobId)
    ensures QueueAccounted(r, hand, h, call, id)
  {
    if call.Pop? {
      QueuedAfterPop(r, hand, h, id);
    } else if call.Repush? {
      QueuedAfterRepush(r, hand, h, call, id);
    } else {
      QueuedAfterRest(r, hand, h, call, id);
    }
  }

  /** Pushes and claims of recovery grow only by leases taken away and pushes sent again. */
  ghost predicate ClaimAccounted(r: Store, hand: Hand, h: History, call: Call, id: JobId) {
    var h' := ObserveCall(r, hand, h, call);
    h'.repushed[id] + Claim(HandAfter(r, hand, call), id) + h.reclaimed[id] + h.resent[id] <=
      h.repushed[id] + Claim(hand, id) + h'.reclaimed[id] + h'.resent[id]
  }

  lemma ClaimsAfterRecovery(r: Store, hand: Hand, h: History, call: Call, id: JobId)
    requires call.Repush? || call.ScanNext?
    ensures ClaimAccounted(r, hand, h, call, id)
  {
  }

  lemma ClaimsAfterCall(r: Store, hand: Hand, h: History, call: Call, id: JobId)
    ensures ClaimAccounted(r, hand, h, call, id)
  {
    if call.Repush? || call.ScanNext? { ClaimsAfterRecovery(r, hand, h, call, id); }
  }

  lemma BoundedCall(cap: nat, y: System, w: nat, call: Call, id: JobId)
    requires Bounded(y, id)
    ensures Bounded(Next(cap, y, By(w, call)), id)
  {
    if w < |y.s.hands| {
      var r, hand := y.s.store, y.s.hands[w];
      QueuedAfterCall(r, hand, y.h, call, id);
      ClaimsAfterCall(r, hand, y.h, call, id);
      SumUpdate(y.s.hands, w, HandAfter(r, hand, call), ClaimOn(id));
    }
  }

  lemma {:induction false} RunBounded(cap: nat, n: nat, steps: seq<Step>, id: JobId)
    ensures Bounded(Run(cap, Fresh(n), steps), id)
    decreases |steps|
  {
    if steps == [] {
      SumZero(Fresh(n).s.hands, ClaimOn(id));
    } else {
      var k := |steps| - 1;
      RunBounded(cap, n, steps[..k], id);
      match steps[k]
      case Client(c) => BoundedCommand(cap, Run(cap, Fresh(n), steps[..k]), c, id);
      case By(w, call) => BoundedCall(cap, Run(cap, Fresh(n), steps[..k]), w, call, id);
    }
  }

  /**
   A job reaches a worker at most once per acceptance, plus once per lease that stale
   recovery took away and once per push of it that was sent again; and every lease taken
   away is pushed back at most once, not counting the pushes sent again.
   */
  lemma DeliveriesBounded(cap: nat, n: nat, steps: seq<Step>, id: JobId)
    ensures var h := Run(cap, Fresh(n), steps).h;
            && h.delivered[id] <= h.accepted[id] + h.reclaimed[id] + h.resent[id]
            && h.repushed[id] <= h.reclaimed[id] + h.resent[id]
  {
    RunBounded(cap, n, steps, id);
  }

  // ------------------------------------------------------------------ order and capacity

  lemma OrderCommand(cap: nat, r: Store, h: History, c: Command)
    requires h.pushes == h.pops + r.main
    ensures ObserveCommand(cap, r, h, c).pushes == ObserveCommand(cap, r, h, c).pops + Execute(cap, r, c).main
  {
    if c.Enqueue? {
      PushedBehind(h.pushes, h.pops, r.main, [c.payload]);
    } else if c.Promote? {
      PushedBehind(h.pushes, h.pops, r.main, c.ready);
    }
  }

  lemma OrderCall(r: Store, hand: Hand, h: History, call: Call)
    requires h.pushes == h.pops + r.main
    ensures ObserveCall(r, hand, h, call).pushes == ObserveCall(r, hand, h, call).pops + StoreAfter(r, hand, call).main
  {
  }

  /** The payloads popped so far followed by the main list are the payloads pushed, in push order. */
  lemma {:induction false} PopsInPushOrder(cap: nat, n: nat, steps: seq<Step>)
    ensures var y := Run(cap, Fresh(n), steps); y.h.pushes == y.h.pops + y.s.store.main
    decreases |steps|
  {
    if steps != [] {
      var k := |steps| - 1;
      PopsInPushOrder(cap, n, steps[..k]);
      var y := Run(cap, Fresh(n), steps[..k]);
      match steps[k]
      case Client(c) => OrderCommand(cap, y.s.store, y.h, c);
      case By(w, call) => if w < |y.s.hands| { OrderCall(y.s.store, y.s.hands[w], y.h, call); }
    }
  }

  lemma DepthCommand(cap: nat, r: Store, h: History, c: Command)
    ensures Depth(Execute(cap, r, c)) <= if Depth(r) >= cap then Depth(r) else cap
    ensures ObserveCommand(cap, r, h, c).repushed == h.repushed
  {
    if c.EnqueueDelayed? && Depth(r) < cap {
      assert Execute(cap, r, c).delayed.Keys == r.delayed.Keys + {c.payload};
    } else if c.Promote? && IsReadyBatch(r.delayed, c.now, c.ready) {
      PromotionKeepsDepth(r, c.now, c.ready);
    }
  }

  lemma PromotionKeepsDepth(r: Store, now: int, ready: seq<Payload>)
    requires IsReadyBatch(r.delayed, now, ready)
    ensures Depth(r.(main := r.main + ready, delayed := r.delayed - Members(ready))) == Depth(r)
  {
    DistinctMembers(ready);
    assert Members(ready) <= r.delayed.Keys;
    assert (r.delayed - Members(ready)).Keys == r.delayed.Keys - Members(ready);
  }

  lemma DepthCall(r: Store, hand: Hand, h: History, call: Call)
    ensures Depth(StoreAfter(r, hand, call)) + |h.repushed| <= Depth(r) + |ObserveCall(r, hand, h, call).repushed|
    ensures |h.repushed| <= |ObserveCall(r, hand, h, call).repushed|
  {
  }

  lemma DepthStep(cap: nat, y: System, step: Step)
    ensures Depth(Next(cap, y, step).s.store) + |y.h.repushed| <=
              (if Depth(y.s.store) >= cap then Depth(y.s.store) else cap) + |Next(cap, y, step).h.repushed|
    ensures |y.h.repushed| <= |Next(cap, y, step).h.repushed|
  {
    match step
    case Client(c) => DepthCommand(cap, y.s.store, y.h, c);
    case By(w, call) =>
      if w < |y.s.hands| { DepthCall(y.s.store, y.s.hands[w], y.h, call); }
  }

  /** Admission holds the pending jobs to the capacity; only jobs that stale recovery pushed back can exceed it. */
  lemma {:induction false} PendingBounded(cap: nat, n: nat, steps: seq<Step>)
    ensures var y := Run(cap, Fresh(n), steps); Depth(y.s.store) <= cap + |y.h.repushed|
    decreases |steps|
  {
    if steps != [] {
      var k := |steps| - 1;
      PendingBounded(cap, n, steps[..k]);
      DepthStep(cap, Run(cap, Fresh(n), steps[..k]), steps[k]);
    }
  }
}
