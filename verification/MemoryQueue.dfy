/**
 The in-process transport of AINDY/core/distributed_queue.py (InMemoryQueueBackend).

 A step is one critical section of one thread: a queue operation, a block under one of the
 backend's locks, or the start of a timer.  What a thread holds between two of them is its
 `Caller` (enqueue and enqueue_delayed) or its `Worker` (everything else), so a run is any
 interleaving of any number of threads.  Class `Backend` carries the methods themselves,
 proved to be those steps in a row when no other thread acts.
 */
module MemoryQueue {
  import opened Common
  import opened Jobs

  datatype Lease = Lease(jobId: JobId, payload: Payload, dequeuedAt: int)

  /**
   `inflight` is an insertion-ordered dictionary; `timers` holds the payloads of the timers
   that have not fired, and `fired` counts those that have and did not yet count themselves
   down.
   */
  datatype Mem = Mem(
    q: seq<Payload>,
    inflight: seq<Lease>,
    dead: seq<DeadLetter>,
    timers: seq<Payload>,
    delayedCount: nat,
    fired: nat)

  datatype Caller =
    | Ready
    | Counted(payload: Payload, delayed: bool, seen: nat)   // read the delayed count, not the queue size
    | Passed(payload: Payload, delayed: bool)               // found room, has not acted
    | Starting(payload: Payload)                            // counted its timer, has not started it

  datatype Worker =
    | Resting
    | Took(payload: Payload)                                // off the queue, not yet in flight
    | Failing(jobId: JobId, found: Option<Payload>)         // out of flight, not yet a dead letter
    | Recovering(todo: seq<Payload>)                        // stale jobs still to put back

  datatype Action = Count(payload: Payload, delayed: bool) | Check | Act

  datatype Task =
    | Get
    | File(now: int)
    | TakeLease(jobId: JobId)
    | AppendLetter(error: string, now: int)
    | TakeStale(now: int, timeout: int)
    | PutBack

  datatype Step =
    | By(c: nat, action: Action)
    | Work(w: nat, task: Task)
    | Fire(k: nat)
    | CountDown
    | Ack(jobId: JobId)
    | RemoveLetter(jobId: JobId)
    | Drain

  datatype State = State(m: Mem, callers: seq<Caller>, workers: seq<Worker>)

  // ------------------------------------------------------------------ dictionary operations

  function Find(leases: seq<Lease>, id: JobId): (r: Option<Lease>)
    ensures r.Some? ==> r.value in leases && r.value.jobId == id
    ensures r.None? ==> forall i :: 0 <= i < |leases| ==> leases[i].jobId != id
  {
    if leases == [] then None
    else if leases[0].jobId == id then Some(leases[0])
    else Find(leases[1..], id)
  }

  /** `d[key] = value`: in place when the key exists, at the end otherwise. */
  function Put(leases: seq<Lease>, lease: Lease): seq<Lease> {
    if leases == [] then [lease]
    else if leases[0].jobId == lease.jobId then [lease] + leases[1..]
    else [leases[0]] + Put(leases[1..], lease)
  }

  /** `d.pop(key, None)`. */
  function Remove(leases: seq<Lease>, id: JobId): seq<Lease> {
    if leases == [] then []
    else if leases[0].jobId == id then leases[1..]
    else [leases[0]] + Remove(leases[1..], id)
  }

  predicate Stale(lease: Lease, now: int, timeout: int) { now - lease.dequeuedAt > timeout }

  function StaleOnes(leases: seq<Lease>, now: int, timeout: int): seq<Lease> {
    if leases == [] then []
    else (if Stale(leases[0], now, timeout) then [leases[0]] else []) + StaleOnes(leases[1..], now, timeout)
  }

  function LiveOnes(leases: seq<Lease>, now: int, timeout: int): seq<Lease> {
    if leases == [] then []
    else (if Stale(leases[0], now, timeout) then [] else [leases[0]]) + LiveOnes(leases[1..], now, timeout)
  }

  function Payloads(leases: seq<Lease>): (r: seq<Payload>)
    ensures |r| == |leases|
    ensures forall i :: 0 <= i < |r| ==> r[i] == leases[i].payload
  {
    if leases == [] then [] else [leases[0].payload] + Payloads(leases[1..])
  }

  function LetterIndex(dead: seq<DeadLetter>, id: JobId): (k: nat)
    ensures k <= |dead|
    ensures k < |dead| ==> dead[k].jobId == id
    ensures forall i :: 0 <= i < k ==> dead[i].jobId != id
  {
    if dead == [] then 0
    else if dead[0].jobId == id then 0
    else 1 + LetterIndex(dead[1..], id)
  }

  function Without<T>(s: seq<T>, k: nat): (r: seq<T>)
    requires k < |s|
    ensures |r| == |s| - 1
  {
    s[..k] + s[k + 1..]
  }

  // ------------------------------------------------------------------ one step

  function CallerAfter(cap: nat, m: Mem, c: Caller, a: Action): Caller {
    match a
    case Count(p, delayed) => if c.Ready? then Counted(p, delayed, m.delayedCount) else c
    case Check =>
      if !c.Counted? then c
      else if c.seen + |m.q| >= cap then Ready
      else Passed(c.payload, c.delayed)
    case Act =>
      // put_nowait raises queue.Full to the caller when there is no room any more
      if c.Passed? then if c.delayed then Starting(c.payload) else Ready
      else if c.Starting? then Ready
      else c
  }

  function MemAfterAction(cap: nat, m: Mem, c: Caller, a: Action): Mem {
    if a.Act? && c.Passed? && c.delayed then m.(delayedCount := m.delayedCount + 1)
    else if a.Act? && c.Passed? && |m.q| < cap then m.(q := m.q + [c.payload])
    else if a.Act? && c.Starting? then m.(timers := m.timers + [c.payload])
    else m
  }

  function Holding(todo: seq<Payload>): Worker { if todo == [] then Resting else Recovering(todo) }

  function WorkerAfter(cap: nat, m: Mem, w: Worker, t: Task): Worker {
    match t
    case Get => if w.Resting? && m.q != [] then Took(m.q[0]) else w
    case File(_) => if w.Took? then Resting else w
    case TakeLease(id) =>
      if !w.Resting? then w
      else
        var found := Find(m.inflight, id);
        Failing(id, if found.Some? then Some(found.value.payload) else None)
    case AppendLetter(_, _) => if w.Failing? then Resting else w
    case TakeStale(now, timeout) => if w.Resting? then Holding(Payloads(StaleOnes(m.inflight, now, timeout))) else w
    // put blocks while the queue is full
    case PutBack => if w.Recovering? && w.todo != [] && |m.q| < cap then Holding(w.todo[1..]) else w
  }

  function MemAfterTask(cap: nat, m: Mem, w: Worker, t: Task): Mem {
    match t
    case Get => if w.Resting? && m.q != [] then m.(q := m.q[1..]) else m
    case File(now) =>
      if w.Took? then m.(inflight := Put(m.inflight, Lease(w.payload.jobId, w.payload, now))) else m
    case TakeLease(id) => if w.Resting? then m.(inflight := Remove(m.inflight, id)) else m
    case AppendLetter(error, now) =>
      if w.Failing? then m.(dead := m.dead + [DeadLetter(w.jobId, w.found, error, now)]) else m
    case TakeStale(now, timeout) => if w.Resting? then m.(inflight := LiveOnes(m.inflight, now, timeout)) else m
    case PutBack => if w.Recovering? && w.todo != [] && |m.q| < cap then m.(q := m.q + [w.todo[0]]) else m
  }

  function MemAfter(cap: nat, m: Mem, step: Step): Mem {
    match step
    case Fire(k) =>
      // put_nowait raises on a full queue; the finally block counts the timer down either way
      if k >= |m.timers| then m
      else m.(q := if |m.q| < cap then m.q + [m.timers[k]] else m.q, timers := Without(m.timers, k), fired := m.fired + 1)
    case CountDown =>
      if m.fired == 0 then m
      else m.(fired := m.fired - 1, delayedCount := if m.delayedCount > 0 then m.delayedCount - 1 else 0)
    case Ack(id) => m.(inflight := Remove(m.inflight, id))
    case RemoveLetter(id) =>
      var k := LetterIndex(m.dead, id);
      if k < |m.dead| then m.(dead := Without(m.dead, k)) else m
    case Drain => m.(dead := [])
    case _ => m
  }

  function Apply(cap: nat, s: State, step: Step): (t: State)
    ensures |t.callers| == |s.callers| && |t.workers| == |s.workers|
  {
    match step
    case By(c, a) =>
      if c < |s.callers|
      then State(MemAfterAction(cap, s.m, s.callers[c], a), s.callers[c := CallerAfter(cap, s.m, s.callers[c], a)], s.workers)
      else s
    case Work(w, t) =>
      if w < |s.workers|
      then State(MemAfterTask(cap, s.m, s.workers[w], t), s.callers, s.workers[w := WorkerAfter(cap, s.m, s.workers[w], t)])
      else s
    case _ => s.(m := MemAfter(cap, s.m, step))
  }

  // ------------------------------------------------------------------ observed history

  datatype History = History(
    live: set<JobId>,      // accepted, and neither acked while in flight, nor removed with its dead letter, nor lost
    lost: set<JobId>,      // its timer fired on a full queue
    repeated: bool,        // some job was accepted while its id was live
    forced: nat,           // recovery puts that left no room for the timers and the admissions in progress
    pushes: seq<Payload>,  // everything put on the queue, in order
    pops: seq<Payload>)    // everything taken off it, in order

  datatype System = System(s: State, h: History)

  function SavedIds(dead: seq<DeadLetter>): set<JobId> {
    set i | 0 <= i < |dead| && dead[i].payload.Some? :: dead[i].jobId
  }

  function Accept(h: History, p: Payload): History {
    h.(live := h.live + {p.jobId}, repeated := h.repeated || p.jobId in h.live)
  }

  function Pushed(h: History, p: Payload): History { h.(pushes := h.pushes + [p]) }

  function ObserveAction(cap: nat, m: Mem, c: Caller, h: History, a: Action): History {
    if a.Act? && c.Passed? && c.delayed then Accept(h, c.payload)
    else if a.Act? && c.Passed? && |m.q| < cap then Pushed(Accept(h, c.payload), c.payload)
    else h
  }

  function Busy(c: Caller): nat { if c.Ready? then 0 else 1 }

  /** The queue, the timers and the admissions in progress fill the capacity. */
  predicate Crowded(cap: nat, m: Mem, callers: seq<Caller>) { |m.q| + |m.timers| + Sum(callers, Busy) >= cap }

  function ObserveTask(cap: nat, m: Mem, callers: seq<Caller>, w: Worker, h: History, t: Task): History {
    match t
    case Get => if w.Resting? && m.q != [] then h.(pops := h.pops + [m.q[0]]) else h
    case PutBack =>
      if w.Recovering? && w.todo != [] && |m.q| < cap
      then Pushed(h.(forced := h.forced + if Crowded(cap, m, callers) then 1 else 0), w.todo[0])
      else h
    case _ => h
  }

  function ObserveOther(cap: nat, m: Mem, h: History, step: Step): History {
    match step
    case Fire(k) =>
      if k >= |m.timers| then h
      else if |m.q| < cap then Pushed(h, m.timers[k])
      else h.(live := h.live - {m.timers[k].jobId}, lost := h.lost + {m.timers[k].jobId})
    case Ack(id) => if Find(m.inflight, id).Some? then h.(live := h.live - {id}) else h
    case RemoveLetter(id) =>
      var k := LetterIndex(m.dead, id);
      if k < |m.dead| && m.dead[k].payload.Some? then h.(live := h.live - {id}) else h
    case Drain => h.(live := h.live - SavedIds(m.dead))
    case _ => h
  }

  function Observe(cap: nat, s: State, h: History, step: Step): History {
    match step
    case By(c, a) => if c < |s.callers| then ObserveAction(cap, s.m, s.callers[c], h, a) else h
    case Work(w, t) => if w < |s.workers| then ObserveTask(cap, s.m, s.callers, s.workers[w], h, t) else h
    case _ => ObserveOther(cap, s.m, h, step)
  }

  function Next(cap: nat, y: System, step: Step): System {
    System(Apply(cap, y.s, step), Observe(cap, y.s, y.h, step))
  }

  const EMPTY := Mem([], [], [], [], 0, 0)

  /** An empty backend with n producers and k workers. */
  function Fresh(n: nat, k: nat): System {
    System(State(EMPTY, seq(n, _ => Ready), seq(k, _ => Resting)), History({}, {}, false, 0, [], []))
  }

  function Run(cap: nat, y: System, steps: seq<Step>): System
    decreases |steps|
  {
    if steps == [] then y else Next(cap, Run(cap, y, steps[..|steps| - 1]), steps[|steps| - 1])
  }

  lemma RunSnoc(cap: nat, y: System, steps: seq<Step>, step: Step)
    ensures Run(cap, y, steps + [step]) == Next(cap, Run(cap, y, steps), step)
  {
    assert (steps + [step])[..|steps|] == steps;
  }

  // ------------------------------------------------------------------ capacity

  function Timer(c: Caller): nat { if c.Starting? then 1 else 0 }

  /** Whether the caller can still add a job once the queue has shrunk to `y`. */
  function Weight(cap: nat, y: nat, c: Caller): nat {
    match c
    case Ready => 0
    case Counted(_, _, seen) => if seen + y < cap then 1 else 0
    case _ => 1
  }

  function WeightAt(cap: nat, y: nat): Caller -> nat { c => Weight(cap, y, c) }

  ghost predicate RoomAt(cap: nat, s: State, forced: nat, y: nat) {
    |s.m.timers| + y + Sum(s.callers, WeightAt(cap, y)) <= cap + Rivals(|s.callers|) + forced
  }

  /** The counter counts the timers, and what could still come in fits whatever leaves the queue first. */
  ghost predicate Loaded(cap: nat, s: State, forced: nat) {
    && s.m.delayedCount == |s.m.timers| + Sum(s.callers, Timer) + s.m.fired
    && (forall y: nat :: y <= |s.m.q| ==> RoomAt(cap, s, forced, y))
  }

  lemma WeightsAtMostTimers(cap: nat, y: nat, callers: seq<Caller>)
    ensures Sum(callers, WeightAt(cap, y)) <= Sum(callers, Timer) + |callers|
  {
    SumAtMost(callers, WeightAt(cap, y), Timer, 1);
  }

  lemma WeightsAtMostBusy(cap: nat, y: nat, callers: seq<Caller>)
    ensures Sum(callers, WeightAt(cap, y)) <= Sum(callers, Busy)
  {
    SumAtMost(callers, WeightAt(cap, y), Busy, 0);
  }

  /** A longer queue leaves less to come. */
  lemma WeightsFall(cap: nat, y: nat, callers: seq<Caller>)
    ensures Sum(callers, WeightAt(cap, y + 1)) <= Sum(callers, WeightAt(cap, y))
  {
    SumAtMost(callers, WeightAt(cap, y + 1), WeightAt(cap, y), 0);
  }

  lemma ActionKeepsCount(cap: nat, s: State, c: nat, a: Action)
    requires c < |s.callers| && s.m.delayedCount == |s.m.timers| + Sum(s.callers, Timer) + s.m.fired
    ensures var t := Apply(cap, s, By(c, a)); t.m.delayedCount == |t.m.timers| + Sum(t.callers, Timer) + t.m.fired
  {
    SumUpdate(s.callers, c, CallerAfter(cap, s.m, s.callers[c], a), Timer);
  }

  lemma CountKeepsRoom(cap: nat, s: State, forced: nat, c: nat, p: Payload, delayed: bool, y: nat)
    requires c < |s.callers| && Loaded(cap, s, forced) && y <= |s.m.q|
    ensures RoomAt(cap, Apply(cap, s, By(c, Count(p, delayed))), forced, y)
  {
    var t := Apply(cap, s, By(c, Count(p, delayed)));
    SumUpdate(s.callers, c, t.callers[c], WeightAt(cap, y));
    SumUpdate(s.callers, c, t.callers[c], Timer);
    assert RoomAt(cap, s, forced, y);
    if s.callers[c].Ready? && s.m.delayedCount + y < cap {
      WeightsAtMostTimers(cap, y, t.callers);
    }
  }

  lemma CheckKeepsRoom(cap: nat, s: State, forced: nat, c: nat, y: nat)
    requires c < |s.callers| && Loaded(cap, s, forced) && y <= |s.m.q|
    ensures RoomAt(cap, Apply(cap, s, By(c, Check)), forced, y)
  {
    SumUpdate(s.callers, c, CallerAfter(cap, s.m, s.callers[c], Check), WeightAt(cap, y));
    assert RoomAt(cap, s, forced, y);
  }

  lemma ActKeepsRoom(cap: nat, s: State, forced: nat, c: nat, y: nat)
    requires c < |s.callers| && Loaded(cap, s, forced) && y <= |Apply(cap, s, By(c, Act)).m.q|
    ensures RoomAt(cap, Apply(cap, s, By(c, Act)), forced, y)
  {
    var after := CallerAfter(cap, s.m, s.callers[c], Act);
    SumUpdate(s.callers, c, after, WeightAt(cap, y));
    if y <= |s.m.q| {
      assert RoomAt(cap, s, forced, y);
    } else {
      assert y == |s.m.q| + 1 && RoomAt(cap, s, forced, y - 1);
      WeightsFall(cap, y - 1, s.callers);
    }
  }

  lemma ActionLoaded(cap: nat, s: State, forced: nat, c: nat, a: Action)
    requires c < |s.callers| && Loaded(cap, s, forced)
    ensures Loaded(cap, Apply(cap, s, By(c, a)), forced)
  {
    var t := Apply(cap, s, By(c, a));
    ActionKeepsCount(cap, s, c, a);
    forall y: nat | y <= |t.m.q| ensures RoomAt(cap, t, forced, y) {
      match a
      case Count(p, delayed) => CountKeepsRoom(cap, s, forced, c, p, delayed, y);
      case Check => CheckKeepsRoom(cap, s, forced, c, y);
      case Act => ActKeepsRoom(cap, s, forced, c, y);
    }
  }

  lemma TaskLoaded(cap: nat, s: State, h: History, w: nat, task: Task)
    requires w < |s.workers| && Loaded(cap, s, h.forced)
    ensures Loaded(cap, Apply(cap, s, Work(w, task)), ObserveTask(cap, s.m, s.callers, s.workers[w], h, task).forced)
  {
    var t, forced := Apply(cap, s, Work(w, task)), ObserveTask(cap, s.m, s.callers, s.workers[w], h, task).forced;
    forall y: nat | y <= |t.m.q| ensures RoomAt(cap, t, forced, y) {
      if y <= |s.m.q| {
        assert RoomAt(cap, s, h.forced, y);
      } else {
        assert y == |s.m.q| + 1 && RoomAt(cap, s, h.forced, y - 1);
        WeightsFall(cap, y - 1, s.callers);
        WeightsAtMostBusy(cap, y, s.callers);
      }
    }
  }

  lemma OtherLoaded(cap: nat, s: State, forced: nat, step: Step)
    requires Loaded(cap, s, forced) && !step.By? && !step.Work?
    ensures Loaded(cap, Apply(cap, s, step), forced)
  {
    var t := Apply(cap, s, step);
    forall y: nat | y <= |t.m.q| ensures RoomAt(cap, t, forced, y) {
      if y <= |s.m.q| {
        assert RoomAt(cap, s, forced, y);
      } else {
        assert y == |s.m.q| + 1 && RoomAt(cap, s, forced, y - 1);
        WeightsFall(cap, y - 1, s.callers);
      }
    }
  }

  lemma {:induction false} RunLoaded(cap: nat, n: nat, k: nat, steps: seq<Step>)
    ensures var y := Run(cap, Fresh(n, k), steps); Loaded(cap, y.s, y.h.forced) && |y.s.callers| == n && |y.s.workers| == k
    decreases |steps|
  {
    if steps == [] {
      var s := Fresh(n, k).s;
      SumZero(s.callers, Timer);
      SumZero(s.callers, WeightAt(cap, 0));
      forall y: nat | y <= |s.m.q| ensures RoomAt(cap, s, 0, y) {}
    } else {
      var front, step := steps[..|steps| - 1], steps[|steps| - 1];
      RunLoaded(cap, n, k, front);
      var y := Run(cap, Fresh(n, k), front);
      if step.By? {
        if step.c < n { ActionLoaded(cap, y.s, y.h.forced, step.c, step.action); }
      } else if step.Work? {
        if step.w < k { TaskLoaded(cap, y.s, y.h, step.w, step.task); }
      } else {
        OtherLoaded(cap, y.s, y.h.forced, step);
      }
    }
  }

  function Admitted(c: Caller): nat { if c.Passed? || c.Starting? then 1 else 0 }

  /**
   In every run of n producers, queued jobs, timers and admissions exceed the capacity by at
   most the n - 1 producers that can find the last place at the same time, and by the puts
   of stale recovery that did not leave room; and the counter counts the timers.
   */
  lemma PendingBounded(cap: nat, n: nat, k: nat, steps: seq<Step>)
    ensures var y := Run(cap, Fresh(n, k), steps);
            && |y.s.m.q| + |y.s.m.timers| + Sum(y.s.callers, Admitted) <= cap + Rivals(n) + y.h.forced
            && y.s.m.delayedCount == |y.s.m.timers| + Sum(y.s.callers, Timer) + y.s.m.fired
  {
    RunLoaded(cap, n, k, steps);
    var y := Run(cap, Fresh(n, k), steps);
    assert RoomAt(cap, y.s, y.h.forced, |y.s.m.q|);
    SumAtMost(y.s.callers, Admitted, WeightAt(cap, |y.s.m.q|), 0);
  }

  /** With one producer and no forced recovery put, a timer that fires finds room. */
  lemma TimerFindsRoom(cap: nat, n: nat, k: nat, steps: seq<Step>, i: nat)
    requires n <= 1 && Run(cap, Fresh(n, k), steps).h.forced == 0 && i < |Run(cap, Fresh(n, k), steps).s.m.timers|
    ensures |Run(cap, Fresh(n, k), steps).s.m.q| < cap
  {
    PendingBounded(cap, n, k, steps);
  }

  lemma ForcedGrows(cap: nat, y: System, step: Step)
    ensures y.h.forced <= Next(cap, y, step).h.forced
    ensures Next(cap, y, step).h.lost != y.h.lost ==> step.Fire? && step.k < |y.s.m.timers| && |y.s.m.q| >= cap
  {
  }

  lemma {:induction false} NothingLost(cap: nat, n: nat, k: nat, steps: seq<Step>)
    requires n <= 1 && Run(cap, Fresh(n, k), steps).h.forced == 0
    ensures Run(cap, Fresh(n, k), steps).h.lost == {}
    decreases |steps|
  {
    if steps != [] {
      var front, step := steps[..|steps| - 1], steps[|steps| - 1];
      var y := Run(cap, Fresh(n, k), front);
      ForcedGrows(cap, y, step);
      NothingLost(cap, n, k, front);
      if step.Fire? && step.k < |y.s.m.timers| { TimerFindsRoom(cap, n, k, front, step.k); }
    }
  }

  // ------------------------------------------------------------------ where a job is

  function Leased(leases: seq<Lease>, id: JobId): nat {
    if leases == [] then 0 else (if leases[0].jobId == id then 1 else 0) + Leased(leases[1..], id)
  }

  function CallerHas(c: Caller, id: JobId): nat { if c.Starting? && c.payload.jobId == id then 1 else 0 }

  function WorkerHas(w: Worker, id: JobId): nat {
    match w
    case Resting => 0
    case Took(p) => if p.jobId == id then 1 else 0
    case Failing(jobId, found) => if jobId == id && found.Some? then 1 else 0
    case Recovering(todo) => Copies(todo, id)
  }

  function InCaller(id: JobId): Caller -> nat { c => CallerHas(c, id) }

  function InWorker(id: JobId): Worker -> nat { w => WorkerHas(w, id) }

  function Kept(m: Mem, id: JobId): nat {
    Copies(m.q, id) + Copies(m.timers, id) + Leased(m.inflight, id) + Saved(m.dead, id)
  }

  /** How many of queue, timers, in-flight, dead letters with payload and threads between two steps have the job. */
  function Places(s: State, id: JobId): nat { Kept(s.m, id) + Sum(s.callers, InCaller(id)) + Sum(s.workers, InWorker(id)) }

  lemma CopiesWithout(ps: seq<Payload>, k: nat, id: JobId)
    requires k < |ps|
    ensures Copies(ps, id) == Copies(Without(ps, k), id) + (if ps[k].jobId == id then 1 else 0)
  {
    assert ps == ps[..k] + ([ps[k]] + ps[k + 1..]);
    CopiesAppend(ps[..k], [ps[k]] + ps[k + 1..], id);
    CopiesAppend([ps[k]], ps[k + 1..], id);
    CopiesAppend(ps[..k], ps[k + 1..], id);
  }

  lemma SavedWithout(dead: seq<DeadLetter>, k: nat, id: JobId)
    requires k < |dead|
    ensures Saved(dead, id) == Saved(Without(dead, k), id) + (if dead[k].jobId == id && dead[k].payload.Some? then 1 else 0)
  {
    assert dead == dead[..k] + ([dead[k]] + dead[k + 1..]);
    SavedAppend(dead[..k], [dead[k]] + dead[k + 1..], id);
    SavedAppend([dead[k]], dead[k + 1..], id);
    SavedAppend(dead[..k], dead[k + 1..], id);
  }

  lemma {:induction false} SavedExactly(dead: seq<DeadLetter>, id: JobId)
    ensures Saved(dead, id) > 0 <==> id in SavedIds(dead)
  {
    if dead != [] {
      SavedExactly(dead[1..], id);
      if dead[0].jobId == id && dead[0].payload.Some? {
        assert dead[0].jobId in SavedIds(dead);
      } else {
        forall i | 0 <= i < |dead| && dead[i].payload.Some? && dead[i].jobId == id
          ensures id in SavedIds(dead[1..])
        {
          assert dead[1..][i - 1] == dead[i];
        }
      }
    }
  }

  predicate KeyedLeases(leases: seq<Lease>) {
    forall i :: 0 <= i < |leases| ==> leases[i].jobId == leases[i].payload.jobId
  }

  lemma {:induction false} LeasedFind(leases: seq<Lease>, id: JobId)
    ensures Leased(leases, id) > 0 <==> Find(leases, id).Some?
  {
    if leases != [] { LeasedFind(leases[1..], id); }
  }

  lemma {:induction false} LeasedPut(leases: seq<Lease>, lease: Lease, id: JobId)
    ensures Leased(Put(leases, lease), id) ==
              Leased(leases, id) + (if lease.jobId == id && Leased(leases, id) == 0 then 1 else 0)
    ensures KeyedLeases(leases) && lease.jobId == lease.payload.jobId ==> KeyedLeases(Put(leases, lease))
  {
    if leases != [] {
      LeasedPut(leases[1..], lease, id);
    }
  }

  lemma {:induction false} LeasedRemove(leases: seq<Lease>, out: JobId, id: JobId)
    ensures Leased(Remove(leases, out), id) ==
              Leased(leases, id) - (if out == id && Leased(leases, id) > 0 then 1 else 0)
    ensures KeyedLeases(leases) ==> KeyedLeases(Remove(leases, out))
  {
    if leases != [] { LeasedRemove(leases[1..], out, id); }
  }

  lemma {:induction false} LeasedSplit(leases: seq<Lease>, now: int, timeout: int, id: JobId)
    requires KeyedLeases(leases)
    ensures Leased(leases, id) ==
              Leased(LiveOnes(leases, now, timeout), id) + Copies(Payloads(StaleOnes(leases, now, timeout)), id)
    ensures KeyedLeases(LiveOnes(leases, now, timeout))
  {
    if leases != [] {
      var rest := leases[1..];
      LeasedSplit(rest, now, timeout, id);
      if Stale(leases[0], now, timeout) {
        StaleFirst(leases[0], StaleOnes(rest, now, timeout), id);
        assert LiveOnes(leases, now, timeout) == LiveOnes(rest, now, timeout);
      } else {
        LiveFirst(leases[0], LiveOnes(rest, now, timeout), id);
        assert StaleOnes(leases, now, timeout) == StaleOnes(rest, now, timeout);
      }
    }
  }

  lemma StaleFirst(lease: Lease, rest: seq<Lease>, id: JobId)
    ensures Copies(Payloads([lease] + rest), id) == Copies(Payloads(rest), id) + (if lease.payload.jobId == id then 1 else 0)
  {
    assert Payloads([lease] + rest)[1..] == Payloads(rest);
  }

  lemma LiveFirst(lease: Lease, rest: seq<Lease>, id: JobId)
    ensures Leased([lease] + rest, id) == Leased(rest, id) + (if lease.jobId == id then 1 else 0)
    ensures KeyedLeases(rest) && lease.jobId == lease.payload.jobId ==> KeyedLeases([lease] + rest)
  {
  }

  /** A timer that fires keeps its job if and only if the queue has room. */
  lemma FireKeepsJob(cap: nat, s: State, k: nat, id: JobId)
    requires k < |s.m.timers| && s.m.timers[k].jobId == id
    ensures Places(Apply(cap, s, Fire(k)), id) == Places(s, id) <==> |s.m.q| < cap
  {
    CopiesWithout(s.m.timers, k, id);
    CopiesAppend(s.m.q, [s.m.timers[k]], id);
  }

  function One(id: JobId, ids: set<JobId>): nat { if id in ids then 1 else 0 }

  /** A live job is in exactly one place and any other id is in none. */
  ghost predicate Exact(y: System, id: JobId) { Places(y.s, id) == One(id, y.h.live) }

  lemma ActionMoves(cap: nat, m: Mem, c: Caller, h: History, a: Action, id: JobId)
    requires !ObserveAction(cap, m, c, h, a).repeated
    ensures Kept(MemAfterAction(cap, m, c, a), id) + CallerHas(CallerAfter(cap, m, c, a), id) + One(id, h.live) ==
            Kept(m, id) + CallerHas(c, id) + One(id, ObserveAction(cap, m, c, h, a).live)
  {
    if a.Act? && (c.Passed? || c.Starting?) {
      CopiesAppend(m.q, [c.payload], id);
      CopiesAppend(m.timers, [c.payload], id);
    }
  }

  lemma TaskMoves(cap: nat, m: Mem, w: Worker, task: Task, id: JobId)
    requires KeyedLeases(m.inflight) && (w.Took? && w.payload.jobId == id ==> Leased(m.inflight, id) == 0)
    ensures Kept(MemAfterTask(cap, m, w, task), id) + WorkerHas(WorkerAfter(cap, m, w, task), id) == Kept(m, id) + WorkerHas(w, id)
  {
    match task
    case Get =>
    case File(now) => if w.Took? { LeasedPut(m.inflight, Lease(w.payload.jobId, w.payload, now), id); }
    case TakeLease(out) =>
      LeasedRemove(m.inflight, out, id);
      LeasedFind(m.inflight, out);
    case AppendLetter(error, now) => if w.Failing? { SavedAppend(m.dead, [DeadLetter(w.jobId, w.found, error, now)], id); }
    case TakeStale(now, timeout) => LeasedSplit(m.inflight, now, timeout, id);
    case PutBack => if w.Recovering? && w.todo != [] { CopiesAppend(m.q, [w.todo[0]], id); }
  }

  lemma OtherMoves(cap: nat, m: Mem, h: History, step: Step, id: JobId)
    requires !step.By? && !step.Work? && (id !in h.live ==> Kept(m, id) == 0) && Kept(m, id) <= 1
    ensures Kept(MemAfter(cap, m, step), id) + One(id, h.live) == Kept(m, id) + One(id, ObserveOther(cap, m, h, step).live)
  {
    match step
    case Fire(k) =>
      if k < |m.timers| {
        CopiesWithout(m.timers, k, id);
        CopiesAppend(m.q, [m.timers[k]], id);
      }
    case Ack(out) =>
      LeasedRemove(m.inflight, out, id);
      LeasedFind(m.inflight, out);
    case RemoveLetter(out) => if LetterIndex(m.dead, out) < |m.dead| { SavedWithout(m.dead, LetterIndex(m.dead, out), id); }
    case Drain => SavedExactly(m.dead, id);
    case _ =>
  }

  lemma RepeatedStays(cap: nat, y: System, step: Step)
    ensures y.h.repeated ==> Next(cap, y, step).h.repeated
    ensures step.Work? ==> Next(cap, y, step).h.live == y.h.live
  {
  }

  lemma ExactAction(cap: nat, y: System, c: nat, a: Action, id: JobId)
    requires c < |y.s.callers| && Exact(y, id) && !Next(cap, y, By(c, a)).h.repeated
    ensures Exact(Next(cap, y, By(c, a)), id)
  {
    ActionMoves(cap, y.s.m, y.s.callers[c], y.h, a, id);
    SumUpdate(y.s.callers, c, CallerAfter(cap, y.s.m, y.s.callers[c], a), InCaller(id));
  }

  lemma ExactTask(cap: nat, y: System, w: nat, task: Task, id: JobId)
    requires w < |y.s.workers| && Exact(y, id) && KeyedLeases(y.s.m.inflight)
    ensures Exact(Next(cap, y, Work(w, task)), id)
  {
    SumHas(y.s.workers, w, InWorker(id));
    TaskMoves(cap, y.s.m, y.s.workers[w], task, id);
    SumUpdate(y.s.workers, w, WorkerAfter(cap, y.s.m, y.s.workers[w], task), InWorker(id));
    RepeatedStays(cap, y, Work(w, task));
  }

  lemma KeyedKept(cap: nat, s: State, step: Step)
    requires KeyedLeases(s.m.inflight)
    ensures KeyedLeases(Apply(cap, s, step).m.inflight)
  {
    match step
    case Work(w, t) =>
      if w < |s.workers| {
        if t.File? && s.workers[w].Took? {
          var p := s.workers[w].payload;
          LeasedPut(s.m.inflight, Lease(p.jobId, p, t.now), "");
        } else if t.TakeLease? {
          LeasedRemove(s.m.inflight, t.jobId, "");
        } else if t.TakeStale? {
          LeasedSplit(s.m.inflight, t.now, t.timeout, "");
        }
      }
    case Ack(out) => LeasedRemove(s.m.inflight, out, "");
    case _ =>
  }

  lemma {:induction false} RunKeyed(cap: nat, n: nat, k: nat, steps: seq<Step>)
    ensures KeyedLeases(Run(cap, Fresh(n, k), steps).s.m.inflight)
    decreases |steps|
  {
    if steps != [] {
      RunKeyed(cap, n, k, steps[..|steps| - 1]);
      KeyedKept(cap, Run(cap, Fresh(n, k), steps[..|steps| - 1]).s, steps[|steps| - 1]);
    }
  }

  lemma ExactStep(cap: nat, y: System, step: Step, id: JobId)
    requires Exact(y, id) && KeyedLeases(y.s.m.inflight) && !Next(cap, y, step).h.repeated
    ensures Exact(Next(cap, y, step), id)
  {
    if step.By? {
      if step.c < |y.s.callers| { ExactAction(cap, y, step.c, step.action, id); }
    } else if step.Work? {
      if step.w < |y.s.workers| { ExactTask(cap, y, step.w, step.task, id); }
    } else {
      OtherMoves(cap, y.s.m, y.h, step, id);
    }
  }

  /**
   In every run in which no id is accepted while it is live, each live job is in exactly one
   of queue, timers, in-flight, dead letters with payload and a thread between two steps, and
   every other id is in none of them.
   */
  lemma {:induction false} ExactlyOnePlace(cap: nat, n: nat, k: nat, steps: seq<Step>, id: JobId)
    requires !Run(cap, Fresh(n, k), steps).h.repeated
    ensures Exact(Run(cap, Fresh(n, k), steps), id)
    decreases |steps|
  {
    if steps == [] {
      SumZero(Fresh(n, k).s.callers, InCaller(id));
      SumZero(Fresh(n, k).s.workers, InWorker(id));
    } else {
      var front, step := steps[..|steps| - 1], steps[|steps| - 1];
      var y := Run(cap, Fresh(n, k), front);
      RepeatedStays(cap, y, step);
      ExactlyOnePlace(cap, n, k, front, id);
      RunKeyed(cap, n, k, front);
      ExactStep(cap, y, step, id);
    }
  }

  lemma OrderStep(cap: nat, y: System, step: Step)
    requires y.h.pushes == y.h.pops + y.s.m.q
    ensures Next(cap, y, step).h.pushes == Next(cap, y, step).h.pops + Next(cap, y, step).s.m.q
  {
  }

  /** Dequeue order is push order, in every run. */
  lemma {:induction false} PopsInPushOrder(cap: nat, n: nat, k: nat, steps: seq<Step>)
    ensures var y := Run(cap, Fresh(n, k), steps); y.h.pushes == y.h.pops + y.s.m.q
    decreases |steps|
  {
    if steps != [] {
      PopsInPushOrder(cap, n, k, steps[..|steps| - 1]);
      OrderStep(cap, Run(cap, Fresh(n, k), steps[..|steps| - 1]), steps[|steps| - 1]);
    }
  }
}
