/** The in-process backend as the object it is: each method is steps of the transport in a row. */
module MemoryBackend {
  import opened Common
  import opened Jobs
  import opened MemoryQueue

  lemma StaleOnesFirst(a: seq<Lease>, now: int, timeout: int)
    requires a != []
    ensures StaleOnes(a, now, timeout) == (if Stale(a[0], now, timeout) then [a[0]] else []) + StaleOnes(a[1..], now, timeout)
  {
  }

  lemma {:induction false} StaleOnesAppend(a: seq<Lease>, b: seq<Lease>, now: int, timeout: int)
    ensures StaleOnes(a + b, now, timeout) == StaleOnes(a, now, timeout) + StaleOnes(b, now, timeout)
  {
    if a == [] {
      assert a + b == b;
    } else {
      assert (a + b)[0] == a[0] && (a + b)[1..] == a[1..] + b;
      StaleOnesAppend(a[1..], b, now, timeout);
      StaleOnesFirst(a, now, timeout);
      StaleOnesFirst(a + b, now, timeout);
    }
  }

  predicate DistinctKeys(leases: seq<Lease>) {
    forall i, j :: 0 <= i < j < |leases| ==> leases[i].jobId != leases[j].jobId
  }

  /** Deleting the stale keys one after the other leaves the live leases in their order. */
  function RemoveAll(leases: seq<Lease>, keys: seq<Lease>): seq<Lease> {
    if keys == [] then leases else Remove(RemoveAll(leases, keys[..|keys| - 1]), keys[|keys| - 1].jobId)
  }

  lemma {:induction false} RemoveAllBehind(head: Lease, rest: seq<Lease>, keys: seq<Lease>)
    requires forall i :: 0 <= i < |keys| ==> keys[i].jobId != head.jobId
    ensures RemoveAll([head] + rest, keys) == [head] + RemoveAll(rest, keys)
    decreases |keys|
  {
    if keys != [] { RemoveAllBehind(head, rest, keys[..|keys| - 1]); }
  }

  lemma {:induction false} RemoveAllHead(head: Lease, rest: seq<Lease>, keys: seq<Lease>)
    ensures RemoveAll([head] + rest, [head] + keys) == RemoveAll(rest, keys)
    decreases |keys|
  {
    var all := [head] + keys;
    if keys == [] {
      assert all[..0] == [];
    } else {
      assert all[..|all| - 1] == [head] + keys[..|keys| - 1];
      RemoveAllHead(head, rest, keys[..|keys| - 1]);
    }
  }

  lemma {:induction false} StaleAreMembers(leases: seq<Lease>, now: int, timeout: int)
    ensures forall i :: 0 <= i < |StaleOnes(leases, now, timeout)| ==> StaleOnes(leases, now, timeout)[i] in leases
  {
    if leases != [] { StaleAreMembers(leases[1..], now, timeout); }
  }

  lemma {:induction false} RemoveAllStale(leases: seq<Lease>, now: int, timeout: int)
    requires DistinctKeys(leases)
    ensures RemoveAll(leases, StaleOnes(leases, now, timeout)) == LiveOnes(leases, now, timeout)
  {
    if leases != [] {
      var head, rest := leases[0], leases[1..];
      assert leases == [head] + rest;
      RemoveAllStale(rest, now, timeout);
      StaleAreMembers(rest, now, timeout);
      if Stale(head, now, timeout) {
        RemoveAllHead(head, rest, StaleOnes(rest, now, timeout));
      } else {
        RemoveAllBehind(head, rest, StaleOnes(rest, now, timeout));
        assert StaleOnes(leases, now, timeout) == StaleOnes(rest, now, timeout);
      }
    }
  }

  lemma {:induction false} DistinctPut(leases: seq<Lease>, lease: Lease)
    requires DistinctKeys(leases)
    ensures DistinctKeys(Put(leases, lease))
    ensures forall i :: 0 <= i < |Put(leases, lease)| ==> Put(leases, lease)[i] == lease || Put(leases, lease)[i] in leases
  {
    if leases != [] { DistinctPut(leases[1..], lease); }
  }

  lemma {:induction false} DistinctRemove(leases: seq<Lease>, id: JobId)
    requires DistinctKeys(leases)
    ensures DistinctKeys(Remove(leases, id))
    ensures forall i :: 0 <= i < |Remove(leases, id)| ==> Remove(leases, id)[i] in leases
  {
    if leases != [] { DistinctRemove(leases[1..], id); }
  }

  /** The steps of one caller and one worker in a row, with no other thread in between. */
  function Alone(cap: nat, s: State, steps: seq<Step>): State
    decreases |steps|
  {
    if steps == [] then s else Apply(cap, Alone(cap, s, steps[..|steps| - 1]), steps[|steps| - 1])
  }

  lemma AloneOne(cap: nat, s: State, a: Step)
    ensures Alone(cap, s, [a]) == Apply(cap, s, a)
  {
    assert [a][..0] == [];
  }

  lemma AloneTwo(cap: nat, s: State, a: Step, b: Step)
    ensures Alone(cap, s, [a, b]) == Apply(cap, Apply(cap, s, a), b)
  {
    assert [a, b][..1] == [a];
    AloneOne(cap, s, a);
  }

  lemma AloneThree(cap: nat, s: State, a: Step, b: Step, c: Step)
    ensures Alone(cap, s, [a, b, c]) == Apply(cap, Apply(cap, Apply(cap, s, a), b), c)
  {
    assert [a, b, c][..2] == [a, b];
    AloneTwo(cap, s, a, b);
  }

  /** Recovery puts while there is room; what it could not put stays in the blocked call. */
  function PutAll(cap: nat, s: State): State
    requires |s.workers| == 2
    decreases if s.workers[1].Recovering? then |s.workers[1].todo| else 0
  {
    if !s.workers[1].Recovering? || s.workers[1].todo == [] || |s.m.q| >= cap then s
    else PutAll(cap, Apply(cap, s, Work(1, PutBack)))
  }

  class Backend {
    const cap: nat
    var q: seq<Payload>
    var inflight: seq<Lease>
    var dead: seq<DeadLetter>
    var timers: seq<Payload>
    var delayedCount: nat
    var blocked: seq<Payload>       // what a recovery thread that is blocked in put still holds

    ghost predicate Valid()
      reads this
    {
      DistinctKeys(inflight)
    }

    ghost function Value(): State
      reads this
    {
      State(Mem(q, inflight, dead, timers, delayedCount, 0), [Ready], [Resting, Holding(blocked)])
    }

    constructor (capacity: nat)
      ensures Valid() && cap == capacity && Value() == Fresh(1, 2).s
    {
      cap := capacity;
      q, inflight, dead, timers, delayedCount, blocked := [], [], [], [], 0, [];
      new;
      assert Fresh(1, 2).s.callers == [Ready] && Fresh(1, 2).s.workers == [Resting, Resting];
    }

    /** False is QueueSaturatedError. */
    method EnqueueJob(payload: Payload) returns (accepted: bool)
      requires Valid()
      modifies this`q
      ensures Valid() && Value() == Alone(cap, old(Value()), [By(0, Count(payload, false)), By(0, Check), By(0, Act)])
      ensures accepted <==> old(|q| + delayedCount) < cap
      ensures accepted ==> q == old(q) + [payload]
    {
      AloneThree(cap, Value(), By(0, Count(payload, false)), By(0, Check), By(0, Act));
      var delayed := delayedCount;
      accepted := |q| + delayed < cap;
      if accepted { q := q + [payload]; }
    }

    method EnqueueJobDelayed(payload: Payload) returns (accepted: bool)
      requires Valid()
      modifies this`timers, this`delayedCount
      ensures Valid()
      ensures Value() == Apply(cap, Alone(cap, old(Value()), [By(0, Count(payload, true)), By(0, Check), By(0, Act)]), By(0, Act))
      ensures accepted <==> old(|q| + delayedCount) < cap
      ensures accepted ==> timers == old(timers) + [payload]
    {
      AloneThree(cap, Value(), By(0, Count(payload, true)), By(0, Check), By(0, Act));
      var delayed := delayedCount;
      accepted := |q| + delayed < cap;
      if accepted {
        delayedCount := delayedCount + 1;
        timers := timers + [payload];
      }
    }

    /** The callback of the k-th armed timer; false is queue.Full raised inside the timer thread. */
    method TimerFires(k: nat) returns (put: bool)
      requires Valid() && k < |timers|
      modifies this`q, this`timers, this`delayedCount
      ensures Valid() && Value() == Alone(cap, old(Value()), [Fire(k), CountDown])
      ensures put <==> old(|q|) < cap
    {
      AloneTwo(cap, Value(), Fire(k), CountDown);
      var payload := timers[k];
      put := |q| < cap;
      if put { q := q + [payload]; }
      delayedCount := if delayedCount > 0 then delayedCount - 1 else 0;
      timers := Without(timers, k);
    }

    method DequeueJob(now: int) returns (job: Option<Payload>)
      requires Valid()
      modifies this`q, this`inflight
      ensures Valid() && Value() == Alone(cap, old(Value()), [Work(0, Get), Work(0, File(now))])
      ensures job == if old(q) == [] then None else Some(old(q)[0])
    {
      AloneTwo(cap, Value(), Work(0, Get), Work(0, File(now)));
      if q == [] { return None; }
      job := Some(q[0]);
      DistinctPut(inflight, Lease(q[0].jobId, q[0], now));
      inflight := Put(inflight, Lease(q[0].jobId, q[0], now));
      q := q[1..];
    }

    method AckJob(jobId: JobId)
      requires Valid()
      modifies this`inflight
      ensures Valid() && Value() == Apply(cap, old(Value()), Ack(jobId))
    {
      DistinctRemove(inflight, jobId);
      inflight := Remove(inflight, jobId);
    }

    method FailJob(jobId: JobId, error: string, now: int)
      requires Valid()
      modifies this`inflight, this`dead
      ensures Valid() && Value() == Alone(cap, old(Value()), [Work(0, TakeLease(jobId)), Work(0, AppendLetter(error, now))])
    {
      AloneTwo(cap, Value(), Work(0, TakeLease(jobId)), Work(0, AppendLetter(error, now)));
      var found := Find(inflight, jobId);
      DistinctRemove(inflight, jobId);
      inflight := Remove(inflight, jobId);
      dead := dead + [DeadLetter(jobId, if found.Some? then Some(found.value.payload) else None, error, now)];
    }

    /**
     The three loops of requeue_stale_jobs: collect the stale leases, delete them, put their
     jobs back.  The call has returned exactly when `blocked` is empty again; otherwise its
     thread is blocked in `put` on a full queue, still holds the rest and makes no other call.
     */
    method RequeueStaleJobs(now: int, timeout: int) returns (count: nat)
      requires Valid() && blocked == []
      modifies this`q, this`inflight, this`blocked
      ensures Valid() && Value() == PutAll(cap, Apply(cap, old(Value()), Work(1, TakeStale(now, timeout))))
      ensures count == |StaleOnes(old(inflight), now, timeout)|
    {
      var toRequeue := CollectStale(now, timeout);
      RemoveAllStale(inflight, now, timeout);
      DeleteLeases(toRequeue);
      blocked := Payloads(toRequeue);
      count := |toRequeue|;
      assert Value() == Apply(cap, old(Value()), Work(1, TakeStale(now, timeout)));
      PutJobsBack();
    }

    method CollectStale(now: int, timeout: int) returns (toRequeue: seq<Lease>)
      ensures toRequeue == StaleOnes(inflight, now, timeout)
    {
      toRequeue := [];
      var i := 0;
      while i < |inflight|
        invariant 0 <= i <= |inflight|
        invariant toRequeue == StaleOnes(inflight[..i], now, timeout)
      {
        assert inflight[..i + 1] == inflight[..i] + [inflight[i]];
        StaleOnesAppend(inflight[..i], [inflight[i]], now, timeout);
        if Stale(inflight[i], now, timeout) { toRequeue := toRequeue + [inflight[i]]; }
        i := i + 1;
      }
      assert inflight[..|inflight|] == inflight;
    }

    method DeleteLeases(keys: seq<Lease>)
      requires Valid()
      modifies this`inflight
      ensures Valid() && inflight == RemoveAll(old(inflight), keys)
    {
      var i := 0;
      while i < |keys|
        invariant 0 <= i <= |keys|
        invariant Valid() && inflight == RemoveAll(old(inflight), keys[..i])
      {
        assert keys[..i + 1][..i] == keys[..i];
        DistinctRemove(inflight, keys[i].jobId);
        inflight := Remove(inflight, keys[i].jobId);
        i := i + 1;
      }
      assert keys[..|keys|] == keys;
    }

    method PutJobsBack()
      requires Valid()
      modifies this`q, this`blocked
      ensures Valid() && Value() == PutAll(cap, old(Value()))
    {
      while blocked != [] && |q| < cap
        invariant Valid() && PutAll(cap, Value()) == PutAll(cap, old(Value()))
        decreases |blocked|
      {
        ghost var before := Value();
        q, blocked := q + [blocked[0]], blocked[1..];
        assert Value() == Apply(cap, before, Work(1, PutBack));
      }
    }

    method RemoveDeadLetter(jobId: JobId) returns (removed: bool)
      requires Valid()
      modifies this`dead
      ensures Valid() && Value() == Apply(cap, old(Value()), RemoveLetter(jobId))
      ensures removed <==> exists i :: 0 <= i < |old(dead)| && old(dead)[i].jobId == jobId
    {
      var k := 0;
      while k < |dead| && dead[k].jobId != jobId
        invariant 0 <= k <= |dead|
        invariant forall i :: 0 <= i < k ==> dead[i].jobId != jobId
      {
        k := k + 1;
      }
      removed := k < |dead|;
      assert k == LetterIndex(dead, jobId);
      if removed { dead := Without(dead, k); }
    }

    method DrainDeadLetters() returns (count: nat)
      requires Valid()
      modifies this`dead
      ensures Valid() && Value() == Apply(cap, old(Value()), Drain)
      ensures count == |old(dead)|
    {
      count := |dead|;
      dead := [];
    }
  }
}
