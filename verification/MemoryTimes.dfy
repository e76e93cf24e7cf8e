/** When the in-process transport takes leases back, in terms of when they were filed. */
module MemoryTimes {
  import opened Common
  import opened Jobs
  import opened MemoryQueue

  /** Stale recovery takes the leases older than the timeout and leaves the others. */
  lemma {:induction false} StaleExactly(leases: seq<Lease>, now: int, timeout: int, l: Lease)
    ensures l in StaleOnes(leases, now, timeout) <==> l in leases && now - l.dequeuedAt > timeout
    ensures l in LiveOnes(leases, now, timeout) <==> l in leases && now - l.dequeuedAt <= timeout
  {
    if leases != [] { StaleExactly(leases[1..], now, timeout, l); }
  }

  /** At step i a worker that had taken the payload off the queue filed this lease. */
  ghost predicate FiledAt(cap: nat, y: System, steps: seq<Step>, l: Lease, i: nat) {
    && i < |steps| && steps[i].Work? && steps[i].task == File(l.dequeuedAt) && l.jobId == l.payload.jobId
    && steps[i].w < |Run(cap, y, steps[..i]).s.workers|
    && Run(cap, y, steps[..i]).s.workers[steps[i].w] == Took(l.payload)
  }

  ghost predicate WasFiled(cap: nat, y: System, steps: seq<Step>, l: Lease) { exists i: nat :: FiledAt(cap, y, steps, l, i) }

  lemma FiledStays(cap: nat, y: System, steps: seq<Step>, step: Step, l: Lease)
    requires WasFiled(cap, y, steps, l)
    ensures WasFiled(cap, y, steps + [step], l)
  {
    var i: nat :| FiledAt(cap, y, steps, l, i);
    assert (steps + [step])[..i] == steps[..i];
    assert FiledAt(cap, y, steps + [step], l, i);
  }

  lemma {:induction false} PutIn(leases: seq<Lease>, lease: Lease, l: Lease)
    ensures l in Put(leases, lease) ==> l in leases || l == lease
  {
    if leases != [] { PutIn(leases[1..], lease, l); }
  }

  lemma {:induction false} RemoveIn(leases: seq<Lease>, id: JobId, l: Lease)
    ensures l in Remove(leases, id) ==> l in leases
  {
    if leases != [] { RemoveIn(leases[1..], id, l); }
  }

  /** The only new lease a step can leave is the one a worker files. */
  lemma NewLease(cap: nat, s: State, step: Step, l: Lease)
    requires l in Apply(cap, s, step).m.inflight
    ensures || l in s.m.inflight
            || (&& step.Work? && step.task == File(l.dequeuedAt) && l.jobId == l.payload.jobId
                && step.w < |s.workers| && s.workers[step.w] == Took(l.payload))
  {
    match step
    case Work(w, t) =>
      if w < |s.workers| {
        if t.File? && s.workers[w].Took? {
          PutIn(s.m.inflight, Lease(s.workers[w].payload.jobId, s.workers[w].payload, t.now), l);
        } else if t.TakeLease? {
          RemoveIn(s.m.inflight, t.jobId, l);
        } else if t.TakeStale? {
          StaleExactly(s.m.inflight, t.now, t.timeout, l);
        }
      }
    case Ack(id) => RemoveIn(s.m.inflight, id, l);
    case _ =>
  }

  /** In every run a lease carries the time at which its worker filed it. */
  lemma {:induction false} LeasesWereFiled(cap: nat, n: nat, k: nat, steps: seq<Step>, l: Lease)
    requires l in Run(cap, Fresh(n, k), steps).s.m.inflight
    ensures WasFiled(cap, Fresh(n, k), steps, l)
    decreases |steps|
  {
    if steps != [] {
      var front, step := steps[..|steps| - 1], steps[|steps| - 1];
      assert steps == front + [step];
      NewLease(cap, Run(cap, Fresh(n, k), front).s, step, l);
      if l in Run(cap, Fresh(n, k), front).s.m.inflight {
        LeasesWereFiled(cap, n, k, front, l);
        FiledStays(cap, Fresh(n, k), front, step, l);
      } else {
        assert FiledAt(cap, Fresh(n, k), steps, l, |front|);
      }
    }
  }

  /**
   In every run a recovery at `now` takes a lease back exactly when it was filed more than the
   timeout before; the other leases stay.
   */
  lemma RecoversExactlyStale(cap: nat, n: nat, k: nat, steps: seq<Step>, w: nat, now: int, timeout: int, l: Lease)
    requires var s := Run(cap, Fresh(n, k), steps).s; w < |s.workers| && s.workers[w].Resting? && l in s.m.inflight
    ensures WasFiled(cap, Fresh(n, k), steps, l)
    ensures var t := Apply(cap, Run(cap, Fresh(n, k), steps).s, Work(w, TakeStale(now, timeout)));
            && (l in t.m.inflight <==> now - l.dequeuedAt <= timeout)
            && (now - l.dequeuedAt > timeout ==> t.workers[w].Recovering? && l.payload in t.workers[w].todo)
  {
    LeasesWereFiled(cap, n, k, steps, l);
    var s := Run(cap, Fresh(n, k), steps).s;
    StaleExactly(s.m.inflight, now, timeout, l);
    if now - l.dequeuedAt > timeout {
      var stale := StaleOnes(s.m.inflight, now, timeout);
      var i :| 0 <= i < |stale| && stale[i] == l;
      assert Payloads(stale)[i] == l.payload;
    }
  }
}
