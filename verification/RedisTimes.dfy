/** When the Redis transport takes leases back and promotes delayed jobs, in terms of when they were filed and delayed. */
module RedisTimes {
  import opened Common
  import opened Jobs
  import opened RedisQueue

  // ------------------------------------------------------------------ leases

  /** At step i a worker that had popped the payload filed this lease. */
  ghost predicate FiledAt(cap: nat, n: nat, steps: seq<Step>, e: Entry, i: nat) {
    && i < |steps| && steps[i].By? && steps[i].call.Record? && steps[i].call.at == e.dequeuedAt
    && steps[i].w < |Run(cap, Fresh(n), steps[..i]).s.hands|
    && Run(cap, Fresh(n), steps[..i]).s.hands[steps[i].w] == Popped(e.payload)
  }

  ghost predicate WasFiled(cap: nat, n: nat, steps: seq<Step>, e: Entry) { exists i: nat :: FiledAt(cap, n, steps, e, i) }

  /** Some lease of the payload was filed more than the timeout before. */
  ghost predicate WasStale(cap: nat, n: nat, steps: seq<Step>, p: Payload, now: int, timeout: int) {
    exists e: Entry :: WasFiled(cap, n, steps, e) && e.payload == p && now - e.dequeuedAt > timeout
  }

  ghost predicate AllFiled(cap: nat, n: nat, steps: seq<Step>, todo: seq<Lease>) {
    forall i :: 0 <= i < |todo| ==> WasFiled(cap, n, steps, todo[i].entry)
  }

  /** What a worker holds of leases was filed in this run, and what it recovers was stale. */
  ghost predicate HandDated(cap: nat, n: nat, steps: seq<Step>, h: Hand) {
    match h
    case Filed(e) => WasFiled(cap, n, steps, e)
    case Scanning(_, _, todo) => AllFiled(cap, n, steps, todo)
    case Recovering(p, now, timeout, todo) => AllFiled(cap, n, steps, todo) && WasStale(cap, n, steps, p, now, timeout)
    case Repushed(p, now, timeout, todo) => AllFiled(cap, n, steps, todo) && WasStale(cap, n, steps, p, now, timeout)
    case _ => true
  }

  ghost predicate StoreDated(cap: nat, n: nat, steps: seq<Step>, r: Store) {
    forall id :: id in r.inflight ==> WasFiled(cap, n, steps, r.inflight[id])
  }

  ghost predicate Dated(cap: nat, n: nat, steps: seq<Step>, s: State) {
    StoreDated(cap, n, steps, s.store) && forall w :: 0 <= w < |s.hands| ==> HandDated(cap, n, steps, s.hands[w])
  }

  lemma FiledStays(cap: nat, n: nat, steps: seq<Step>, step: Step, e: Entry)
    requires WasFiled(cap, n, steps, e)
    ensures WasFiled(cap, n, steps + [step], e)
  {
    var i: nat :| FiledAt(cap, n, steps, e, i);
    assert (steps + [step])[..i] == steps[..i];
    assert FiledAt(cap, n, steps + [step], e, i);
  }

  lemma FiledNow(cap: nat, n: nat, steps: seq<Step>, w: nat, at: int, answered: bool, p: Payload)
    requires w < n && w < |Run(cap, Fresh(n), steps).s.hands| && Run(cap, Fresh(n), steps).s.hands[w] == Popped(p)
    ensures WasFiled(cap, n, steps + [By(w, Record(at, answered))], Entry(p, at))
  {
    var more := steps + [By(w, Record(at, answered))];
    assert more[..|steps|] == steps;
    assert FiledAt(cap, n, more, Entry(p, at), |steps|);
  }

  lemma StaleStays(cap: nat, n: nat, steps: seq<Step>, step: Step, p: Payload, now: int, timeout: int)
    requires WasStale(cap, n, steps, p, now, timeout)
    ensures WasStale(cap, n, steps + [step], p, now, timeout)
  {
    var e: Entry :| WasFiled(cap, n, steps, e) && e.payload == p && now - e.dequeuedAt > timeout;
    FiledStays(cap, n, steps, step, e);
  }

  lemma HandStays(cap: nat, n: nat, steps: seq<Step>, step: Step, h: Hand)
    requires HandDated(cap, n, steps, h)
    ensures HandDated(cap, n, steps + [step], h)
  {
    match h
    case Filed(e) => FiledStays(cap, n, steps, step, e);
    case Scanning(_, _, todo) => TodoStays(cap, n, steps, step, todo);
    case Recovering(p, now, timeout, todo) =>
      TodoStays(cap, n, steps, step, todo);
      StaleStays(cap, n, steps, step, p, now, timeout);
    case Repushed(p, now, timeout, todo) =>
      TodoStays(cap, n, steps, step, todo);
      StaleStays(cap, n, steps, step, p, now, timeout);
    case _ =>
  }

  lemma TodoStays(cap: nat, n: nat, steps: seq<Step>, step: Step, todo: seq<Lease>)
    requires AllFiled(cap, n, steps, todo)
    ensures AllFiled(cap, n, steps + [step], todo)
  {
    forall i | 0 <= i < |todo| ensures WasFiled(cap, n, steps + [step], todo[i].entry) {
      FiledStays(cap, n, steps, step, todo[i].entry);
    }
  }

  lemma DatedStays(cap: nat, n: nat, steps: seq<Step>, step: Step, s: State)
    requires Dated(cap, n, steps, s)
    ensures Dated(cap, n, steps + [step], s)
  {
    forall id | id in s.store.inflight ensures WasFiled(cap, n, steps + [step], s.store.inflight[id]) {
      FiledStays(cap, n, steps, step, s.store.inflight[id]);
    }
    forall w | 0 <= w < |s.hands| ensures HandDated(cap, n, steps + [step], s.hands[w]) {
      HandStays(cap, n, steps, step, s.hands[w]);
    }
  }

  lemma ScanNextDated(cap: nat, n: nat, steps: seq<Step>, r: Store, h: Hand)
    requires StoreDated(cap, n, steps, r) && HandDated(cap, n, steps, h)
    ensures StoreDated(cap, n, steps, StoreAfter(r, h, ScanNext)) && HandDated(cap, n, steps, HandAfter(r, h, ScanNext))
  {
    if Reclaims(r, h) {
      var e := h.todo[0].entry;
      assert WasFiled(cap, n, steps, e) && h.now - e.dequeuedAt > h.timeout;
      assert WasStale(cap, n, steps, e.payload, h.now, h.timeout);
    }
  }

  /** One call, when everything before it is dated by `steps`, which include the call. */
  lemma CallDated(cap: nat, n: nat, steps: seq<Step>, r: Store, h: Hand, call: Call)
    requires StoreDated(cap, n, steps, r) && HandDated(cap, n, steps, h)
    requires call.Record? && h.Popped? ==> WasFiled(cap, n, steps, Entry(h.payload, call.at))
    ensures StoreDated(cap, n, steps, StoreAfter(r, h, call)) && HandDated(cap, n, steps, HandAfter(r, h, call))
  {
    if call.ScanNext? { ScanNextDated(cap, n, steps, r, h); }
  }

  lemma StepDated(cap: nat, n: nat, steps: seq<Step>, s: State, step: Step)
    requires Dated(cap, n, steps, s)
    requires step.By? && step.call.Record? && step.w < |s.hands| && s.hands[step.w].Popped? ==>
               WasFiled(cap, n, steps, Entry(s.hands[step.w].payload, step.call.at))
    ensures Dated(cap, n, steps, Apply(cap, s, step))
  {
    if step.By? && step.w < |s.hands| {
      assert HandDated(cap, n, steps, s.hands[step.w]);
      CallDated(cap, n, steps, s.store, s.hands[step.w], step.call);
    }
  }

  lemma {:induction false} RunDated(cap: nat, n: nat, steps: seq<Step>)
    ensures Dated(cap, n, steps, Run(cap, Fresh(n), steps).s) && |Run(cap, Fresh(n), steps).s.hands| == n
    decreases |steps|
  {
    if steps != [] {
      var front, step := steps[..|steps| - 1], steps[|steps| - 1];
      assert steps == front + [step];
      RunDated(cap, n, front);
      var s := Run(cap, Fresh(n), front).s;
      DatedStays(cap, n, front, step, s);
      if step.By? && step.call.Record? && step.w < n && s.hands[step.w].Popped? {
        FiledNow(cap, n, front, step.w, step.call.at, step.call.answered, s.hands[step.w].payload);
      }
      StepDated(cap, n, steps, s, step);
    }
  }

  /**
   In every run: every lease carries the time at which its worker filed it, and a job that a
   recovery holds had a lease filed more than the timeout before the recovery's clock.
   */
  lemma RecoveredWasStale(cap: nat, n: nat, steps: seq<Step>, w: nat)
    requires w < |Run(cap, Fresh(n), steps).s.hands|
    ensures var h := Run(cap, Fresh(n), steps).s.hands[w];
            h.Recovering? || h.Repushed? ==> WasStale(cap, n, steps, h.payload, h.now, h.timeout)
    ensures forall id :: id in Run(cap, Fresh(n), steps).s.store.inflight ==>
              WasFiled(cap, n, steps, Run(cap, Fresh(n), steps).s.store.inflight[id])
  {
    RunDated(cap, n, steps);
    assert HandDated(cap, n, steps, Run(cap, Fresh(n), steps).s.hands[w]);
  }

  /** The lease an HDEL of stale recovery takes away is older than the timeout, or was filed again since the scan. */
  lemma TakenIsStaleOrRefiled(r: Store, h: Hand)
    requires Reclaims(r, h)
    ensures var taken := r.inflight[h.todo[0].jobId]; h.now - taken.dequeuedAt > h.timeout || taken != h.todo[0].entry
    ensures h.todo[0].jobId !in StoreAfter(r, h, ScanNext).inflight
  {
  }

  /** A lease within the timeout is left alone as long as it is the one that was scanned. */
  lemma FreshLeaseKept(r: Store, h: Hand, id: JobId)
    requires h.Scanning? && id in r.inflight && h.now - r.inflight[id].dequeuedAt <= h.timeout
    requires h.todo != [] && h.todo[0].jobId == id ==> h.todo[0].entry == r.inflight[id]
    ensures var t := StoreAfter(r, h, ScanNext); id in t.inflight && t.inflight[id] == r.inflight[id]
  {
  }

  // ------------------------------------------------------------------ delays

  ghost predicate DelayedBy(steps: seq<Step>, p: Payload, at: int) {
    exists i :: 0 <= i < |steps| && steps[i] == Client(EnqueueDelayed(p, at))
  }

  lemma DelayedStays(steps: seq<Step>, step: Step, p: Payload, at: int)
    requires DelayedBy(steps, p, at)
    ensures DelayedBy(steps + [step], p, at)
  {
    var i :| 0 <= i < |steps| && steps[i] == Client(EnqueueDelayed(p, at));
    assert (steps + [step])[i] == steps[i];
  }

  lemma CallsLeaveDelayed(r: Store, h: Hand, call: Call)
    ensures StoreAfter(r, h, call).delayed == r.delayed
  {
  }

  /** Only a request gives a delayed job its time. */
  lemma DelayedOnlyByRequest(cap: nat, s: State, step: Step, p: Payload)
    ensures var (before, after) := (s.store.delayed, Apply(cap, s, step).store.delayed);
            p in after ==> (p in before && before[p] == after[p]) || step == Client(EnqueueDelayed(p, after[p]))
  {
    if step.By? && step.w < |s.hands| { CallsLeaveDelayed(s.store, s.hands[step.w], step.call); }
  }

  /** A delayed job waits under the time of some request that delayed it. */
  lemma {:induction false} ScoresWereGiven(cap: nat, n: nat, steps: seq<Step>, p: Payload)
    requires p in Run(cap, Fresh(n), steps).s.store.delayed
    ensures DelayedBy(steps, p, Run(cap, Fresh(n), steps).s.store.delayed[p])
    decreases |steps|
  {
    if steps != [] {
      var front, step := steps[..|steps| - 1], steps[|steps| - 1];
      assert steps == front + [step];
      var before, after := Run(cap, Fresh(n), front).s.store.delayed, Run(cap, Fresh(n), steps).s.store.delayed;
      if p in before && before[p] == after[p] {
        ScoresWereGiven(cap, n, front, p);
        DelayedStays(front, step, p, after[p]);
      } else {
        DelayedOnlyByRequest(cap, Run(cap, Fresh(n), front).s, step, p);
        assert steps[|front|] == step;
      }
    }
  }

  /**
   Nothing is promoted before its time: what a promotion at `now` moves was delayed by some
   request to a time not after `now`.  When it moves fewer than a hundred, nothing due is
   left, and what is left is never due before what was moved.
   */
  lemma PromotedWhenDue(cap: nat, n: nat, steps: seq<Step>, now: int, ready: seq<Payload>, p: Payload)
    ensures var (r, t) := (Run(cap, Fresh(n), steps).s.store, Run(cap, Fresh(n), steps + [Client(Promote(now, ready))]).s.store);
            && (p in r.delayed && p !in t.delayed ==> p in t.main && exists at :: DelayedBy(steps, p, at) && at <= now)
            && (p in t.delayed && t != r ==> p in r.delayed && t.delayed[p] == r.delayed[p])
            && (p in t.delayed && t.delayed[p] <= now && t != r ==>
                  |ready| == 100 && forall q :: q in r.delayed && q !in t.delayed ==> r.delayed[q] <= t.delayed[p])
  {
    RunSnoc(cap, Fresh(n), steps, Client(Promote(now, ready)));
    var r := Run(cap, Fresh(n), steps).s.store;
    if p in r.delayed { ScoresWereGiven(cap, n, steps, p); }
  }

  // ------------------------------------------------------------------ there is always a batch and a scan

  lemma {:induction false} Earliest(due: set<Payload>, delayed: map<Payload, int>) returns (p: Payload)
    requires due != {} && due <= delayed.Keys
    ensures p in due && forall q :: q in due ==> delayed[p] <= delayed[q]
    decreases |due|
  {
    p :| p in due;
    if due != {p} {
      var rest := due - {p};
      var q := Earliest(rest, delayed);
      if delayed[q] < delayed[p] { p := q; }
    }
  }

  /** The payloads in the order of their times. */
  ghost predicate Timed(s: seq<Payload>, delayed: map<Payload, int>) {
    && (forall i :: 0 <= i < |s| ==> s[i] in delayed)
    && (forall i, j :: 0 <= i < j < |s| ==> s[i] != s[j] && delayed[s[i]] <= delayed[s[j]])
  }

  lemma {:induction false} InTime(due: set<Payload>, delayed: map<Payload, int>) returns (s: seq<Payload>)
    requires due <= delayed.Keys
    ensures Timed(s, delayed) && forall p :: p in s <==> p in due
    decreases |due|
  {
    s := [];
    if due != {} {
      var p := Earliest(due, delayed);
      var rest := InTime(due - {p}, delayed);
      assert forall i :: 0 <= i < |rest| ==> rest[i] in due - {p};
      s := [p] + rest;
    }
  }

  /** Whatever is delayed, a promotion finds its batch, and an empty one only when nothing is due. */
  lemma BatchExists(delayed: map<Payload, int>, now: int) returns (ready: seq<Payload>)
    ensures IsReadyBatch(delayed, now, ready)
    ensures ready == [] <==> forall p :: p in delayed ==> delayed[p] > now
  {
    var due := set p | p in delayed && delayed[p] <= now;
    var s := InTime(due, delayed);
    ready := if |s| <= 100 then s else s[..100];
    forall p | p in delayed && delayed[p] <= now && p !in ready
      ensures |ready| == 100 && forall i :: 0 <= i < |ready| ==> delayed[ready[i]] <= delayed[p]
    {
      assert p in s;
      var k :| 0 <= k < |s| && s[k] == p;
      assert k >= 100;
    }
    forall i | 0 <= i < |ready| ensures ready[i] in delayed && delayed[ready[i]] <= now { assert s[i] in s; }
    if ready == [] {
      forall p | p in delayed ensures delayed[p] > now { assert p in due <==> p in s; }
    } else {
      assert ready[0] in delayed;
    }
  }

  lemma {:induction false} Listing(ids: set<JobId>) returns (order: seq<JobId>)
    ensures (forall id :: id in order <==> id in ids) && forall i, j :: 0 <= i < j < |order| ==> order[i] != order[j]
    decreases |ids|
  {
    order := [];
    if ids != {} {
      var id :| id in ids;
      var rest := Listing(ids - {id});
      order := [id] + rest;
    }
  }

  /** Whatever is in flight, a scan lists it. */
  lemma ScanExists(inflight: map<JobId, Entry>) returns (order: seq<JobId>)
    ensures IsScanOrder(inflight, order)
  {
    order := Listing(inflight.Keys);
    forall i | 0 <= i < |order| ensures order[i] in inflight { assert order[i] in order; }
  }

  /** And it lists every lease exactly once, with its entry. */
  lemma ScannedOnce(inflight: map<JobId, Entry>, order: seq<JobId>, id: JobId)
    requires IsScanOrder(inflight, order) && id in inflight
    ensures exists k :: 0 <= k < |order| && Leases(inflight, order)[k] == Lease(id, inflight[id])
    ensures forall i, j :: 0 <= i < j < |order| ==> Leases(inflight, order)[i].jobId != Leases(inflight, order)[j].jobId
  {
    var k :| 0 <= k < |order| && order[k] == id;
    assert Leases(inflight, order)[k] == Lease(id, inflight[id]);
  }
}
