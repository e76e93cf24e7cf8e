/** Runs of the in-process transport in which a timer loses its job, and exactly when there are any. */
module MemoryRaces {
  import opened Common
  import opened Jobs
  import opened MemoryQueue

  /** The whole of an undisturbed enqueue that finds room. */
  lemma EnqueueFits(cap: nat, y: System, c: nat, p: Payload)
    requires c < |y.s.callers| && y.s.callers[c] == Ready && y.s.m.delayedCount + |y.s.m.q| < cap
    ensures Next(cap, Next(cap, Next(cap, y, By(c, Count(p, false))), By(c, Check)), By(c, Act)) ==
            System(y.s.(m := y.s.m.(q := y.s.m.q + [p])), Pushed(Accept(y.h, p), p))
  {
    var y1 := Next(cap, y, By(c, Count(p, false)));
    assert y1.s.callers[c] == Counted(p, false, y.s.m.delayedCount);
    var y2 := Next(cap, y1, By(c, Check));
    assert y2.s.callers[c] == Passed(p, false);
    assert y2.s.callers[c := Ready] == y.s.callers;
  }

  /** Jobs with ids of every length. */
  function Job(i: nat): Payload { Payload(seq(i, _ => 'a'), "") }

  function Filling(j: nat): seq<Step> {
    if j == 0 then []
    else Filling(j - 1) + [By(0, Count(Job(j - 1), false))] + [By(0, Check)] + [By(0, Act)]
  }

  /** A system with j jobs queued and nothing else going on. */
  ghost predicate Filled(n: nat, k: nat, j: nat, y: System) {
    && |y.s.m.q| == j && y.s == State(EMPTY.(q := y.s.m.q), Fresh(n, k).s.callers, Fresh(n, k).s.workers)
    && y.h.forced == 0 && y.h.lost == {} && !y.h.repeated && (forall id :: id in y.h.live ==> |id| < j)
  }

  lemma {:induction false} FillingFills(cap: nat, n: nat, k: nat, j: nat)
    requires 0 < n && j <= cap
    ensures Filled(n, k, j, Run(cap, Fresh(n, k), Filling(j)))
  {
    if j > 0 {
      FillingFills(cap, n, k, j - 1);
      var f, p := Filling(j - 1), Job(j - 1);
      var y := Run(cap, Fresh(n, k), f);
      RunSnoc(cap, Fresh(n, k), f, By(0, Count(p, false)));
      RunSnoc(cap, Fresh(n, k), f + [By(0, Count(p, false))], By(0, Check));
      RunSnoc(cap, Fresh(n, k), f + [By(0, Count(p, false))] + [By(0, Check)], By(0, Act));
      EnqueueFits(cap, y, 0, p);
      FilledNext(n, k, j - 1, y);
    }
  }

  lemma FilledNext(n: nat, k: nat, j: nat, y: System)
    requires Filled(n, k, j, y)
    ensures Filled(n, k, j + 1, System(y.s.(m := y.s.m.(q := y.s.m.q + [Job(j)])), Pushed(Accept(y.h, Job(j)), Job(j))))
  {
  }

  /** Producer 0 enqueues and producer 1 enqueues with a delay: both find the last place, then both take it. */
  function Racing(a: Payload, b: Payload): seq<Step> {
    [By(0, Count(a, false)), By(0, Check), By(1, Count(b, true)), By(1, Check), By(1, Act), By(1, Act), By(0, Act), Fire(0)]
  }

  function Played(cap: nat, y: System, steps: seq<Step>): System
    decreases |steps|
  {
    if steps == [] then y else Played(cap, Next(cap, y, steps[0]), steps[1..])
  }

  lemma {:induction false} PlayedAfter(cap: nat, y: System, front: seq<Step>, steps: seq<Step>)
    ensures Run(cap, y, front + steps) == Played(cap, Run(cap, y, front), steps)
    decreases |steps|
  {
    if steps == [] {
      assert front + steps == front;
    } else {
      FirstMoved(front, steps);
      PlayedAfter(cap, y, front + [steps[0]], steps[1..]);
      RunSnoc(cap, y, front, steps[0]);
    }
  }

  lemma BothPass(cap: nat, y: System, a: Payload, b: Payload)
    requires |y.s.callers| >= 2 && y.s.callers[0] == Ready && y.s.callers[1] == Ready
    requires y.s.m.delayedCount + |y.s.m.q| < cap
    ensures Played(cap, y, Racing(a, b)[..4]) ==
            y.(s := y.s.(callers := y.s.callers[0 := Passed(a, false)][1 := Passed(b, true)]))
  {
    var d := y.s.m.delayedCount;
    var y1 := y.(s := y.s.(callers := y.s.callers[0 := Counted(a, false, d)]));
    var y2 := y.(s := y.s.(callers := y.s.callers[0 := Passed(a, false)]));
    var y3 := y.(s := y.s.(callers := y.s.callers[0 := Passed(a, false)][1 := Counted(b, true, d)]));
    var y4 := y.(s := y.s.(callers := y.s.callers[0 := Passed(a, false)][1 := Passed(b, true)]));
    var r := Racing(a, b)[..4];
    assert Next(cap, y, r[0]) == y1;
    assert Next(cap, y1, r[1]) == y2;
    assert Next(cap, y2, r[2]) == y3;
    assert Next(cap, y3, r[3]) == y4;
    PlayedFour(cap, y, r, y1, y2, y3, y4);
  }

  lemma PlayedFour(cap: nat, y: System, r: seq<Step>, y1: System, y2: System, y3: System, y4: System)
    requires |r| == 4 && Next(cap, y, r[0]) == y1 && Next(cap, y1, r[1]) == y2 && Next(cap, y2, r[2]) == y3 && Next(cap, y3, r[3]) == y4
    ensures Played(cap, y, r) == y4
  {
    assert r[1..][1..] == r[2..] && r[2..][1..] == r[3..] && r[3..][1..] == [];
    assert Played(cap, y, r) == Played(cap, y1, r[1..]) == Played(cap, y2, r[2..]) == Played(cap, y3, r[3..]) == Played(cap, y4, []);
  }

  lemma TimerMeetsFullQueue(cap: nat, y: System, a: Payload, b: Payload)
    requires |y.s.callers| >= 2 && y.s.callers[0] == Passed(a, false) && y.s.callers[1] == Passed(b, true)
    requires y.s.m.timers == [] && |y.s.m.q| + 1 == cap
    ensures var t := Played(cap, y, Racing(a, b)[4..]);
            && t.h.lost == y.h.lost + {b.jobId} && t.h.forced == y.h.forced
            && t.h.repeated == (y.h.repeated || b.jobId in y.h.live || a.jobId in y.h.live + {b.jobId})
  {
    var r := Racing(a, b)[4..];
    var y1 := Next(cap, y, r[0]);
    assert y1.s.callers[1] == Starting(b) && y1.s.callers[0] == Passed(a, false);
    var y2 := Next(cap, y1, r[1]);
    assert y2.s.m.timers == [b] && y2.s.callers[0] == Passed(a, false);
    var y3 := Next(cap, y2, r[2]);
    assert |y3.s.m.q| == cap && y3.s.m.timers == [b];
    PlayedFour(cap, y, r, y1, y2, y3, Next(cap, y3, r[3]));
  }

  /** Two producers that race for the last place make a timer lose its job, without any recovery. */
  lemma ProducersRace(cap: nat, n: nat, k: nat)
    requires cap > 0 && n >= 2
    ensures var y := Run(cap, Fresh(n, k), Filling(cap - 1) + Racing(Job(cap - 1), Job(cap)));
            y.h.lost == {Job(cap).jobId} && y.h.forced == 0 && !y.h.repeated
  {
    FillingFills(cap, n, k, cap - 1);
    RaceFrom(cap, n, k, Filling(cap - 1), Job(cap - 1), Job(cap));
  }

  lemma RaceFrom(cap: nat, n: nat, k: nat, f: seq<Step>, a: Payload, b: Payload)
    requires cap > 0 && n >= 2 && Filled(n, k, cap - 1, Run(cap, Fresh(n, k), f))
    requires |a.jobId| >= cap - 1 && |b.jobId| >= cap - 1 && a.jobId != b.jobId
    ensures var y := Run(cap, Fresh(n, k), f + Racing(a, b)); y.h.lost == {b.jobId} && y.h.forced == 0 && !y.h.repeated
  {
    var y, r := Run(cap, Fresh(n, k), f), Racing(a, b);
    PlayedAfter(cap, Fresh(n, k), f, r[..4]);
    PlayedAfter(cap, Fresh(n, k), f + r[..4], r[4..]);
    assert f + r[..4] + r[4..] == f + r;
    RacePlayed(cap, n, k, y, a, b);
  }

  lemma RacePlayed(cap: nat, n: nat, k: nat, y: System, a: Payload, b: Payload)
    requires cap > 0 && n >= 2 && Filled(n, k, cap - 1, y)
    requires |a.jobId| >= cap - 1 && |b.jobId| >= cap - 1 && a.jobId != b.jobId
    ensures var t := Played(cap, Played(cap, y, Racing(a, b)[..4]), Racing(a, b)[4..]);
            t.h.lost == {b.jobId} && t.h.forced == 0 && !t.h.repeated
  {
    BothPass(cap, y, a, b);
    TimerMeetsFullQueue(cap, Played(cap, y, Racing(a, b)[..4]), a, b);
  }

  /** Timers keep their jobs in every run without forced recovery puts exactly when there is at most one producer. */
  lemma TimersSafeIff(cap: nat, n: nat, k: nat)
    requires cap > 0
    ensures (forall steps :: Run(cap, Fresh(n, k), steps).h.forced == 0 ==> Run(cap, Fresh(n, k), steps).h.lost == {}) <==> n <= 1
  {
    if n <= 1 {
      forall steps | Run(cap, Fresh(n, k), steps).h.forced == 0 ensures Run(cap, Fresh(n, k), steps).h.lost == {} {
        NothingLost(cap, n, k, steps);
      }
    } else {
      ProducersRace(cap, n, k);
      var steps := Filling(cap - 1) + Racing(Job(cap - 1), Job(cap));
      assert Job(cap).jobId in Run(cap, Fresh(n, k), steps).h.lost;
    }
  }

  /** A job is taken and goes stale, a timer is armed, recovery puts the job back, and the timer fires. */
  function Recovery(a: Payload, b: Payload): seq<Step> {
    [By(0, Count(a, false)), By(0, Check), By(0, Act), Work(0, Get),
     Work(0, File(0)), By(0, Count(b, true)), By(0, Check), By(0, Act),
     By(0, Act), Work(0, TakeStale(10, 5)), Work(0, PutBack), Fire(0)]
  }

  lemma RecoveryTakes(y: System, a: Payload, b: Payload)
    requires y == Fresh(1, 1)
    ensures var r := Recovery(a, b);
            Played(1, Played(1, y, r[..4]), r[4..8]) ==
            System(State(EMPTY.(inflight := [Lease(a.jobId, a, 0)], delayedCount := 1), [Starting(b)], [Resting]),
                   Accept(History({a.jobId}, {}, false, 0, [a], [a]), b))
  {
    var r, h := Recovery(a, b), y.h;
    assert y.s.callers == [Ready] && y.s.workers == [Resting];
    var ha := History({a.jobId}, {}, false, 0, [a], []);
    var hb := ha.(pops := [a]);
    var m := EMPTY.(inflight := [Lease(a.jobId, a, 0)]);
    var y1 := System(State(EMPTY, [Counted(a, false, 0)], [Resting]), h);
    var y2 := System(State(EMPTY, [Passed(a, false)], [Resting]), h);
    var y3 := System(State(EMPTY.(q := [a]), [Ready], [Resting]), ha);
    var y4 := System(State(EMPTY, [Ready], [Took(a)]), hb);
    PlayedFour(1, y, r[..4], y1, y2, y3, y4);
    var y5 := System(State(m, [Ready], [Resting]), hb);
    var y6 := System(State(m, [Counted(b, true, 0)], [Resting]), hb);
    var y7 := System(State(m, [Passed(b, true)], [Resting]), hb);
    var y8 := System(State(m.(delayedCount := 1), [Starting(b)], [Resting]), Accept(hb, b));
    PlayedFour(1, y4, r[4..8], y5, y6, y7, y8);
  }

  lemma OneStale(lease: Lease, now: int, timeout: int)
    requires Stale(lease, now, timeout)
    ensures Payloads(StaleOnes([lease], now, timeout)) == [lease.payload] && LiveOnes([lease], now, timeout) == []
  {
    assert [lease][1..] == [];
  }

  lemma PutsBack(y: System, a: Payload)
    requires y.s.m.q == [] && |y.s.m.timers| == 1 && y.s.callers == [Ready] && y.s.workers == [Recovering([a])]
    ensures Next(1, y, Work(0, PutBack)) ==
            System(State(y.s.m.(q := [a]), [Ready], [Resting]), Pushed(y.h.(forced := y.h.forced + 1), a))
  {
    assert [a][1..] == [];
    assert y.s.workers[0 := Resting] == [Resting];
  }

  lemma RecoveryFills(y: System, a: Payload, b: Payload)
    requires y.s == State(EMPTY.(inflight := [Lease(a.jobId, a, 0)], delayedCount := 1), [Starting(b)], [Resting])
    ensures var h := Played(1, y, Recovery(a, b)[8..]).h;
            h.lost == y.h.lost + {b.jobId} && h.repeated == y.h.repeated && h.forced == y.h.forced + 1
  {
    var r, m := Recovery(a, b)[8..], EMPTY.(delayedCount := 1, timers := [b]);
    var y1 := y.(s := State(m.(inflight := y.s.m.inflight), [Ready], [Resting]));
    OneStale(Lease(a.jobId, a, 0), 10, 5);
    var y2 := y.(s := State(m, [Ready], [Recovering([a])]));
    var y3 := System(State(m.(q := [a]), [Ready], [Resting]), Pushed(y.h.(forced := y.h.forced + 1), a));
    assert Next(1, y, r[0]) == y1;
    assert Next(1, y1, r[1]) == y2;
    PutsBack(y2, a);
    PlayedFour(1, y, r, y1, y2, y3, Next(1, y3, r[3]));
  }

  /** With a single producer: a recovery put fills the queue and the timer's job is lost. */
  lemma RecoveryCanLoseATimer(a: Payload, b: Payload)
    requires a.jobId != b.jobId
    ensures var h := Run(1, Fresh(1, 1), Recovery(a, b)).h; h.lost == {b.jobId} && !h.repeated && h.forced == 1
  {
    var y, r := Fresh(1, 1), Recovery(a, b);
    RecoveryTakes(y, a, b);
    assert [] + r[..4] == r[..4] && r[..4] + r[4..8] == r[..8] && r[..8] + r[8..] == r;
    PlayedAfter(1, y, [], r[..4]);
    PlayedAfter(1, y, r[..4], r[4..8]);
    PlayedAfter(1, y, r[..8], r[8..]);
    RecoveryFills(Run(1, y, r[..8]), a, b);
  }
}
