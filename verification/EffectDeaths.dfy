/** The effect gate when callers die or fail to finalize. */
module EffectDeaths {
  import opened Common
  import opened EffectGate

  predicate Landing(o: Outcome) { o.Done? || o.Unobserved? }

  /** Anything may happen, except that an EXACTLY_ONCE caller gets its lock and its row. */
  predicate Guarded(cfg: Config, step: Step) {
    step.By? && cfg.guarantee.ExactlyOnce? ==>
      !step.action.LookFails? && (step.action.Enter? ==> step.action.lockTry.Acquire?)
  }

  predicate AllGuarded(cfg: Config, steps: seq<Step>) {
    forall i :: 0 <= i < |steps| ==> Guarded(cfg, steps[i])
  }

  datatype Log = Log(
    landed: nat,         // bodies that ended in success or unobserved
    lingering: bool,     // the last of them is still only a pending row
    relapses: nat,       // callers whose look let them on over such a row
    reopened: nat)       // operators who declared an unknown effect not landed

  /** The look of a caller that meets a pending row and may run all the same. */
  predicate PassesPending(cfg: Config, s: State, step: Step) {
    && step.By? && step.c < |s.phases| && s.phases[step.c].Gated? && s.row.Pending?
    && step.action.Look? && (step.action.stale || cfg.guarantee.ExactlyOnce?)
  }

  function Note(cfg: Config, s: State, g: Log, step: Step): Log {
    if step == Reconcile(false) then g.(reopened := g.reopened + if s.row.Unknown? then 1 else 0)
    else if PassesPending(cfg, s, step) && g.lingering then g.(relapses := g.relapses + 1, lingering := false)
    else if step.By? && step.c < |s.phases| then
      var p := s.phases[step.c];
      if step.action.Finish? && p.Running? && Landing(step.action.outcome) then g.(landed := g.landed + 1, lingering := true)
      else if step.action.Finalize? && p.Ending? then g.(lingering := false)
      else g
    else g
  }

  function Notes(cfg: Config, n: nat, steps: seq<Step>): Log
    decreases |steps|
  {
    if steps == [] then Log(0, false, 0, 0)
    else
      var front := steps[..|steps| - 1];
      Note(cfg, Run(cfg, n, front), Notes(cfg, n, front), steps[|steps| - 1])
  }

  /** What one caller's phase says when callers may die: a pending row may be nobody's. */
  predicate MortalOk(row: Row, lock: Option<nat>, lingering: bool, c: nat, p: Phase) {
    && (Holding(p) <==> lock == Some(c))
    && (p.Gated? || p.Looked? || Owns(p) ==> p.locked)
    && (Owns(p) ==> p.guarded && row.Pending?)
    && (p.Looked? ==> p.seen == row && !Settled(row))
    && (p.Looked? || p.Admitted? || p.Running? ==> !lingering)
    && (p.Ending? ==> (lingering <==> Landing(p.outcome)))
  }

  predicate MortalInv(s: State, g: Log) {
    && (forall c :: 0 <= c < |s.phases| ==> MortalOk(s.row, s.lock, g.lingering, c, s.phases[c]))
    && (g.lingering ==> s.row.Pending?)
    && g.landed <= g.relapses + g.reopened + if g.lingering || Settled(s.row) then 1 else 0
  }

  lemma MortalStep(cfg: Config, s: State, g: Log, step: Step)
    requires Locks(cfg) && MortalInv(s, g) && Guarded(cfg, step)
    ensures MortalInv(Apply(cfg, s, step), Note(cfg, s, g, step))
  {
  }

  lemma {:induction false} MortalRun(cfg: Config, n: nat, steps: seq<Step>)
    requires Locks(cfg) && AllGuarded(cfg, steps)
    ensures MortalInv(Run(cfg, n, steps), Notes(cfg, n, steps))
    decreases |steps|
  {
    if steps != [] {
      var front := steps[..|steps| - 1];
      MortalRun(cfg, n, front);
      MortalStep(cfg, Run(cfg, n, front), Notes(cfg, n, front), steps[|steps| - 1]);
    }
  }

  /**
   With deaths and failed finalizations as well, an effect lands once, plus once for every
   caller that was let on over the pending row of one that landed it and did not finalize it,
   plus once for every time an operator reopened it.
   */
  lemma LandingsBounded(cfg: Config, n: nat, steps: seq<Step>)
    requires Locks(cfg) && AllGuarded(cfg, steps)
    ensures var g := Notes(cfg, n, steps); g.landed <= 1 + g.relapses + g.reopened
  {
    MortalRun(cfg, n, steps);
  }

  /** The row of a body that landed was left pending: its caller died or its finalization failed. */
  predicate Leaves(s: State, step: Step) {
    && step.By? && (step.action.Die? || step.action.FinalizeFails?)
    && step.c < |s.phases| && s.phases[step.c].Ending? && Landing(s.phases[step.c].outcome)
  }

  ghost predicate NeverLeft(cfg: Config, n: nat, steps: seq<Step>) {
    forall i :: 0 <= i < |steps| ==> !Leaves(Run(cfg, n, steps[..i]), steps[i])
  }

  /** While no landed row is left pending, a lingering one belongs to a caller about to finalize it. */
  predicate Attended(s: State, g: Log) {
    g.lingering ==> s.lock.Some? && s.lock.value < |s.phases| && s.phases[s.lock.value].Ending?
  }

  lemma AttendedStep(cfg: Config, s: State, g: Log, step: Step)
    requires Locks(cfg) && MortalInv(s, g) && Guarded(cfg, step) && Attended(s, g) && !Leaves(s, step)
    ensures Attended(Apply(cfg, s, step), Note(cfg, s, g, step))
    ensures Note(cfg, s, g, step).relapses == g.relapses
  {
  }

  /** Deaths elsewhere do no harm: unless a landed row is left pending, nobody relapses. */
  lemma {:induction false} NoRelapse(cfg: Config, n: nat, steps: seq<Step>)
    requires Locks(cfg) && AllGuarded(cfg, steps) && NeverLeft(cfg, n, steps)
    ensures Attended(Run(cfg, n, steps), Notes(cfg, n, steps)) && Notes(cfg, n, steps).relapses == 0
    decreases |steps|
  {
    if steps != [] {
      var front := steps[..|steps| - 1];
      forall i | 0 <= i < |front| ensures !Leaves(Run(cfg, n, front[..i]), front[i]) {
        assert front[..i] == steps[..i] && front[i] == steps[i];
      }
      NoRelapse(cfg, n, front);
      MortalRun(cfg, n, front);
      AttendedStep(cfg, Run(cfg, n, front), Notes(cfg, n, front), steps[|steps| - 1]);
    }
  }

  /** So an effect lands at most once unless its row was left pending or an operator reopened it. */
  lemma LandsOnceUnlessLeft(cfg: Config, n: nat, steps: seq<Step>)
    requires Locks(cfg) && AllGuarded(cfg, steps) && NeverLeft(cfg, n, steps)
    ensures Notes(cfg, n, steps).landed <= 1 + Notes(cfg, n, steps).reopened
  {
    NoRelapse(cfg, n, steps);
    LandingsBounded(cfg, n, steps);
  }

  /** Some guarded run of n callers, k steps long, leads to this state with this log. */
  ghost predicate Reaches(cfg: Config, n: nat, k: nat, s: State, g: Log) {
    if k == 0 then s == Fresh(n) && g == Log(0, false, 0, 0)
    else
      exists s0, g0, step :: Reaches(cfg, n, k - 1, s0, g0) && Guarded(cfg, step) &&
                             s == Apply(cfg, s0, step) && g == Note(cfg, s0, g0, step)
  }

  lemma {:induction false} ReachedByRun(cfg: Config, n: nat, k: nat, s: State, g: Log) returns (steps: seq<Step>)
    requires Reaches(cfg, n, k, s, g)
    ensures |steps| == k && AllGuarded(cfg, steps) && Run(cfg, n, steps) == s && Notes(cfg, n, steps) == g
  {
    steps := [];
    if k > 0 {
      var s0, g0, step :| Reaches(cfg, n, k - 1, s0, g0) && Guarded(cfg, step) &&
                          s == Apply(cfg, s0, step) && g == Note(cfg, s0, g0, step);
      var front := ReachedByRun(cfg, n, k - 1, s0, g0);
      steps := front + [step];
      assert steps[..|steps| - 1] == front;
    }
  }

  ghost predicate OthersStay(s: State, t: State, c: nat) {
    |t.phases| == |s.phases| && forall d :: 0 <= d < |s.phases| && d != c ==> t.phases[d] == s.phases[d]
  }

  /** One action of one caller leads on. */
  lemma Onward(cfg: Config, n: nat, k: nat, s: State, g: Log, c: nat, a: Action, y: Local, h: Log) returns (t: State)
    requires Reaches(cfg, n, k, s, g) && Guarded(cfg, By(c, a)) && c < |s.phases|
    requires Act(cfg, c, Local(s.row, s.lock, s.phases[c]), a) == y && Note(cfg, s, g, By(c, a)) == h
    ensures Reaches(cfg, n, k + 1, t, h) && OthersStay(s, t, c) && Local(t.row, t.lock, t.phases[c]) == y
  {
    t := State(y.row, y.lock, s.phases[c := y.phase]);
  }

  lemma StartsFromLook(cfg: Config, n: nat, k: nat, s: State, g: Log, c: nat) returns (t: State)
    requires Reaches(cfg, n, k, s, g) && c < |s.phases| && s.phases[c] == Looked(true, s.row)
    ensures Reaches(cfg, n, k + 2, t, g) && OthersStay(s, t, c)
    ensures Local(t.row, t.lock, t.phases[c]) == Local(Pending, s.lock, Running(true, true))
  {
    t := Onward(cfg, n, k, s, g, c, Claim, Local(Pending, s.lock, Admitted(true, true)), g);
    t := Onward(cfg, n, k + 1, t, g, c, Start, Local(Pending, s.lock, Running(true, true)), g);
  }

  /** A caller that may claim the row does, and lands the effect. */
  lemma LandsFromLook(cfg: Config, n: nat, k: nat, s: State, g: Log, c: nat, o: Outcome) returns (t: State, h: Log)
    requires Landing(o) && Reaches(cfg, n, k, s, g) && c < |s.phases| && s.phases[c] == Looked(true, s.row)
    ensures Reaches(cfg, n, k + 3, t, h) && OthersStay(s, t, c)
    ensures Local(t.row, t.lock, t.phases[c]) == Local(Pending, s.lock, Ending(true, true, o))
    ensures h == g.(landed := g.landed + 1, lingering := true)
  {
    t := StartsFromLook(cfg, n, k, s, g, c);
    h := g.(landed := g.landed + 1, lingering := true);
    t := Onward(cfg, n, k + 2, t, g, c, Finish(o), Local(Pending, s.lock, Ending(true, true, o)), h);
  }

  /** A caller that takes the lock over a row it may claim. */
  lemma LooksUnderLock(cfg: Config, n: nat, k: nat, s: State, g: Log, c: nat) returns (t: State, h: Log)
    requires Locks(cfg) && Reaches(cfg, n, k, s, g) && s.lock.None? && c < |s.phases| && s.phases[c].Ready? && !Settled(s.row)
    ensures Reaches(cfg, n, k + 2, t, h) && OthersStay(s, t, c)
    ensures Local(t.row, t.lock, t.phases[c]) == Local(s.row, Some(c), Looked(true, s.row))
    ensures h == if s.row.Pending? && g.lingering then g.(relapses := g.relapses + 1, lingering := false) else g
  {
    t := Onward(cfg, n, k, s, g, c, Enter(Acquire), Local(s.row, Some(c), Gated(true)), g);
    h := if s.row.Pending? && g.lingering then g.(relapses := g.relapses + 1, lingering := false) else g;
    t := Onward(cfg, n, k + 1, t, g, c, Look(true), Local(s.row, Some(c), Looked(true, s.row)), h);
  }

  /** The row of a landed effect is pending and nobody is inside. */
  predicate LeftBehind(s: State, g: Log) { g.lingering && s.row.Pending? && s.lock.None? }

  /** Whenever a landed row is left behind, the next caller that finds it stale can land the effect again. */
  lemma LeftBehindLandsAgain(cfg: Config, n: nat, k: nat, s: State, g: Log, c: nat, o: Outcome) returns (t: State, h: Log)
    requires Locks(cfg) && Landing(o) && Reaches(cfg, n, k, s, g) && LeftBehind(s, g) && c < |s.phases| && s.phases[c].Ready?
    ensures Reaches(cfg, n, k + 5, t, h) && h == g.(landed := g.landed + 1, relapses := g.relapses + 1)
  {
    t, h := LooksUnderLock(cfg, n, k, s, g, c);
    t, h := LandsFromLook(cfg, n, k + 2, t, h, c, o);
  }

  /** Caller 0 lands the effect and dies before it finalizes the row. */
  lemma DeathLeavesBehind(cfg: Config, o: Outcome) returns (s: State, g: Log)
    requires Locks(cfg) && Landing(o)
    ensures Reaches(cfg, 2, 6, s, g) && LeftBehind(s, g) && g == Log(1, true, 0, 0) && |s.phases| == 2 && s.phases[1].Ready?
  {
    s, g := LooksUnderLock(cfg, 2, 0, Fresh(2), Log(0, false, 0, 0), 0);
    s, g := LandsFromLook(cfg, 2, 2, s, g, 0, o);
    s := Onward(cfg, 2, 5, s, g, 0, Die, Local(Pending, None, Dead), g);
  }

  /** Under every locking configuration one death between landing and finalization lets an effect land twice. */
  lemma DeathLandsTwice(cfg: Config, o: Outcome) returns (steps: seq<Step>)
    requires Locks(cfg) && Landing(o)
    ensures AllGuarded(cfg, steps) && Notes(cfg, 2, steps) == Log(2, true, 1, 0)
  {
    var s, g := DeathLeavesBehind(cfg, o);
    s, g := LeftBehindLandsAgain(cfg, 2, 6, s, g, 1, o);
    steps := ReachedByRun(cfg, 2, 11, s, g);
  }
}
