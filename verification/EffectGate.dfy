/**
 The effect gate of execute_tool (AINDY/agents/tool_registry.py) over the effect ledger
 (AINDY/kernel/effect_ledger.py), for the callers of one action id.

 A caller enters (advisory lock), looks at the ledger row, claims or replays it, runs the
 tool body, finalizes the row and releases the lock.  Every database call is one step, so a
 run is any interleaving of any number of callers with crashes and failing calls included.
 The action id fixes the tool, so all callers share one configuration.
 */
module EffectGate {
  import opened Common

  type Value = string

  /** A durable re-drive of an AT_LEAST_ONCE tool takes the EXACTLY_ONCE path. */
  datatype Guarantee = AtMostOnce | ExactlyOnce

  datatype Config = Config(guarantee: Guarantee, strict: bool, lockSupported: bool)

  /** The gate takes the advisory lock, and the database has one. */
  predicate Locks(cfg: Config) {
    cfg.lockSupported && (cfg.strict || cfg.guarantee.AtMostOnce?)
  }

  datatype Row = Absent | Pending | Success(cached: Option<Value>) | Failed | Unknown(detail: string)

  datatype Outcome =
    | Done(value: Value, serializable: bool)
    | Broke
    | Unobserved(why: string)
    | NotRun                     // isolation or cancellation refused the call before its body

  datatype Reply =
    | Refused
    | Replayed(cached: Option<Value>)
    | Held(detail: string)
    | Ran(outcome: Outcome)

  datatype Phase =
    | Ready
    | Gated(locked: bool)                                   // past the lock stage
    | Looked(locked: bool, seen: Row)                       // read a row it may take over
    | Admitted(locked: bool, guarded: bool)                 // may run; guarded: will finalize the row
    | Running(locked: bool, guarded: bool)
    | Ending(locked: bool, guarded: bool, outcome: Outcome) // body over, row not finalized
    | Closing(locked: bool, reply: Reply)                   // about to release
    | Exited(reply: Reply)
    | Dead

  datatype LockTry = Acquire | Timeout | LockError

  datatype Action =
    | Enter(lockTry: LockTry)
    | Look(stale: bool)          // stale: a pending row is older than the threshold
    | LookFails
    | Claim
    | Refuse
    | Start
    | Finish(outcome: Outcome)
    | Finalize
    | FinalizeFails
    | Release
    | Die

  datatype Step = By(c: nat, action: Action) | Reconcile(landed: bool)

  datatype State = State(row: Row, lock: Option<nat>, phases: seq<Phase>)

  datatype Local = Local(row: Row, lock: Option<nat>, phase: Phase)

  // ------------------------------------------------------------------ one caller's step

  function Cached(o: Outcome): Option<Value>
    requires o.Done?
  {
    if o.serializable then Some(o.value) else None
  }

  function FinalRow(o: Outcome): (r: Row)
    ensures r.Success? || r.Failed? || r.Unknown?
  {
    match o
    case Done(_, _) => Success(Cached(o))
    case Unobserved(why) => Unknown(why)
    case _ => Failed
  }

  /** What a row the caller found decides; `Looked` means it may be taken over. */
  function Decide(cfg: Config, locked: bool, row: Row, stale: bool): (p: Phase) {
    match row
    case Success(cached) => Closing(locked, Replayed(cached))
    case Unknown(detail) => Closing(locked, Held(detail))
    case Pending =>
      if stale then Looked(locked, Pending)
      else if cfg.guarantee.AtMostOnce? then Closing(locked, Refused)
      else Admitted(locked, true)
    case _ => Looked(locked, row)
  }

  function Act(cfg: Config, me: nat, x: Local, a: Action): (y: Local) {
    var p := x.phase;
    match a
    case Enter(lockTry) =>
      if !p.Ready? then x
      else if !Locks(cfg) then x.(phase := Gated(false))
      else if lockTry.Acquire? then
        if x.lock.None? then x.(lock := Some(me), phase := Gated(true)) else x
      else if cfg.guarantee.AtMostOnce? then x.(phase := Exited(Refused))
      else x.(phase := Gated(false))
    case Look(stale) => if p.Gated? then x.(phase := Decide(cfg, p.locked, x.row, stale)) else x
    case LookFails =>
      if !p.Gated? then x
      else if cfg.guarantee.AtMostOnce? then x.(phase := Closing(p.locked, Refused))
      else x.(phase := Admitted(p.locked, false))
    case Claim =>
      if !p.Looked? then x
      // the insert hits the unique key when another caller was first: look again
      else if p.seen.Absent? && !x.row.Absent? then x.(phase := Gated(p.locked))
      // an update of the row that was read, whatever it has become
      else x.(row := Pending, phase := Admitted(p.locked, true))
    case Refuse => if p.Admitted? then x.(phase := Ending(p.locked, p.guarded, NotRun)) else x
    case Start => if p.Admitted? then x.(phase := Running(p.locked, p.guarded)) else x
    case Finish(o) => if p.Running? && !o.NotRun? then x.(phase := Ending(p.locked, p.guarded, o)) else x
    case Finalize =>
      if !p.Ending? then x
      else x.(row := if p.guarded && !x.row.Absent? then FinalRow(p.outcome) else x.row,
              phase := Closing(p.locked, Ran(p.outcome)))
    case FinalizeFails => if p.Ending? then x.(phase := Closing(p.locked, Ran(p.outcome))) else x
    case Release =>
      if p.Closing? then x.(lock := if p.locked then None else x.lock, phase := Exited(p.reply)) else x
    case Die => x.(lock := if Holding(p) then None else x.lock, phase := Dead)
  }

  predicate Holding(p: Phase) {
    (p.Gated? || p.Looked? || p.Admitted? || p.Running? || p.Ending? || p.Closing?) && p.locked
  }

  function Apply(cfg: Config, s: State, step: Step): (t: State)
    ensures |t.phases| == |s.phases|
  {
    match step
    case By(c, a) =>
      if c >= |s.phases| then s
      else
        var y := Act(cfg, c, Local(s.row, s.lock, s.phases[c]), a);
        State(y.row, y.lock, s.phases[c := y.phase])
    case Reconcile(landed) =>
      // an operator settles an unknown effect; its held data carries no result
      if s.row.Unknown? then s.(row := if landed then Success(None) else Failed) else s
  }

  function Fresh(n: nat): (s: State) { State(Absent, None, seq(n, _ => Ready)) }

  function Run(cfg: Config, n: nat, steps: seq<Step>): (t: State)
    ensures |t.phases| == n
    decreases |steps|
  {
    if steps == [] then Fresh(n)
    else Apply(cfg, Run(cfg, n, steps[..|steps| - 1]), steps[|steps| - 1])
  }

  // ------------------------------------------------------------------ exclusion

  /** Nobody dies in a call, the ledger takes every finalization, and an EXACTLY_ONCE caller gets its lock and its row. */
  predicate Clean(cfg: Config, step: Step) {
    step.By? ==>
      && !step.action.Die? && !step.action.FinalizeFails?
      && (cfg.guarantee.ExactlyOnce? ==>
            !step.action.LookFails? && (step.action.Enter? ==> step.action.lockTry.Acquire?))
  }

  predicate AllClean(cfg: Config, steps: seq<Step>) {
    forall i :: 0 <= i < |steps| ==> Clean(cfg, steps[i])
  }

  /** The caller has reserved the row and not finalized it. */
  predicate Owns(p: Phase) { p.Admitted? || p.Running? || p.Ending? }

  /** What one caller's phase says about the shared row and lock. */
  predicate PhaseOk(row: Row, lock: Option<nat>, c: nat, p: Phase) {
    && (Holding(p) <==> lock == Some(c))
    && (p.Gated? || p.Looked? || Owns(p) ==> p.locked)
    && (Owns(p) ==> p.guarded && row.Pending?)
    && (p.Looked? ==> p.seen == row && (row.Absent? || row.Failed?))
    && (p.Closing? && p.locked ==> !row.Pending?)
    && !p.Dead?
  }

  predicate Inv(s: State) {
    && (forall c :: 0 <= c < |s.phases| ==> PhaseOk(s.row, s.lock, c, s.phases[c]))
    && (s.row.Pending? ==> s.lock.Some? && s.lock.value < |s.phases| && Owns(s.phases[s.lock.value]))
  }

  lemma StepKeeps(cfg: Config, s: State, step: Step)
    requires Locks(cfg) && Inv(s) && Clean(cfg, step)
    ensures Inv(Apply(cfg, s, step))
  {
  }

  lemma {:induction false} RunInv(cfg: Config, n: nat, steps: seq<Step>)
    requires Locks(cfg) && AllClean(cfg, steps)
    ensures Inv(Run(cfg, n, steps))
    decreases |steps|
  {
    if steps != [] {
      RunInv(cfg, n, steps[..|steps| - 1]);
      StepKeeps(cfg, Run(cfg, n, steps[..|steps| - 1]), steps[|steps| - 1]);
    }
  }

  predicate Exclusive(s: State) {
    forall c, d :: 0 <= c < d < |s.phases| ==> !(s.phases[c].Running? && s.phases[d].Running?)
  }

  lemma ExclusiveUnderLock(cfg: Config, n: nat, steps: seq<Step>)
    requires Locks(cfg) && AllClean(cfg, steps)
    ensures Exclusive(Run(cfg, n, steps))
  {
    RunInv(cfg, n, steps);
    var s := Run(cfg, n, steps);
    forall c, d | 0 <= c < d < n ensures !(s.phases[c].Running? && s.phases[d].Running?) {
      assert PhaseOk(s.row, s.lock, c, s.phases[c]) && PhaseOk(s.row, s.lock, d, s.phases[d]);
    }
  }

  lemma Extend(cfg: Config, n: nat, steps: seq<Step>, step: Step, s: State, t: State)
    requires Run(cfg, n, steps) == s
    requires var r := Apply(cfg, s, step); r.row == t.row && r.lock == t.lock && r.phases == t.phases
    ensures Run(cfg, n, steps + [step]) == t
  {
  }

  function FailedOnce(): seq<Step> {
    [By(0, Enter(Acquire)), By(0, Look(false)), By(0, Claim), By(0, Refuse), By(0, Finalize)]
  }

  lemma RunFailedOnce(cfg: Config)
    requires !Locks(cfg)
    ensures Run(cfg, 3, FailedOnce()) == State(Failed, None, [Closing(false, Ran(NotRun)), Ready, Ready])
  {
    var s0 := State(Absent, None, [Ready, Ready, Ready]);
    assert Fresh(3).phases == s0.phases;
    var s1 := s0.(phases := [Gated(false), Ready, Ready]);
    var f := FailedOnce();
    Extend(cfg, 3, [], f[0], s0, s1);
    assert [] + [f[0]] == [f[0]] && [f[0]] + [f[1]] == [f[0], f[1]] && [f[0], f[1]] + [f[2]] == [f[0], f[1], f[2]];
    assert [f[0], f[1], f[2]] + [f[3]] == [f[0], f[1], f[2], f[3]] && [f[0], f[1], f[2], f[3]] + [f[4]] == f;
    var s2 := s0.(phases := [Looked(false, Absent), Ready, Ready]);
    Extend(cfg, 3, [f[0]], f[1], s1, s2);
    var s3 := State(Pending, None, [Admitted(false, true), Ready, Ready]);
    Extend(cfg, 3, [f[0], f[1]], f[2], s2, s3);
    var s4 := s3.(phases := [Ending(false, true, NotRun), Ready, Ready]);
    Extend(cfg, 3, [f[0], f[1], f[2]], f[3], s3, s4);
    Extend(cfg, 3, [f[0], f[1], f[2], f[3]], f[4], s4, State(Failed, None, [Closing(false, Ran(NotRun)), Ready, Ready]));
  }

  /** Both look before either claims. */
  function Race(): seq<Step> {
    [By(1, Enter(Acquire)), By(2, Enter(Acquire)), By(1, Look(false)), By(2, Look(false)),
     By(1, Claim), By(2, Claim), By(1, Start), By(2, Start)]
  }

  /** Without the lock two callers read one failed row, both reclaim it and both run. */
  lemma RaceWithoutLock(cfg: Config)
    requires !Locks(cfg)
    ensures AllClean(cfg, FailedOnce() + Race()) && !Exclusive(Run(cfg, 3, FailedOnce() + Race()))
  {
    var r, z := Race(), Closing(false, Ran(NotRun));
    var f := FailedOnce();
    RunFailedOnce(cfg);
    var s1 := State(Failed, None, [z, Gated(false), Ready]);
    Extend(cfg, 3, f, r[0], State(Failed, None, [z, Ready, Ready]), s1);
    var s2 := State(Failed, None, [z, Gated(false), Gated(false)]);
    Extend(cfg, 3, f + [r[0]], r[1], s1, s2);
    var s3 := State(Failed, None, [z, Looked(false, Failed), Gated(false)]);
    Extend(cfg, 3, f + [r[0]] + [r[1]], r[2], s2, s3);
    var s4 := State(Failed, None, [z, Looked(false, Failed), Looked(false, Failed)]);
    Extend(cfg, 3, f + [r[0]] + [r[1]] + [r[2]], r[3], s3, s4);
    RaceTail(cfg, f + [r[0]] + [r[1]] + [r[2]] + [r[3]]);
    assert f + [r[0]] + [r[1]] + [r[2]] + [r[3]] + r[4..] == f + r;
  }

  lemma RaceTail(cfg: Config, steps: seq<Step>)
    requires Run(cfg, 3, steps) == State(Failed, None, [Closing(false, Ran(NotRun)), Looked(false, Failed), Looked(false, Failed)])
    ensures !Exclusive(Run(cfg, 3, steps + Race()[4..]))
  {
    var r, z := Race(), Closing(false, Ran(NotRun));
    var s4 := State(Failed, None, [z, Looked(false, Failed), Looked(false, Failed)]);
    var s5 := State(Pending, None, [z, Admitted(false, true), Looked(false, Failed)]);
    Extend(cfg, 3, steps, r[4], s4, s5);
    var s6 := State(Pending, None, [z, Admitted(false, true), Admitted(false, true)]);
    Extend(cfg, 3, steps + [r[4]], r[5], s5, s6);
    var s7 := State(Pending, None, [z, Running(false, true), Admitted(false, true)]);
    Extend(cfg, 3, steps + [r[4]] + [r[5]], r[6], s6, s7);
    var s8 := State(Pending, None, [z, Running(false, true), Running(false, true)]);
    Extend(cfg, 3, steps + [r[4]] + [r[5]] + [r[6]], r[7], s7, s8);
    assert steps + [r[4]] + [r[5]] + [r[6]] + [r[7]] == steps + r[4..];
    assert s8.phases[1].Running? && s8.phases[2].Running?;
  }

  /** Tool bodies never overlap, in every clean run of any number of callers, exactly when the gate locks. */
  lemma ExclusionExactlyUnderLock(cfg: Config)
    ensures (cfg.lockSupported && (cfg.guarantee == AtMostOnce || cfg.strict)) <==>
            forall n, steps :: AllClean(cfg, steps) ==> Exclusive(Run(cfg, n, steps))
  {
    if Locks(cfg) {
      forall n, steps | AllClean(cfg, steps) ensures Exclusive(Run(cfg, n, steps)) {
        ExclusiveUnderLock(cfg, n, steps);
      }
    } else {
      RaceWithoutLock(cfg);
    }
  }

  // ------------------------------------------------------------------ what callers are told

  predicate Settled(row: Row) { row.Success? || row.Unknown? }

  /** Once the row says success or unknown no caller holds a reservation, so no body can start. */
  lemma NoStartOnceSettled(cfg: Config, n: nat, steps: seq<Step>, c: nat)
    requires Locks(cfg) && AllClean(cfg, steps) && c < n
    requires Settled(Run(cfg, n, steps).row)
    ensures !Apply(cfg, Run(cfg, n, steps), By(c, Start)).phases[c].Running?
  {
    RunInv(cfg, n, steps);
    var s := Run(cfg, n, steps);
    assert PhaseOk(s.row, s.lock, c, s.phases[c]);
  }

  function ReplyOf(p: Phase): Option<Reply> {
    if p.Closing? || p.Exited? then Some(p.reply) else None
  }

  /** The tool ran to an outcome that may have left its effect in the world. */
  predicate Landed(p: Phase) {
    var r := ReplyOf(p);
    r.Some? && r.value.Ran? && (r.value.outcome.Done? || r.value.outcome.Unobserved?)
  }

  predicate ReplyOk(row: Row, p: Phase) {
    var r := ReplyOf(p);
    r.Some? ==>
      && (r.value.Replayed? ==> row == Success(r.value.cached))
      && (r.value.Ran? && r.value.outcome.Done? ==> row == Success(Cached(r.value.outcome)))
  }

  predicate RepliesOk(s: State) {
    forall c :: 0 <= c < |s.phases| ==> ReplyOk(s.row, s.phases[c])
  }

  lemma StepReplies(cfg: Config, s: State, step: Step)
    requires Locks(cfg) && Inv(s) && RepliesOk(s) && Clean(cfg, step)
    ensures RepliesOk(Apply(cfg, s, step))
    ensures s.row.Success? ==> Apply(cfg, s, step).row == s.row
  {
  }

  /** A success is final, and whoever ran it or was replayed it was told that very cached result. */
  lemma {:induction false} RepliesAgree(cfg: Config, n: nat, steps: seq<Step>, k: nat)
    requires Locks(cfg) && AllClean(cfg, steps) && k <= |steps|
    ensures RepliesOk(Run(cfg, n, steps))
    ensures Run(cfg, n, steps[..k]).row.Success? ==> Run(cfg, n, steps).row == Run(cfg, n, steps[..k]).row
    decreases |steps|
  {
    if steps == [] {
      assert steps[..k] == steps;
    } else {
      var front := steps[..|steps| - 1];
      var j := if k < |steps| then k else |front|;
      RepliesAgree(cfg, n, front, j);
      RunInv(cfg, n, front);
      StepReplies(cfg, Run(cfg, n, front), steps[|steps| - 1]);
      if k < |steps| {
        assert front[..j] == steps[..k];
      } else {
        assert steps[..k] == steps;
      }
    }
  }

  /** The row that a caller which was told `r` without running must have looked at. */
  function Told(r: Reply): Option<Row> {
    match r
    case Replayed(cached) => Some(Success(cached))
    case Held(detail) => Some(Unknown(detail))
    case _ => None
  }

  /** At step i caller c looked at the row that its reply tells. */
  ghost predicate SawAt(cfg: Config, n: nat, steps: seq<Step>, c: nat, r: Reply, i: nat) {
    && i < |steps| && steps[i].By? && steps[i].c == c && steps[i].action.Look?
    && Told(r) == Some(Run(cfg, n, steps[..i]).row)
  }

  lemma SawStays(cfg: Config, n: nat, steps: seq<Step>, step: Step, c: nat, r: Reply, i: nat)
    requires SawAt(cfg, n, steps, c, r, i)
    ensures SawAt(cfg, n, steps + [step], c, r, i)
  {
    assert (steps + [step])[..i] == steps[..i];
  }

  lemma SawNow(cfg: Config, n: nat, steps: seq<Step>, step: Step, c: nat, r: Reply)
    requires step.By? && step.c == c && step.action.Look? && Told(r) == Some(Run(cfg, n, steps).row)
    ensures SawAt(cfg, n, steps + [step], c, r, |steps|)
  {
    assert (steps + [step])[..|steps|] == steps;
  }

  /**
   In every run, clean or not, a caller that was told a cached result or a held detail looked
   at the row with that very result or detail.
   */
  lemma {:induction false} RepliesWereSeen(cfg: Config, n: nat, steps: seq<Step>, c: nat, r: Reply)
    requires c < n && ReplyOf(Run(cfg, n, steps).phases[c]) == Some(r) && Told(r).Some?
    ensures exists i :: SawAt(cfg, n, steps, c, r, i)
    decreases |steps|
  {
    if steps != [] {
      var front, step := steps[..|steps| - 1], steps[|steps| - 1];
      assert steps == front + [step];
      if ReplyOf(Run(cfg, n, front).phases[c]) == Some(r) {
        RepliesWereSeen(cfg, n, front, c, r);
        var i :| SawAt(cfg, n, front, c, r, i);
        SawStays(cfg, n, front, step, c, r, i);
      } else {
        SawNow(cfg, n, front, step, c, r);
      }
    }
  }

  ghost predicate NeverDies(steps: seq<Step>, c: nat) { forall i :: 0 <= i < |steps| ==> steps[i] != By(c, Die) }

  function RunFrom(cfg: Config, s: State, steps: seq<Step>): (t: State)
    ensures |t.phases| == |s.phases|
    decreases |steps|
  {
    if steps == [] then s else Apply(cfg, RunFrom(cfg, s, steps[..|steps| - 1]), steps[|steps| - 1])
  }

  lemma {:induction false} ReplyStays(cfg: Config, s: State, steps: seq<Step>, c: nat)
    requires c < |s.phases| && ReplyOf(s.phases[c]).Some? && NeverDies(steps, c)
    ensures ReplyOf(RunFrom(cfg, s, steps).phases[c]) == ReplyOf(s.phases[c])
    decreases |steps|
  {
    if steps != [] {
      var front := steps[..|steps| - 1];
      assert forall i :: 0 <= i < |front| ==> front[i] == steps[i];
      ReplyStays(cfg, s, front, c);
    }
  }

  /** A caller that looks at a settled row is told its cached result or its detail, whatever happens before it leaves. */
  lemma SettledIsTold(cfg: Config, s: State, c: nat, stale: bool, more: seq<Step>)
    requires c < |s.phases| && s.phases[c].Gated? && Settled(s.row) && NeverDies(more, c)
    ensures var r := ReplyOf(RunFrom(cfg, Apply(cfg, s, By(c, Look(stale))), more).phases[c]);
            r.Some? && Told(r.value) == Some(s.row)
  {
    ReplyStays(cfg, Apply(cfg, s, By(c, Look(stale))), more, c);
  }

  /** No operator declared an unknown effect not landed. */
  predicate NeverReopened(steps: seq<Step>) {
    forall i :: 0 <= i < |steps| ==> steps[i] != Reconcile(false)
  }

  predicate OneLanded(s: State) {
    && (forall c :: 0 <= c < |s.phases| && Landed(s.phases[c]) ==> Settled(s.row))
    && (forall c, d :: 0 <= c < d < |s.phases| ==> !(Landed(s.phases[c]) && Landed(s.phases[d])))
  }

  lemma ActLands(cfg: Config, s: State, c: nat, a: Action)
    requires Locks(cfg) && Inv(s) && OneLanded(s) && c < |s.phases| && Clean(cfg, By(c, a))
    ensures OneLanded(Apply(cfg, s, By(c, a)))
  {
  }

  /**
   The effect lands at most once: in every clean run under the lock at most one caller's
   body ends in success or unobserved, unless an operator reopened an unknown effect.
   */
  lemma {:induction false} EffectLandsAtMostOnce(cfg: Config, n: nat, steps: seq<Step>)
    requires Locks(cfg) && AllClean(cfg, steps) && NeverReopened(steps)
    ensures OneLanded(Run(cfg, n, steps))
    decreases |steps|
  {
    if steps != [] {
      var front, step := steps[..|steps| - 1], steps[|steps| - 1];
      EffectLandsAtMostOnce(cfg, n, front);
      RunInv(cfg, n, front);
      assert steps[|steps| - 1] != Reconcile(false);
      if step.By? && step.c < n {
        ActLands(cfg, Run(cfg, n, front), step.c, step.action);
      }
    }
  }

  // ------------------------------------------------------------------ what a row records

  /** At step i caller c's body ended with this outcome. */
  ghost predicate EndedAt(cfg: Config, n: nat, steps: seq<Step>, c: nat, o: Outcome, i: nat) {
    i < |steps| && steps[i] == By(c, Finish(o)) && c < n && Run(cfg, n, steps[..i]).phases[c].Running?
  }

  ghost predicate Ended(cfg: Config, n: nat, steps: seq<Step>, c: nat, o: Outcome) {
    exists i: nat :: EndedAt(cfg, n, steps, c, o, i)
  }

  /** At step i an operator settled an unknown effect. */
  ghost predicate SettledAt(cfg: Config, n: nat, steps: seq<Step>, landed: bool, i: nat) {
    i < |steps| && steps[i] == Reconcile(landed) && Run(cfg, n, steps[..i]).row.Unknown?
  }

  ghost predicate Reconciled(cfg: Config, n: nat, steps: seq<Step>, landed: bool) {
    exists i: nat :: SettledAt(cfg, n, steps, landed, i)
  }

  lemma EndedStays(cfg: Config, n: nat, steps: seq<Step>, step: Step, c: nat, o: Outcome)
    requires Ended(cfg, n, steps, c, o)
    ensures Ended(cfg, n, steps + [step], c, o)
  {
    var i: nat :| EndedAt(cfg, n, steps, c, o, i);
    assert (steps + [step])[..i] == steps[..i];
    assert EndedAt(cfg, n, steps + [step], c, o, i);
  }

  lemma ReconciledStays(cfg: Config, n: nat, steps: seq<Step>, step: Step, landed: bool)
    requires Reconciled(cfg, n, steps, landed)
    ensures Reconciled(cfg, n, steps + [step], landed)
  {
    var i: nat :| SettledAt(cfg, n, steps, landed, i);
    assert (steps + [step])[..i] == steps[..i];
    assert SettledAt(cfg, n, steps + [step], landed, i);
  }

  lemma EndedNow(cfg: Config, n: nat, steps: seq<Step>, c: nat, o: Outcome)
    requires c < n && Run(cfg, n, steps).phases[c].Running?
    ensures Ended(cfg, n, steps + [By(c, Finish(o))], c, o)
  {
    var more := steps + [By(c, Finish(o))];
    assert more[..|steps|] == steps;
    assert EndedAt(cfg, n, more, c, o, |steps|);
  }

  lemma ReconciledNow(cfg: Config, n: nat, steps: seq<Step>, landed: bool)
    requires Run(cfg, n, steps).row.Unknown?
    ensures Reconciled(cfg, n, steps + [Reconcile(landed)], landed)
  {
    var more := steps + [Reconcile(landed)];
    assert more[..|steps|] == steps;
    assert SettledAt(cfg, n, more, landed, |steps|);
  }

  /** A caller about to finalize had its body end that way; a body that did not run did not end. */
  lemma {:induction false} OutcomeWasReached(cfg: Config, n: nat, steps: seq<Step>, c: nat)
    requires c < n && Run(cfg, n, steps).phases[c].Ending? && !Run(cfg, n, steps).phases[c].outcome.NotRun?
    ensures Ended(cfg, n, steps, c, Run(cfg, n, steps).phases[c].outcome)
    decreases |steps|
  {
    if steps != [] {
      var front, step := steps[..|steps| - 1], steps[|steps| - 1];
      assert steps == front + [step];
      var p, o := Run(cfg, n, front).phases[c], Run(cfg, n, steps).phases[c].outcome;
      if p.Ending? && p.outcome == o {
        OutcomeWasReached(cfg, n, front, c);
        EndedStays(cfg, n, front, step, c, o);
      } else {
        EndedNow(cfg, n, front, c, o);
      }
    }
  }

  /** Where what the row says comes from. */
  ghost predicate Recorded(cfg: Config, n: nat, steps: seq<Step>, row: Row) {
    match row
    case Success(cached) =>
      || (cached == None && Reconciled(cfg, n, steps, true))
      || (exists c, v, kept :: Ended(cfg, n, steps, c, Done(v, kept)) && cached == if kept then Some(v) else None)
    case Unknown(detail) => exists c :: Ended(cfg, n, steps, c, Unobserved(detail))
    case _ => true
  }

  lemma RecordedStays(cfg: Config, n: nat, steps: seq<Step>, step: Step, row: Row)
    requires Recorded(cfg, n, steps, row)
    ensures Recorded(cfg, n, steps + [step], row)
  {
    if row.Success? {
      if row.cached == None && Reconciled(cfg, n, steps, true) {
        ReconciledStays(cfg, n, steps, step, true);
      } else {
        var c, v, kept :| Ended(cfg, n, steps, c, Done(v, kept)) && row.cached == if kept then Some(v) else None;
        EndedStays(cfg, n, steps, step, c, Done(v, kept));
      }
    } else if row.Unknown? {
      var c :| Ended(cfg, n, steps, c, Unobserved(row.detail));
      EndedStays(cfg, n, steps, step, c, Unobserved(row.detail));
    }
  }

  lemma FinalizedRecorded(cfg: Config, n: nat, steps: seq<Step>, c: nat)
    requires c < n && Run(cfg, n, steps).phases[c].Ending? && Recorded(cfg, n, steps, Run(cfg, n, steps).row)
    ensures Recorded(cfg, n, steps, Apply(cfg, Run(cfg, n, steps), By(c, Finalize)).row)
  {
    var o := Run(cfg, n, steps).phases[c].outcome;
    if !o.NotRun? { OutcomeWasReached(cfg, n, steps, c); }
  }

  /**
   In every run, clean or not: a row says success only if some body returned that very cached
   result or an operator declared the effect landed, and unknown only with the detail of a
   body that ended unobserved.
   */
  lemma {:induction false} RowsRecordWhatHappened(cfg: Config, n: nat, steps: seq<Step>)
    ensures Recorded(cfg, n, steps, Run(cfg, n, steps).row)
    decreases |steps|
  {
    if steps != [] {
      var front, step := steps[..|steps| - 1], steps[|steps| - 1];
      assert steps == front + [step];
      RowsRecordWhatHappened(cfg, n, front);
      var row := Run(cfg, n, steps).row;
      if step.By? && step.c < n && step.action.Finalize? && Run(cfg, n, front).phases[step.c].Ending? {
        FinalizedRecorded(cfg, n, front, step.c);
        RecordedStays(cfg, n, front, step, row);
      } else if step == Reconcile(true) && Run(cfg, n, front).row.Unknown? {
        ReconciledNow(cfg, n, front, true);
      } else if row == Run(cfg, n, front).row {
        RecordedStays(cfg, n, front, step, row);
      }
    }
  }

  /** The row does not stand in the way: whoever looks next claims it and may run. */
  ghost predicate Open(cfg: Config, s: State) {
    forall d, stale :: 0 <= d < |s.phases| && s.phases[d].Gated? ==>
      var t := Apply(cfg, Apply(cfg, s, By(d, Look(stale))), By(d, Claim));
      t.row.Pending? && t.phases[d] == Admitted(s.phases[d].locked, true)
  }

  /** A body that broke, or was refused before it ran, leaves the row open to the next caller. */
  lemma FailureLeavesRowOpen(cfg: Config, s: State, c: nat)
    requires c < |s.phases| && s.phases[c].Ending? && s.phases[c].guarded
    requires s.phases[c].outcome.Broke? || s.phases[c].outcome.NotRun?
    requires !s.row.Absent?
    ensures Open(cfg, Apply(cfg, s, By(c, Finalize)))
  {
  }

  /** A body that landed closes it: whoever looks next is told and cannot claim. */
  lemma LandingClosesRow(cfg: Config, s: State, c: nat, d: nat, stale: bool)
    requires c < |s.phases| && s.phases[c].Ending? && s.phases[c].guarded && !s.row.Absent?
    requires s.phases[c].outcome.Done? || s.phases[c].outcome.Unobserved?
    requires d < |s.phases| && d != c && s.phases[d].Gated?
    ensures var t := Apply(cfg, Apply(cfg, s, By(c, Finalize)), By(d, Look(stale)));
            t.phases[d].Closing? && Apply(cfg, t, By(d, Claim)) == t
  {
  }

  /** An operator who declares an unknown effect not landed opens it again. */
  lemma ReopenedRowIsOpen(cfg: Config, s: State)
    requires s.row.Unknown?
    ensures Open(cfg, Apply(cfg, s, Reconcile(false)))
  {
  }

  /** A caller that lost the insert to another looks again, and is told by the row it finds. */
  lemma LostInsertLooksAgain(cfg: Config, s: State, c: nat, stale: bool)
    requires c < |s.phases| && s.phases[c].Looked? && s.phases[c].seen.Absent? && !s.row.Absent?
    ensures var t := Apply(cfg, s, By(c, Claim));
            && t.row == s.row && t.phases[c].Gated?
            && (s.row.Success? ==> Apply(cfg, t, By(c, Look(stale))).phases[c] == Closing(s.phases[c].locked, Replayed(s.row.cached)))
            && (s.row.Unknown? ==> Apply(cfg, t, By(c, Look(stale))).phases[c] == Closing(s.phases[c].locked, Held(s.row.detail)))
  {
  }

  /** A caller that left holds no lock, and a row still pending belongs to another caller that is inside. */
  lemma ExitLeavesNothing(cfg: Config, n: nat, steps: seq<Step>, c: nat)
    requires Locks(cfg) && AllClean(cfg, steps) && c < n
    requires Run(cfg, n, steps).phases[c].Exited?
    ensures var s := Run(cfg, n, steps);
            && s.lock != Some(c)
            && (s.row.Pending? ==> exists d :: 0 <= d < n && d != c && Owns(s.phases[d]) && s.lock == Some(d))
  {
    RunInv(cfg, n, steps);
    var s := Run(cfg, n, steps);
    assert PhaseOk(s.row, s.lock, c, s.phases[c]);
  }
}
