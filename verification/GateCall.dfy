/** The effect gate as one call of execute_tool. */
module GateCall {
  import opened Common
  import opened EffectGate

  /** What the world answers during one call. */
  datatype World = World(
    lockTry: LockTry, stale: bool, lookFails: bool, refused: bool, outcome: Outcome, finalizeFails: bool)

  function Play(cfg: Config, me: nat, x: Local, actions: seq<Action>): (y: Local)
    decreases |actions|
  {
    if actions == [] then x else Act(cfg, me, Play(cfg, me, x, actions[..|actions| - 1]), actions[|actions| - 1])
  }

  lemma PlaySnoc(cfg: Config, me: nat, x: Local, actions: seq<Action>, a: Action)
    ensures Play(cfg, me, x, actions + [a]) == Act(cfg, me, Play(cfg, me, x, actions), a)
  {
  }

  class Gate {
    var row: Row
    var lock: Option<nat>

    /**
     _execute_tool_for_run from the lock on, when nobody else acts during the call.  Its
     steps are steps of the machine above; it leaves the lock as it found it and a row it
     reserved in the status of the outcome.
     */
    method ExecuteTool(cfg: Config, me: nat, world: World) returns (reply: Reply, ghost actions: seq<Action>)
      requires Locks(cfg) && world.lockTry.Acquire? ==> lock.None?
      requires !world.outcome.NotRun?
      modifies this
      ensures Play(cfg, me, old(Local(row, lock, Ready)), actions) == Local(row, lock, Exited(reply))
      ensures lock == old(lock)
      ensures !reply.Ran? || world.lookFails ==> row == old(row)
      ensures reply.Ran? && !world.lookFails && !world.finalizeFails ==>
                row == match reply.outcome
                       case Done(value, serializable) => Success(if serializable then Some(value) else None)
                       case Unobserved(why) => Unknown(why)
                       case Broke => Failed
                       case NotRun => Failed
      ensures reply.Ran? ==> reply.outcome == if world.refused then NotRun else world.outcome
    {
      ghost var x := Local(row, lock, Ready);
      var locked, refused, early, guarded, outcome;
      locked, refused, actions := TakeLock(cfg, me, world, x);
      if refused { return Refused, actions; }
      early, guarded, actions := ResolveRow(cfg, me, world, locked, x, actions);
      if early.Some? {
        reply := early.value;
      } else {
        outcome, actions := RunBody(cfg, me, world, locked, guarded, x, actions);
        actions := FinalizeRow(cfg, me, world, locked, guarded, outcome, x, actions);
        reply := Ran(outcome);
      }
      PlaySnoc(cfg, me, x, actions, Release);
      actions := actions + [Release];
      if locked { lock := None; }
    }

    method TakeLock(cfg: Config, me: nat, world: World, ghost x: Local)
      returns (locked: bool, refused: bool, ghost actions: seq<Action>)
      requires x == Local(row, lock, Ready)
      requires Locks(cfg) && world.lockTry.Acquire? ==> lock.None?
      modifies this`lock
      ensures lock == (if locked then Some(me) else old(lock)) && (locked ==> old(lock).None?)
      ensures Play(cfg, me, x, actions) == Local(row, lock, if refused then Exited(Refused) else Gated(locked))
      ensures refused ==> !locked
    {
      locked, refused, actions := false, false, [Enter(world.lockTry)];
      PlaySnoc(cfg, me, x, [], Enter(world.lockTry));
      assert [] + actions == actions;
      if Locks(cfg) {
        if world.lockTry.Acquire? {
          lock, locked := Some(me), true;
        } else if cfg.guarantee.AtMostOnce? {
          refused := true;
        }
      }
    }

    /** Replays, holds or refuses what the row settles, and otherwise reserves it; a failed look leaves the call unguarded. */
    method ResolveRow(cfg: Config, me: nat, world: World, locked: bool, ghost x: Local, ghost before: seq<Action>)
      returns (early: Option<Reply>, guarded: bool, ghost actions: seq<Action>)
      requires Play(cfg, me, x, before) == Local(row, lock, Gated(locked))
      modifies this`row
      ensures Play(cfg, me, x, actions) ==
              Local(row, lock, if early.Some? then Closing(locked, early.value) else Admitted(locked, guarded))
      ensures early.Some? ==> row == old(row) && !early.value.Ran?
      ensures early.None? ==> guarded == !world.lookFails && (if guarded then row == Pending else row == old(row))
    {
      early, guarded := None, true;
      if world.lookFails {
        PlaySnoc(cfg, me, x, before, LookFails);
        actions := before + [LookFails];
        if cfg.guarantee.AtMostOnce? { early := Some(Refused); } else { guarded := false; }
        return;
      }
      PlaySnoc(cfg, me, x, before, Look(world.stale));
      actions := before + [Look(world.stale)];
      match row {
        case Success(cached) => early := Some(Replayed(cached));
        case Unknown(detail) => early := Some(Held(detail));
        case Pending =>
          if !world.stale && cfg.guarantee.AtMostOnce? { early := Some(Refused); }
        case _ =>
      }
      if early.None? && (!row.Pending? || world.stale) {
        PlaySnoc(cfg, me, x, actions, Claim);
        actions := actions + [Claim];
        row := Pending;
      }
    }

    method FinalizeRow(cfg: Config, me: nat, world: World, locked: bool, guarded: bool, outcome: Outcome,
                       ghost x: Local, ghost before: seq<Action>)
      returns (ghost actions: seq<Action>)
      requires Play(cfg, me, x, before) == Local(row, lock, Ending(locked, guarded, outcome))
      modifies this`row
      ensures Play(cfg, me, x, actions) == Local(row, lock, Closing(locked, Ran(outcome)))
      ensures row == if guarded && !world.finalizeFails && !old(row).Absent? then FinalRow(outcome) else old(row)
    {
      if guarded && !world.finalizeFails && !row.Absent? { row := FinalRow(outcome); }
      ghost var last := if world.finalizeFails then FinalizeFails else Finalize;
      PlaySnoc(cfg, me, x, before, last);
      actions := before + [last];
    }

    method RunBody(cfg: Config, me: nat, world: World, locked: bool, guarded: bool, ghost x: Local, ghost before: seq<Action>)
      returns (outcome: Outcome, ghost actions: seq<Action>)
      requires Play(cfg, me, x, before) == Local(row, lock, Admitted(locked, guarded))
      requires !world.outcome.NotRun?
      ensures outcome == if world.refused then NotRun else world.outcome
      ensures Play(cfg, me, x, actions) == Local(row, lock, Ending(locked, guarded, outcome))
    {
      if world.refused {
        outcome, actions := NotRun, before + [Refuse];
        PlaySnoc(cfg, me, x, before, Refuse);
      } else {
        outcome, actions := world.outcome, before + [Start] + [Finish(world.outcome)];
        PlaySnoc(cfg, me, x, before, Start);
        PlaySnoc(cfg, me, x, before + [Start], Finish(world.outcome));
      }
    }
  }
}
