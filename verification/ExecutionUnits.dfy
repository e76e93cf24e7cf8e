/**
 The status machine of execution units (AINDY/core/execution_unit_service.py) and the gate
 that opens them (AINDY/core/execution_gate.py).
 */
module ExecutionUnits {
  import opened Common

  type Id = string

  datatype Unit = Unit(status: string, waitCondition: Option<string>, completedAt: Option<int>)

  type Units = map<Id, Unit>

  function Transitions(status: string): set<string> {
    if status == "pending" then {"executing", "failed"}
    else if status == "executing" then {"waiting", "resumed", "completed", "failed"}
    else if status == "waiting" then {"resumed", "executing", "failed"}
    else if status == "resumed" then {"executing", "failed"}
    else {}
  }

  const TERMINAL := {"completed", "failed", "refused"}

  /** A run ends in more ways than a unit does. */
  function UnitTerminal(runStatus: string): Option<string> {
    if runStatus == "completed" then Some("completed")
    else if runStatus in {"failed", "verify_failed", "cancelled", "refused"} then Some("failed")
    else None
  }

  datatype Call =
    | Create(id: Id, status: string)
    | UpdateStatus(id: Id, status: string, now: int)
    | Finalize(id: Id, runStatus: string, now: int)
    | Resume(id: Id, now: int)
    | SetWait(id: Id, condition: Option<string>)
    | Gate(id: Id, foreign: bool, now: int)   // `foreign`: the unit belongs to another user
    | Refuse(id: Id)                          // the gate records a refusal as a unit of its own

  predicate Moves(u: Unit, status: string) { status in Transitions(u.status) }

  function Moved(u: Unit, status: string, now: int): Unit {
    if !Moves(u, status) then u
    else u.(status := status, completedAt := if status in {"completed", "failed"} then Some(now) else u.completedAt)
  }

  predicate AlreadyResumed(u: Unit) { u.status in {"resumed", "executing", "completed"} }

  function ResumedUnit(u: Unit, now: int): Unit {
    if AlreadyResumed(u) || !Moves(u, "resumed") then u
    else Moved(Moved(u, "resumed", now).(waitCondition := None), "executing", now)
  }

  /** What a call makes of the unit it names. */
  function UnitAfter(u: Unit, c: Call): Unit {
    match c
    case Create(_, _) => u
    case UpdateStatus(_, status, now) => Moved(u, status, now)
    case Finalize(_, runStatus, now) =>
      var target := UnitTerminal(runStatus);
      if target.None? || u.status in TERMINAL then u else Moved(u, target.value, now)
    case Resume(_, now) => ResumedUnit(u, now)
    case SetWait(_, condition) => u.(waitCondition := condition)
    case Gate(_, foreign, now) => if foreign then u else Moved(u, "executing", now)
    case Refuse(_) => u
  }

  function NewUnit(c: Call): Option<Unit> {
    match c
    case Create(_, status) => Some(Unit(status, None, None))
    case Gate(_, _, _) => Some(Unit("executing", None, None))
    case Refuse(_) => Some(Unit("refused", None, None))
    case _ => None
  }

  function After(units: Units, c: Call): Units {
    if c.id in units then units[c.id := UnitAfter(units[c.id], c)]
    else
      match NewUnit(c)
      case Some(u) => units[c.id := u]
      case None => units
  }

  /** The boolean the call returns. */
  predicate Succeeds(units: Units, c: Call) {
    match c
    case UpdateStatus(id, status, _) => id in units && Moves(units[id], status)
    case Finalize(id, runStatus, _) =>
      var target := UnitTerminal(runStatus);
      target.Some? && id in units && units[id].status !in TERMINAL && Moves(units[id], target.value)
    case Resume(id, _) => id in units && (AlreadyResumed(units[id]) || Moves(units[id], "resumed"))
    case SetWait(id, _) => id in units
    case Gate(id, foreign, _) => id !in units || !foreign
    case Create(_, _) => true
    case Refuse(_) => true
  }

  function Run(units: Units, calls: seq<Call>): Units
    decreases |calls|
  {
    if calls == [] then units else After(Run(units, calls[..|calls| - 1]), calls[|calls| - 1])
  }

  // ------------------------------------------------------------------ every sequence of calls

  /** How a later state of a unit relates to an earlier one. */
  ghost predicate Follows(u: Unit, v: Unit) {
    && (u.status in TERMINAL ==> v.status == u.status && v.completedAt == u.completedAt)
    && (v.status == "refused" ==> u.status == "refused")
    && (v.status in {"completed", "failed"} && v.status != u.status ==> v.completedAt.Some?)
  }

  /**
   Whatever is called, and in whatever order: completed, failed and refused units stay as they
   are, no unit becomes refused, and one that came to completed or failed has its time set.
   */
  lemma {:induction false} LaterFollowsEarlier(units: Units, calls: seq<Call>, id: Id)
    requires id in units
    ensures id in Run(units, calls) && Follows(units[id], Run(units, calls)[id])
    decreases |calls|
  {
    if calls != [] {
      LaterFollowsEarlier(units, calls[..|calls| - 1], id);
    }
  }

  /** Nothing waits or completes that was not executing before. */
  lemma {:induction false} ExecutedBefore(units: Units, calls: seq<Call>, id: Id)
    requires id in units && id in Run(units, calls)
    requires Run(units, calls)[id].status != units[id].status && Run(units, calls)[id].status in {"completed", "waiting"}
    ensures exists i :: 0 <= i < |calls| && id in Run(units, calls[..i]) && Run(units, calls[..i])[id].status == "executing"
    decreases |calls|
  {
    var k := |calls| - 1;
    var front := calls[..k];
    LaterFollowsEarlier(units, front, id);
    var mid := Run(units, front)[id];
    if mid.status == Run(units, calls)[id].status {
      ExecutedBefore(units, front, id);
      var i :| 0 <= i < |front| && id in Run(units, front[..i]) && Run(units, front[..i])[id].status == "executing";
      assert calls[..i] == front[..i];
    }
  }

  /** Finalize calls for `id` that report having moved the unit. */
  function Finalized(units: Units, calls: seq<Call>, id: Id): nat
    decreases |calls|
  {
    if calls == [] then 0
    else
      var front, c := calls[..|calls| - 1], calls[|calls| - 1];
      Finalized(units, front, id) + if c.Finalize? && c.id == id && Succeeds(Run(units, front), c) then 1 else 0
  }

  ghost predicate IsTerminal(units: Units, id: Id) { id in units && units[id].status in TERMINAL }

  lemma {:induction false} FinalizedAtMostOnce(units: Units, calls: seq<Call>, id: Id)
    ensures Finalized(units, calls, id) <= if IsTerminal(Run(units, calls), id) then 1 else 0
    decreases |calls|
  {
    if calls != [] {
      FinalizedAtMostOnce(units, calls[..|calls| - 1], id);
    }
  }

  /** Every finalize that moved the unit is counted. */
  lemma {:induction false} FinalizedSees(units: Units, calls: seq<Call>, i: nat)
    requires i < |calls| && calls[i].Finalize? && Succeeds(Run(units, calls[..i]), calls[i])
    ensures Finalized(units, calls, calls[i].id) > 0
    decreases |calls|
  {
    if i < |calls| - 1 {
      assert calls[..|calls| - 1][..i] == calls[..i];
      FinalizedSees(units, calls[..|calls| - 1], i);
    }
  }

  /**
   A run's end reaches its unit exactly when the unit is executing, or has not ended and the
   run did not complete: a completed run leaves a pending, waiting or resumed unit where it is.
   */
  lemma FinalizeMovesIff(units: Units, id: Id, runStatus: string, now: int)
    requires id in units && UnitTerminal(runStatus).Some?
    ensures Succeeds(units, Finalize(id, runStatus, now)) <==>
            (units[id].status == "executing" ||
             (runStatus != "completed" && units[id].status in {"pending", "waiting", "resumed"}))
    ensures Succeeds(units, Finalize(id, runStatus, now)) ==>
              IsTerminal(After(units, Finalize(id, runStatus, now)), id)
    ensures !Succeeds(map["u" := Unit("waiting", None, None)], Finalize("u", "completed", now))
  {
  }

  /** Which ends of a run reach a unit at all, and as what: every end but a completion is a failure to the unit. */
  lemma FinalizedStatus(units: Units, id: Id, runStatus: string, now: int)
    requires id in units
    ensures var after := After(units, Finalize(id, runStatus, now))[id];
            after.status ==
              if runStatus == "completed" && units[id].status == "executing" then "completed"
              else if runStatus in {"failed", "verify_failed", "cancelled", "refused"} &&
                      units[id].status in {"pending", "executing", "waiting", "resumed"} then "failed"
              else units[id].status
  {
  }

  /** A new unit is recorded under the status asked for, a refusal as refused; a unit that is there is left alone. */
  lemma RecordedAs(units: Units, id: Id, status: string)
    ensures id !in units ==>
              && After(units, Create(id, status)) == units[id := Unit(status, None, None)]
              && After(units, Refuse(id)) == units[id := Unit("refused", None, None)]
    ensures id in units ==> After(units, Create(id, status)) == units && After(units, Refuse(id)) == units
  {
    if id in units { assert units[id := units[id]] == units; }
  }

  /** The states a unit can be asked into, one by one. */
  lemma UpdateMovesIff(units: Units, id: Id, status: string, now: int)
    requires id in units
    ensures Succeeds(units, UpdateStatus(id, status, now)) <==>
              (units[id].status, status) in
                {("pending", "executing"), ("pending", "failed"),
                 ("executing", "waiting"), ("executing", "resumed"), ("executing", "completed"), ("executing", "failed"),
                 ("waiting", "resumed"), ("waiting", "executing"), ("waiting", "failed"),
                 ("resumed", "executing"), ("resumed", "failed")}
    ensures var (u, v) := (units[id], After(units, UpdateStatus(id, status, now))[id]);
            if Succeeds(units, UpdateStatus(id, status, now))
            then v.status == status && v.waitCondition == u.waitCondition &&
                 v.completedAt == if status in {"completed", "failed"} then Some(now) else u.completedAt
            else v == u
  {
  }

  /** The gate opens an executing unit, takes its own pending, waiting or resumed one to executing, and leaves a foreign one alone. */
  lemma GateOpens(units: Units, id: Id, foreign: bool, now: int)
    ensures var after := After(units, Gate(id, foreign, now));
            && id in after && after == units[id := after[id]]
            && (id !in units ==> after[id] == Unit("executing", None, None))
            && (id in units && (foreign || units[id].status in {"executing", "completed", "failed", "refused"}) ==> after == units)
            && (id in units && !foreign && units[id].status in {"pending", "waiting", "resumed"} ==>
                  after[id] == units[id].(status := "executing"))
  {
    if id in units { assert units[id := units[id]] == units; }
  }

  /** The call can take a unit that has been resumed back to where a resume would act on it or fail. */
  predicate Disturbs(c: Call, id: Id) {
    c.id == id && ((c.UpdateStatus? && c.status in {"waiting", "failed"}) || c.Finalize?)
  }

  lemma {:induction false} StaysResumed(units: Units, calls: seq<Call>, id: Id)
    requires id in units && AlreadyResumed(units[id])
    requires forall i :: 0 <= i < |calls| ==> !Disturbs(calls[i], id)
    ensures id in Run(units, calls) && AlreadyResumed(Run(units, calls)[id])
    decreases |calls|
  {
    if calls != [] {
      var front := calls[..|calls| - 1];
      assert forall i :: 0 <= i < |front| ==> front[i] == calls[i];
      StaysResumed(units, front, id);
      assert !Disturbs(calls[|calls| - 1], id);
    }
  }

  lemma ResumedNow(units: Units, id: Id, now: int)
    requires Succeeds(units, Resume(id, now))
    ensures id in After(units, Resume(id, now)) && AlreadyResumed(After(units, Resume(id, now))[id])
    ensures !AlreadyResumed(units[id]) ==> After(units, Resume(id, now))[id] == Unit("executing", None, units[id].completedAt)
  {
  }

  lemma ResumeIsIdle(units: Units, id: Id, now: int)
    requires id in units && AlreadyResumed(units[id])
    ensures Succeeds(units, Resume(id, now)) && After(units, Resume(id, now)) == units
  {
  }

  /** After a resume that succeeded, a second one succeeds and changes nothing, until the unit waits again or ends. */
  lemma SecondResumeIsIdle(units: Units, id: Id, now: int, calls: seq<Call>, later: int)
    requires Succeeds(units, Resume(id, now))
    requires forall i :: 0 <= i < |calls| ==> !Disturbs(calls[i], id)
    ensures var w := Run(After(units, Resume(id, now)), calls);
            Succeeds(w, Resume(id, later)) && After(w, Resume(id, later)) == w
  {
    ResumedNow(units, id, now);
    StaysResumed(After(units, Resume(id, now)), calls, id);
    ResumeIsIdle(Run(After(units, Resume(id, now)), calls), id, later);
  }

  // ------------------------------------------------------------------ the service

  class Service {
    var units: Units

    constructor ()
      ensures units == map[]
    {
      units := map[];
    }

    method UpdateStatus(id: Id, status: string, now: int) returns (ok: bool)
      modifies this
      ensures units == After(old(units), Call.UpdateStatus(id, status, now))
      ensures ok == Succeeds(old(units), Call.UpdateStatus(id, status, now))
    {
      if id !in units { return false; }
      var u := units[id];
      if status !in Transitions(u.status) {
        assert units[id := u] == units;
        return false;
      }
      u := u.(status := status);
      if status in {"completed", "failed"} { u := u.(completedAt := Some(now)); }
      units := units[id := u];
      return true;
    }

    method FinalizeForRunStatus(id: Id, runStatus: string, now: int) returns (ok: bool)
      modifies this
      ensures units == After(old(units), Finalize(id, runStatus, now))
      ensures ok == Succeeds(old(units), Finalize(id, runStatus, now))
    {
      var target := UnitTerminal(runStatus);
      if id !in units { return false; }
      assert units[id := units[id]] == units;
      if target.None? || units[id].status in TERMINAL { return false; }
      ok := UpdateStatus(id, target.value, now);
    }

    method ResumeExecutionUnit(id: Id, now: int) returns (ok: bool)
      modifies this
      ensures units == After(old(units), Resume(id, now))
      ensures ok == Succeeds(old(units), Resume(id, now))
    {
      ghost var before := units;
      if id !in units { return false; }
      assert units[id := units[id]] == units;
      if AlreadyResumed(units[id]) { return true; }
      ok := UpdateStatus(id, "resumed", now);
      if !ok { return; }
      units := units[id := units[id].(waitCondition := None)];
      ok := UpdateStatus(id, "executing", now);
      assert units == before[id := UnitAfter(before[id], Resume(id, now))];
    }

    method SetWaitCondition(id: Id, condition: Option<string>) returns (ok: bool)
      modifies this
      ensures units == After(old(units), SetWait(id, condition))
      ensures ok == Succeeds(old(units), SetWait(id, condition))
    {
      if id !in units { return false; }
      units := units[id := units[id].(waitCondition := condition)];
      return true;
    }

    /** `id`: the unit recorded for the source, or a new id. */
    method RequireExecutionUnit(id: Id, foreign: bool, now: int) returns (found: bool)
      modifies this
      ensures units == After(old(units), Gate(id, foreign, now))
      ensures found == Succeeds(old(units), Gate(id, foreign, now))
    {
      if id in units {
        assert units[id := units[id]] == units;
        if foreign { return false; }
        var _ := UpdateStatus(id, "executing", now);
      } else {
        units := units[id := Unit("executing", None, None)];
      }
      return true;
    }
  }
}
