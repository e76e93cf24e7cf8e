/**
 Re-driving runs that a crash left behind (AINDY/core/agent_continuation.py,
 AINDY/core/flow_continuation.py): where a run is taken up again, and how often.

 Events are the commits one run row sees, in order; a crash is the absence of further
 commits until the next `Restart`.
 */
module Continuation {
  import opened Common

  /** A stretch of the plan: its tool steps, and whether a WAIT follows it. */
  datatype Segment = Segment(steps: nat, waits: bool)

  function StepsOf(segments: seq<Segment>): nat
    decreases |segments|
  {
    if segments == [] then 0 else StepsOf(segments[..|segments| - 1]) + segments[|segments| - 1].steps
  }

  lemma PrefixSteps(segments: seq<Segment>, i: nat)
    requires i < |segments|
    ensures StepsOf(segments[..i + 1]) == StepsOf(segments[..i]) + segments[i].steps
  {
    assert segments[..i + 1][..i] == segments[..i];
  }

  lemma {:induction false} PrefixesGrow(segments: seq<Segment>, i: nat, j: nat)
    requires i <= j <= |segments|
    ensures StepsOf(segments[..i]) <= StepsOf(segments[..j])
    decreases j
  {
    if i < j {
      PrefixesGrow(segments, i, j - 1);
      PrefixSteps(segments, j - 1);
    }
  }

  ghost predicate Covered(segments: seq<Segment>, completed: nat, k: nat) {
    k <= |segments| && StepsOf(segments[..k]) <= completed
  }

  /** The largest covered prefix. */
  ghost predicate Largest(segments: seq<Segment>, completed: nat, idx: nat) {
    Covered(segments, completed, idx) && forall k: nat :: Covered(segments, completed, k) ==> k <= idx
  }

  /** Then the step after the completed ones lies in segment `idx`: its steps start no later and end after it. */
  lemma LargestIff(segments: seq<Segment>, completed: nat, idx: nat)
    requires idx <= |segments|
    ensures Largest(segments, completed, idx) <==>
            (&& StepsOf(segments[..idx]) <= completed
             && (idx < |segments| ==> completed < StepsOf(segments[..idx]) + segments[idx].steps))
  {
    if idx < |segments| {
      PrefixSteps(segments, idx);
      if completed < StepsOf(segments[..idx + 1]) {
        forall k: nat | Covered(segments, completed, k) ensures k <= idx {
          if k > idx { PrefixesGrow(segments, idx + 1, k); }
        }
      } else {
        assert Covered(segments, completed, idx + 1);
      }
    }
  }

  method CountCompletedSegments(segments: seq<Segment>, completed: nat) returns (idx: nat)
    ensures Largest(segments, completed, idx)
  {
    var total := 0;
    idx := 0;
    while idx < |segments|
      invariant idx <= |segments|
      invariant total == StepsOf(segments[..idx]) <= completed
    {
      PrefixSteps(segments, idx);
      if total + segments[idx].steps > completed { break; }
      total := total + segments[idx].steps;
      idx := idx + 1;
    }
    LargestIff(segments, completed, idx);
  }

  lemma {:induction false} LargestExists(segments: seq<Segment>, completed: nat, from: nat)
    requires Covered(segments, completed, from)
    ensures exists idx :: Largest(segments, completed, idx)
    decreases |segments| - from
  {
    LargestIff(segments, completed, from);
    if from < |segments| {
      PrefixSteps(segments, from);
      if StepsOf(segments[..from + 1]) <= completed {
        LargestExists(segments, completed, from + 1);
      }
    }
  }

  ghost function CompletedSegments(segments: seq<Segment>, completed: nat): (idx: nat)
    ensures Largest(segments, completed, idx)
  {
    assert Covered(segments, completed, 0);
    LargestExists(segments, completed, 0);
    var idx :| Largest(segments, completed, idx); idx
  }

  // ------------------------------------------------------------------ agent runs

  datatype Status = Executing | Waiting | Ended

  /** `steps` and `attempts` live in the result column; `index` is the segment being run or waited for. */
  datatype Agent = Agent(status: Status, steps: nat, attempts: nat, index: nat)

  datatype Event =
    | Restart          // the start-up scan of a new process
    | SegmentDone      // a segment succeeded, with a result for each of its steps
    | ParkedAtGate     // a refused step waits for an operator; its segment will be run again
    | Resumed
    | Stopped          // failed or cancelled

  ghost predicate Redrives(segments: seq<Segment>, most: nat, a: Agent, e: Event) {
    e.Restart? && a.status.Executing? && CompletedSegments(segments, a.steps) < |segments| && a.attempts < most
  }

  ghost function After(segments: seq<Segment>, most: nat, a: Agent, e: Event): Agent {
    match e
    case Restart =>
      if Redrives(segments, most, a, e)
      then a.(attempts := a.attempts + 1, index := CompletedSegments(segments, a.steps))
      else if a.status.Executing? && CompletedSegments(segments, a.steps) < |segments| then a.(status := Ended)
      else a
    case SegmentDone =>
      if a.status.Executing? && a.index < |segments|
      then Agent(if segments[a.index].waits then Waiting else Ended, a.steps + segments[a.index].steps, 0, a.index + 1)
      else a
    case ParkedAtGate => if a.status.Executing? then a.(status := Waiting, attempts := 0) else a
    case Resumed => if a.status.Waiting? then a.(status := Executing) else a
    case Stopped => a.(status := Ended)
  }

  datatype History = History(agent: Agent, redrives: nat, segmentsDone: nat, parks: nat)

  ghost function Run(segments: seq<Segment>, most: nat, events: seq<Event>): History
    decreases |events|
  {
    if events == [] then History(Agent(Executing, 0, 0, 0), 0, 0, 0)
    else
      var h, e := Run(segments, most, events[..|events| - 1]), events[|events| - 1];
      History(After(segments, most, h.agent, e),
              h.redrives + (if Redrives(segments, most, h.agent, e) then 1 else 0),
              h.segmentsDone + (if e.SegmentDone? && h.agent.status.Executing? && h.agent.index < |segments| then 1 else 0),
              h.parks + (if e.ParkedAtGate? && h.agent.status.Executing? then 1 else 0))
  }

  ghost predicate AtBoundary(segments: seq<Segment>, a: Agent) {
    a.index <= |segments| && a.steps == StepsOf(segments[..a.index])
  }

  /** Taking a run up again neither repeats a finished segment nor passes over a tool step. */
  lemma ResumesAtFirstUnfinished(segments: seq<Segment>, a: Agent)
    requires AtBoundary(segments, a)
    ensures var next := CompletedSegments(segments, a.steps);
            && a.index <= next <= |segments| && a.steps == StepsOf(segments[..next])
            && (forall k :: a.index <= k < next ==> segments[k].steps == 0)
            && (next == a.index <==> (a.index == |segments| || segments[a.index].steps > 0))
  {
    var next := CompletedSegments(segments, a.steps);
    assert Covered(segments, a.steps, a.index);
    PrefixesGrow(segments, a.index, next);
    forall k | a.index <= k < next ensures segments[k].steps == 0 {
      PrefixesGrow(segments, a.index, k);
      PrefixSteps(segments, k);
      PrefixesGrow(segments, k + 1, next);
    }
    LargestIff(segments, a.steps, a.index);
  }

  lemma BoundaryKept(segments: seq<Segment>, most: nat, a: Agent, e: Event)
    requires AtBoundary(segments, a)
    ensures AtBoundary(segments, After(segments, most, a, e)) && a.index <= After(segments, most, a, e).index
  {
    ResumesAtFirstUnfinished(segments, a);
    if a.index < |segments| { PrefixSteps(segments, a.index); }
  }

  ghost predicate Inv(segments: seq<Segment>, most: nat, h: History) {
    && AtBoundary(segments, h.agent) && h.segmentsDone <= h.agent.index
    && h.agent.attempts <= most && h.redrives <= most * (h.segmentsDone + h.parks) + h.agent.attempts
  }

  lemma Distribute(most: nat, x: nat)
    ensures most * (x + 1) == most * x + most
  {
  }

  lemma {:induction false} RunInv(segments: seq<Segment>, most: nat, events: seq<Event>)
    ensures Inv(segments, most, Run(segments, most, events))
    decreases |events|
  {
    if events != [] {
      var front, e := events[..|events| - 1], events[|events| - 1];
      RunInv(segments, most, front);
      var h := Run(segments, most, front);
      BoundaryKept(segments, most, h.agent, e);
      Distribute(most, h.segmentsDone + h.parks);
    }
  }

  /**
   However often the process restarts, a run is re-driven at most `most` times for each
   segment it finishes, each park at the gate, and once more; and it finishes each at most once.
   */
  lemma RedrivesBounded(segments: seq<Segment>, most: nat, events: seq<Event>)
    ensures var h := Run(segments, most, events);
            && h.redrives <= most * (1 + h.segmentsDone + h.parks)
            && h.segmentsDone <= |segments|
            && h.redrives <= most * (1 + |segments| + h.parks)
  {
    RunInv(segments, most, events);
    var h := Run(segments, most, events);
    Distribute(most, h.segmentsDone + h.parks);
    assert most * (1 + h.segmentsDone + h.parks) <= most * (1 + |segments| + h.parks) by {
      Scaled(most, 1 + h.segmentsDone + h.parks, 1 + |segments| + h.parks);
    }
  }

  function Parks(events: seq<Event>): nat
    decreases |events|
  {
    if events == [] then 0 else Parks(events[..|events| - 1]) + if events[|events| - 1].ParkedAtGate? then 1 else 0
  }

  /** The parks that count are among the park events of the run. */
  lemma {:induction false} ParksCounted(segments: seq<Segment>, most: nat, events: seq<Event>)
    ensures Run(segments, most, events).parks <= Parks(events)
    decreases |events|
  {
    if events != [] { ParksCounted(segments, most, events[..|events| - 1]); }
  }

  /** So from the events alone: once more, once for each segment and once for each park, `most` times each. */
  lemma RedrivesBoundedByEvents(segments: seq<Segment>, most: nat, events: seq<Event>)
    ensures Run(segments, most, events).redrives <= most * (1 + |segments| + Parks(events))
  {
    RedrivesBounded(segments, most, events);
    ParksCounted(segments, most, events);
    Scaled(most, 1 + |segments| + Run(segments, most, events).parks, 1 + |segments| + Parks(events));
  }

  /** A park keeps the place and gives the attempts back; no restart touches a parked run, and a resume puts it where it was. */
  lemma ParkKeepsThePlace(segments: seq<Segment>, most: nat, a: Agent)
    requires a.status.Executing?
    ensures var parked := After(segments, most, a, ParkedAtGate);
            && parked.status.Waiting? && After(segments, most, parked, Restart) == parked
            && After(segments, most, parked, Resumed) == Agent(Executing, a.steps, 0, a.index)
  {
  }

  lemma {:induction false} EndedIsFinal(segments: seq<Segment>, most: nat, events: seq<Event>, more: seq<Event>)
    requires Run(segments, most, events).agent.status.Ended?
    ensures Run(segments, most, events + more) == Run(segments, most, events)
    decreases |more|
  {
    if more == [] {
      assert events + more == events;
    } else {
      assert (events + more)[..|events + more| - 1] == events + more[..|more| - 1];
      EndedIsFinal(segments, most, events, more[..|more| - 1]);
    }
  }

  /** A run that was stopped is never re-driven and never moves again. */
  lemma StoppedForGood(segments: seq<Segment>, most: nat, events: seq<Event>, more: seq<Event>)
    ensures var h := Run(segments, most, events + [Stopped] + more);
            h.agent.status.Ended? && h.redrives == Run(segments, most, events).redrives
  {
    assert (events + [Stopped])[..|events|] == events;
    EndedIsFinal(segments, most, events + [Stopped], more);
  }

  /** Finishing the first k segments, each but the last of the plan followed by its WAIT and a resume. */
  function Through(k: nat): seq<Event> {
    if k == 0 then [] else Through(k - 1) + [Resumed] + [SegmentDone]
  }

  /** The plan is cut at its WAITs: a WAIT follows every segment but the last. */
  ghost predicate CutAtWaits(segments: seq<Segment>) {
    forall i :: 0 <= i < |segments| ==> (segments[i].waits <==> i < |segments| - 1)
  }

  lemma RunSnoc(segments: seq<Segment>, most: nat, events: seq<Event>, e: Event)
    ensures var (h, t) := (Run(segments, most, events), Run(segments, most, events + [e]));
            && t.agent == After(segments, most, h.agent, e)
            && t.redrives == h.redrives + (if Redrives(segments, most, h.agent, e) then 1 else 0)
            && t.segmentsDone == h.segmentsDone +
                 (if e.SegmentDone? && h.agent.status.Executing? && h.agent.index < |segments| then 1 else 0)
  {
    assert (events + [e])[..|events|] == events;
  }

  lemma FinishesNext(segments: seq<Segment>, most: nat, a: Agent)
    requires CutAtWaits(segments) && AtBoundary(segments, a) && a.index < |segments| && !a.status.Ended?
    ensures var b := After(segments, most, a, Resumed);
            && b == a.(status := Executing)
            && After(segments, most, b, SegmentDone) ==
                 Agent(if a.index + 1 < |segments| then Waiting else Ended, StepsOf(segments[..a.index + 1]), 0, a.index + 1)
  {
    PrefixSteps(segments, a.index);
  }

  /** A run that finishes every segment and is resumed after every WAIT does the whole plan, and has ended exactly then. */
  lemma {:induction false} PlanRunsThrough(segments: seq<Segment>, most: nat, k: nat)
    requires CutAtWaits(segments) && 0 < k <= |segments|
    ensures var h := Run(segments, most, Through(k));
            && h.agent == Agent(if k < |segments| then Waiting else Ended, StepsOf(segments[..k]), 0, k)
            && h.redrives == 0 && h.segmentsDone == k
    decreases k
  {
    var before := Through(k - 1);
    if k > 1 { PlanRunsThrough(segments, most, k - 1); }
    FinishesNext(segments, most, Run(segments, most, before).agent);
    RunSnoc(segments, most, before, Resumed);
    RunSnoc(segments, most, before + [Resumed], SegmentDone);
  }

  function Restarts(n: nat): seq<Event> { seq(n, (_: nat) => Restart) }

  /** A run that only ever crashes is re-driven exactly while attempts are left, and ended by the next restart. */
  lemma {:induction false} CrashLoopEnds(segments: seq<Segment>, most: nat, events: seq<Event>, n: nat)
    requires var a := Run(segments, most, events).agent;
             a.status.Executing? && CompletedSegments(segments, a.steps) < |segments|
    ensures var h, h' := Run(segments, most, events), Run(segments, most, events + Restarts(n));
            var left := most - h.agent.attempts;
            && h'.redrives == h.redrives + (if n < left then n else left)
            && h'.agent.steps == h.agent.steps
            && (if n <= left then h'.agent.status.Executing? && h'.agent.attempts == h.agent.attempts + n
                else h'.agent.status.Ended?)
    decreases n
  {
    RunInv(segments, most, events);
    var all := events + Restarts(n);
    if n == 0 {
      assert all == events;
    } else {
      assert all[..|all| - 1] == events + Restarts(n - 1);
      CrashLoopEnds(segments, most, events, n - 1);
    }
  }

  /** One row of the agent run table, as the start-up scan sees it. */
  class AgentRow {
    var status: Status
    var steps: nat
    var attempts: nat
    ghost var index: nat

    ghost function Value(): Agent
      reads this
    {
      Agent(status, steps, attempts, index)
    }

    constructor (status: Status, steps: nat, attempts: nat, ghost index: nat)
      ensures Value() == Agent(status, steps, attempts, index)
    {
      this.status, this.steps, this.attempts, this.index := status, steps, attempts, index;
    }

    /** The segment to re-drive, when there is one. */
    method ContinueCrashed(segments: seq<Segment>, most: nat) returns (redriven: bool, next: nat)
      modifies this
      ensures Value() == After(segments, most, old(Value()), Restart)
      ensures redriven <==> Redrives(segments, most, old(Value()), Restart)
      ensures redriven ==> next == Value().index
    {
      redriven, next := false, 0;
      if status != Executing { return; }
      next := CountCompletedSegments(segments, steps);
      assert next == CompletedSegments(segments, steps);
      if next >= |segments| { return; }
      if attempts >= most {
        status := Ended;
        return;
      }
      attempts, index, redriven := attempts + 1, next, true;
    }
  }

  // ------------------------------------------------------------------ flow runs

  /** `attempts` lives in the state snapshot; an absent counter reads as zero. */
  datatype Flow = Flow(active: bool, attempts: nat)

  datatype FlowEvent =
    | Continue                            // the recovery scan finds the run stranded
    | NodeCommitted(keepsCounter: bool)   // the next snapshot is written
    | Finished

  predicate Dispatches(most: nat, f: Flow, e: FlowEvent) { e.Continue? && f.attempts < most && f.active }

  function FlowAfter(most: nat, f: Flow, e: FlowEvent): Flow {
    match e
    case Continue =>
      if f.attempts >= most then f.(active := false)
      else if f.active then f.(attempts := f.attempts + 1)
      else f
    case NodeCommitted(keeps) => if f.active && !keeps then f.(attempts := 0) else f
    case Finished => f.(active := false)
  }

  datatype FlowHistory = FlowHistory(flow: Flow, dispatches: nat, lost: nat)

  function FlowRun(most: nat, events: seq<FlowEvent>): FlowHistory
    decreases |events|
  {
    if events == [] then FlowHistory(Flow(true, 0), 0, 0)
    else
      var h, e := FlowRun(most, events[..|events| - 1]), events[|events| - 1];
      FlowHistory(FlowAfter(most, h.flow, e),
                  h.dispatches + (if Dispatches(most, h.flow, e) then 1 else 0),
                  h.lost + (if e.NodeCommitted? && !e.keepsCounter then 1 else 0))
  }

  lemma {:induction false} FlowInv(most: nat, events: seq<FlowEvent>)
    ensures var h := FlowRun(most, events);
            h.flow.attempts <= most && h.dispatches <= most * h.lost + h.flow.attempts
    decreases |events|
  {
    if events != [] {
      var front := events[..|events| - 1];
      FlowInv(most, front);
      Distribute(most, FlowRun(most, front).lost);
    }
  }

  /** A flow is dispatched again at most `most` times for every time its counter was lost, and once more. */
  lemma DispatchesBounded(most: nat, events: seq<FlowEvent>)
    ensures var h := FlowRun(most, events);
            h.dispatches <= most * (1 + h.lost) && (h.lost == 0 ==> h.dispatches <= most)
  {
    FlowInv(most, events);
    Distribute(most, FlowRun(most, events).lost);
  }

  function LostCounters(events: seq<FlowEvent>): nat
    decreases |events|
  {
    if events == [] then 0
    else LostCounters(events[..|events| - 1]) + if events[|events| - 1] == NodeCommitted(false) then 1 else 0
  }

  lemma {:induction false} LostCounted(most: nat, events: seq<FlowEvent>)
    ensures FlowRun(most, events).lost <= LostCounters(events)
    decreases |events|
  {
    if events != [] { LostCounted(most, events[..|events| - 1]); }
  }

  /** From the events alone: once, and once for each snapshot written without the counter, `most` times each. */
  lemma DispatchesBoundedByEvents(most: nat, events: seq<FlowEvent>)
    ensures FlowRun(most, events).dispatches <= most * (1 + LostCounters(events))
  {
    DispatchesBounded(most, events);
    LostCounted(most, events);
    Scaled(most, 1 + FlowRun(most, events).lost, 1 + LostCounters(events));
  }

  lemma {:induction false} InactiveIsFinal(most: nat, events: seq<FlowEvent>, more: seq<FlowEvent>)
    requires !FlowRun(most, events).flow.active
    ensures !FlowRun(most, events + more).flow.active && FlowRun(most, events + more).dispatches == FlowRun(most, events).dispatches
    decreases |more|
  {
    if more == [] {
      assert events + more == events;
    } else {
      assert (events + more)[..|events + more| - 1] == events + more[..|more| - 1];
      InactiveIsFinal(most, events, more[..|more| - 1]);
    }
  }

  /** A flow that finished is not dispatched again, whatever the recovery scans find. */
  lemma FinishedForGood(most: nat, events: seq<FlowEvent>, more: seq<FlowEvent>)
    ensures FlowRun(most, events + [Finished] + more).dispatches == FlowRun(most, events).dispatches
  {
    assert (events + [Finished])[..|events|] == events;
    InactiveIsFinal(most, events + [Finished], more);
  }

  /** A counter lost before every restart lets the dispatches go on for ever. */
  lemma {:induction false} LostCounterNeverStops(most: nat, n: nat)
    requires most > 0
    ensures exists events :: FlowRun(most, events).dispatches == n && FlowRun(most, events).flow == Flow(true, 0)
  {
    if n == 0 {
      assert FlowRun(most, []).flow == Flow(true, 0);
    } else {
      LostCounterNeverStops(most, n - 1);
      var events :| FlowRun(most, events).dispatches == n - 1 && FlowRun(most, events).flow == Flow(true, 0);
      var one := events + [Continue];
      assert one[..|one| - 1] == events;
      var two := one + [NodeCommitted(false)];
      assert two[..|two| - 1] == one;
      assert FlowRun(most, two).dispatches == n && FlowRun(most, two).flow == Flow(true, 0);
    }
  }

  class FlowRow {
    var active: bool
    var attempts: nat

    function Value(): Flow
      reads this
    {
      Flow(active, attempts)
    }

    constructor (active: bool, attempts: nat)
      ensures Value() == Flow(active, attempts)
    {
      this.active, this.attempts := active, attempts;
    }

    /** True when the run was taken care of: dispatched again, or dead-lettered. */
    method TryContinue(most: nat) returns (handled: bool, dispatched: bool)
      modifies this
      ensures Value() == FlowAfter(most, old(Value()), Continue)
      ensures dispatched <==> Dispatches(most, old(Value()), Continue)
      ensures handled <==> dispatched || old(attempts) >= most
    {
      if attempts >= most {
        active := false;
        return true, false;
      }
      if !active { return false, false; }
      attempts := attempts + 1;
      return true, true;
    }
  }
}
