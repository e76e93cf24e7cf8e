/**
 Deferred accounting of declared-argument validation (AINDY/agents/tool_registry.py): a
 worker records what it observed in a ledger, and the parent counts the ledger later.
 */
module ArgsLedger {
  import opened Common

  datatype Outcome = Valid | Invalid

  datatype Observation = Observation(tool: string, outcome: Outcome, mode: string, errors: seq<string>)

  datatype Row = Row(valid: nat, invalid: nat, mode: string, errors: seq<string>, dropped: nat)

  type Tools = map<string, Row>

  /** The labels of one counter. */
  datatype Key = Key(tool: string, outcome: Outcome, mode: string)

  type Counters = map<Key, nat>

  function CountOf(counters: Counters, k: Key): nat { if k in counters then counters[k] else 0 }

  function Bumped(counters: Counters, k: Key, n: nat): Counters { counters[k := CountOf(counters, k) + n] }

  // ------------------------------------------------------------------ recording

  function Take(errors: seq<string>, room: int): seq<string> {
    if room <= 0 then [] else if |errors| <= room then errors else errors[..room]
  }

  function RowOf(tools: Tools, tool: string, mode: string): Row {
    if tool in tools then tools[tool] else Row(0, 0, mode, [], 0)
  }

  function RowAfter(row: Row, o: Observation, cap: int): Row {
    var kept := Take(o.errors, cap - |row.errors|);
    Row(row.valid + (if o.outcome.Valid? then 1 else 0), row.invalid + (if o.outcome.Invalid? then 1 else 0), o.mode,
        row.errors + kept, row.dropped + |o.errors| - |kept|)
  }

  function Recorded(obs: seq<Observation>, cap: int): Tools
    decreases |obs|
  {
    if obs == [] then map[]
    else
      var tools, o := Recorded(obs[..|obs| - 1], cap), obs[|obs| - 1];
      tools[o.tool := RowAfter(RowOf(tools, o.tool, o.mode), o, cap)]
  }

  // ------------------------------------------------------------------ counting

  /** Each observation counted where it was made. */
  function Direct(obs: seq<Observation>, k: Key): nat
    decreases |obs|
  {
    if obs == [] then 0
    else
      var o := obs[|obs| - 1];
      Direct(obs[..|obs| - 1], k) + if Key(o.tool, o.outcome, o.mode) == k then 1 else 0
  }

  function OrOff(mode: string): string { if mode == "" then "off" else mode }

  /** What a shipped ledger adds to one counter. */
  function Applied(tools: Tools, k: Key): nat {
    if k.tool in tools && OrOff(tools[k.tool].mode) == k.mode
    then (if k.outcome.Valid? then tools[k.tool].valid else tools[k.tool].invalid)
    else 0
  }

  /** Observations of one tool with one outcome, whatever the mode. */
  function Outcomes(obs: seq<Observation>, tool: string, outcome: Outcome): nat
    decreases |obs|
  {
    if obs == [] then 0
    else
      var o := obs[|obs| - 1];
      Outcomes(obs[..|obs| - 1], tool, outcome) + if o.tool == tool && o.outcome == outcome then 1 else 0
  }

  /** All errors observed for one tool, in order. */
  function Errors(obs: seq<Observation>, tool: string): seq<string>
    decreases |obs|
  {
    if obs == [] then []
    else
      var o := obs[|obs| - 1];
      Errors(obs[..|obs| - 1], tool) + if o.tool == tool then o.errors else []
  }

  predicate Seen(obs: seq<Observation>, tool: string) { exists i :: 0 <= i < |obs| && obs[i].tool == tool }

  /** The mode of the tool's last observation. */
  function LastMode(obs: seq<Observation>, tool: string): string
    decreases |obs|
  {
    if obs == [] then ""
    else if obs[|obs| - 1].tool == tool then obs[|obs| - 1].mode
    else LastMode(obs[..|obs| - 1], tool)
  }

  ghost predicate RowExact(obs: seq<Observation>, cap: int, tool: string, row: Row) {
    && row.valid == Outcomes(obs, tool, Valid) && row.invalid == Outcomes(obs, tool, Invalid)
    && row.mode == LastMode(obs, tool)
    && row.errors == Take(Errors(obs, tool), cap)
    && |row.errors| + row.dropped == |Errors(obs, tool)|
  }

  lemma {:induction false} UnseenIsEmpty(obs: seq<Observation>, tool: string)
    requires !Seen(obs, tool)
    ensures Outcomes(obs, tool, Valid) == Outcomes(obs, tool, Invalid) == 0 && Errors(obs, tool) == []
    decreases |obs|
  {
    if obs != [] {
      var front := obs[..|obs| - 1];
      assert forall i :: 0 <= i < |front| ==> front[i] == obs[i];
      UnseenIsEmpty(front, tool);
    }
  }

  lemma RowExactNext(obs: seq<Observation>, cap: int, row: Row)
    requires obs != []
    requires var front, tool := obs[..|obs| - 1], obs[|obs| - 1].tool;
             && row.valid == Outcomes(front, tool, Valid) && row.invalid == Outcomes(front, tool, Invalid)
             && row.errors == Take(Errors(front, tool), cap) && |row.errors| + row.dropped == |Errors(front, tool)|
    ensures RowExact(obs, cap, obs[|obs| - 1].tool, RowAfter(row, obs[|obs| - 1], cap))
  {
  }

  /**
   A ledger row holds the exact number of each outcome, the last mode, the first errors up to
   the cap and the number of the others; a tool has a row exactly when it was observed.
   */
  lemma {:induction false} RecordedExactly(obs: seq<Observation>, cap: int, tool: string)
    ensures tool in Recorded(obs, cap) <==> Seen(obs, tool)
    ensures tool in Recorded(obs, cap) ==> RowExact(obs, cap, tool, Recorded(obs, cap)[tool])
    decreases |obs|
  {
    if obs != [] {
      var front, o := obs[..|obs| - 1], obs[|obs| - 1];
      assert forall i :: 0 <= i < |front| ==> front[i] == obs[i];
      RecordedExactly(front, cap, tool);
      assert Seen(obs, tool) <==> Seen(front, tool) || o.tool == tool;
      if o.tool == tool {
        if !Seen(front, tool) { UnseenIsEmpty(front, tool); }
        RowExactNext(obs, cap, RowOf(Recorded(front, cap), tool, o.mode));
      }
    }
  }

  /** Kept and dropped errors add up to the errors observed, and no more than the cap are kept. */
  lemma ErrorsAddUp(obs: seq<Observation>, cap: int, tool: string)
    requires tool in Recorded(obs, cap)
    ensures var row := Recorded(obs, cap)[tool];
            && |row.errors| + row.dropped == |Errors(obs, tool)|
            && |row.errors| <= (if cap > 0 then cap else 0)
            && row.errors <= Errors(obs, tool)
  {
    RecordedExactly(obs, cap, tool);
  }

  // ------------------------------------------------------------------ deferring changes no counter

  /** Every observation was made in the mode its tool's ledger row is counted under. */
  ghost predicate ModeConstant(obs: seq<Observation>) {
    forall i :: 0 <= i < |obs| ==> obs[i].mode == OrOff(LastMode(obs, obs[i].tool))
  }

  lemma {:induction false} DirectIsOutcomes(obs: seq<Observation>, k: Key)
    requires forall i :: 0 <= i < |obs| && obs[i].tool == k.tool ==> obs[i].mode == k.mode
    ensures Direct(obs, k) == Outcomes(obs, k.tool, k.outcome)
    decreases |obs|
  {
    if obs != [] {
      var front := obs[..|obs| - 1];
      assert forall i :: 0 <= i < |front| ==> front[i] == obs[i];
      DirectIsOutcomes(front, k);
    }
  }

  lemma {:induction false} DirectIsZero(obs: seq<Observation>, k: Key)
    requires forall i :: 0 <= i < |obs| ==> obs[i].tool != k.tool || obs[i].mode != k.mode
    ensures Direct(obs, k) == 0
    decreases |obs|
  {
    if obs != [] {
      var front := obs[..|obs| - 1];
      assert forall i :: 0 <= i < |front| ==> front[i] == obs[i];
      DirectIsZero(front, k);
    }
  }

  lemma {:induction false} DirectSees(obs: seq<Observation>, i: nat)
    requires i < |obs|
    ensures Direct(obs, Key(obs[i].tool, obs[i].outcome, obs[i].mode)) > 0
    decreases |obs|
  {
    if i < |obs| - 1 { DirectSees(obs[..|obs| - 1], i); }
  }

  lemma DeferredKey(obs: seq<Observation>, cap: int, k: Key)
    requires ModeConstant(obs)
    ensures Applied(Recorded(obs, cap), k) == Direct(obs, k)
  {
    RecordedExactly(obs, cap, k.tool);
    if Seen(obs, k.tool) && OrOff(LastMode(obs, k.tool)) == k.mode {
      DirectIsOutcomes(obs, k);
    } else {
      DirectIsZero(obs, k);
    }
  }

  /** Recording and applying later gives every counter its direct value exactly when no tool changed mode on the way. */
  lemma DeferralExactIff(obs: seq<Observation>, cap: int)
    ensures (forall k :: Applied(Recorded(obs, cap), k) == Direct(obs, k)) <==> ModeConstant(obs)
  {
    if ModeConstant(obs) {
      forall k ensures Applied(Recorded(obs, cap), k) == Direct(obs, k) { DeferredKey(obs, cap, k); }
    } else {
      var i :| 0 <= i < |obs| && obs[i].mode != OrOff(LastMode(obs, obs[i].tool));
      var k := Key(obs[i].tool, obs[i].outcome, obs[i].mode);
      RecordedExactly(obs, cap, k.tool);
      DirectSees(obs, i);
      assert Applied(Recorded(obs, cap), k) != Direct(obs, k);
    }
  }

  /** In the words of the observations: each tool kept one mode throughout, and it was not the empty one. */
  ghost predicate OneModeEach(obs: seq<Observation>) {
    && (forall i, j :: 0 <= i < |obs| && 0 <= j < |obs| && obs[i].tool == obs[j].tool ==> obs[i].mode == obs[j].mode)
    && (forall i :: 0 <= i < |obs| ==> obs[i].mode != "")
  }

  lemma ModeConstantIff(obs: seq<Observation>)
    ensures ModeConstant(obs) <==> OneModeEach(obs)
  {
    if OneModeEach(obs) {
      forall i | 0 <= i < |obs| ensures obs[i].mode == OrOff(LastMode(obs, obs[i].tool)) {
        LastModeIs(obs, i);
        var j :| i <= j < |obs| && obs[j].tool == obs[i].tool && LastMode(obs, obs[i].tool) == obs[j].mode;
      }
    }
    if ModeConstant(obs) {
      forall i, j | 0 <= i < |obs| && 0 <= j < |obs| && obs[i].tool == obs[j].tool ensures obs[i].mode == obs[j].mode {
        assert obs[i].mode == OrOff(LastMode(obs, obs[i].tool)) && obs[j].mode == OrOff(LastMode(obs, obs[j].tool));
      }
    }
  }

  lemma {:induction false} LastModeIs(obs: seq<Observation>, i: nat)
    requires i < |obs|
    ensures exists j :: i <= j < |obs| && obs[j].tool == obs[i].tool && LastMode(obs, obs[i].tool) == obs[j].mode
    decreases |obs|
  {
    var n := |obs| - 1;
    if obs[n].tool != obs[i].tool {
      LastModeIs(obs[..n], i);
      var j :| i <= j < n && obs[..n][j].tool == obs[i].tool && LastMode(obs[..n], obs[i].tool) == obs[..n][j].mode;
      assert obs[j] == obs[..n][j];
    }
  }

  /** A row is counted under its own mode, and under "off" when it has none; each outcome by itself. */
  lemma RowCountedUnder(tools: Tools, tool: string, outcome: Outcome, mode: string)
    requires tool in tools
    ensures var row := tools[tool];
            Applied(tools, Key(tool, outcome, mode)) ==
              if mode == row.mode != "" || (row.mode == "" && mode == "off")
              then (match outcome case Valid => row.valid case Invalid => row.invalid)
              else 0
  {
  }

  // ------------------------------------------------------------------ the ledger and its two ends

  method KeepErrors(kept: seq<string>, before: nat, more: seq<string>, cap: int) returns (errors: seq<string>, dropped: nat)
    ensures errors == kept + Take(more, cap - |kept|)
    ensures dropped == before + |more| - |Take(more, cap - |kept|)|
  {
    errors, dropped := kept, before;
    for i := 0 to |more|
      invariant errors == kept + Take(more[..i], cap - |kept|)
      invariant dropped == before + i - |Take(more[..i], cap - |kept|)|
    {
      assert more[..i + 1] == more[..i] + [more[i]];
      if |errors| < cap {
        errors := errors + [more[i]];
      } else {
        dropped := dropped + 1;
      }
    }
    assert more[..|more|] == more;
  }

  class Ledger {
    const maxErrors: int
    var tools: Tools
    ghost var observed: seq<Observation>

    ghost predicate Valid()
      reads this
    {
      tools == Recorded(observed, maxErrors)
    }

    constructor (maxErrors: int)
      ensures Valid() && observed == [] && this.maxErrors == maxErrors
    {
      this.maxErrors, tools, observed := maxErrors, map[], [];
    }

    method Record(o: Observation)
      requires Valid()
      modifies this
      ensures Valid() && observed == old(observed) + [o]
    {
      var row := RowOf(tools, o.tool, o.mode);
      var errors, dropped := KeepErrors(row.errors, row.dropped, o.errors, maxErrors);
      row := match o.outcome
             case Valid => Row(row.valid + 1, row.invalid, o.mode, errors, dropped)
             case Invalid => Row(row.valid, row.invalid + 1, o.mode, errors, dropped);
      tools := tools[o.tool := row];
      observed := observed + [o];
      assert observed[..|observed| - 1] == old(observed);
    }
  }

  ghost predicate AppliedFor(before: Counters, counters: Counters, tools: Tools, names: set<string>) {
    forall k :: CountOf(counters, k) == CountOf(before, k) + if k.tool in names then Applied(tools, k) else 0
  }

  /** Counts one tool's row. */
  function WithRow(counters: Counters, tool: string, row: Row): Counters {
    var mode := OrOff(row.mode);
    var c := if row.valid > 0 then Bumped(counters, Key(tool, Valid, mode), row.valid) else counters;
    if row.invalid > 0 then Bumped(c, Key(tool, Invalid, mode), row.invalid) else c
  }

  lemma WithRowAdds(before: Counters, counters: Counters, tools: Tools, names: set<string>, tool: string)
    requires AppliedFor(before, counters, tools, names) && tool in tools && tool !in names
    ensures AppliedFor(before, WithRow(counters, tool, tools[tool]), tools, names + {tool})
  {
  }

  /** Adds a shipped ledger to the counters of this process and returns the number of tools in it. */
  method ApplyDeferred(before: Counters, tools: Tools) returns (counters: Counters, count: nat)
    ensures forall k :: CountOf(counters, k) == CountOf(before, k) + Applied(tools, k)
    ensures count == |tools|
  {
    counters, count := before, 0;
    var left := tools.Keys;
    while left != {}
      invariant left <= tools.Keys && count == |tools.Keys| - |left|
      invariant AppliedFor(before, counters, tools, tools.Keys - left)
      decreases |left|
    {
      var tool :| tool in left;
      WithRowAdds(before, counters, tools, tools.Keys - left, tool);
      counters := WithRow(counters, tool, tools[tool]);
      assert tools.Keys - (left - {tool}) == (tools.Keys - left) + {tool};
      left, count := left - {tool}, count + 1;
    }
    assert tools.Keys - left == tools.Keys;
    forall k ensures CountOf(counters, k) == CountOf(before, k) + Applied(tools, k) {
      assert CountOf(counters, k) == CountOf(before, k) + if k.tool in tools.Keys then Applied(tools, k) else 0;
    }
    assert |tools.Keys| == |tools|;
  }

  /** Where observations go: into the ledger while one is open, into the counters otherwise. */
  class Observer {
    var counters: Counters
    var ledger: Ledger?
    ghost var counted: seq<Observation>

    ghost predicate Counts()
      reads this
    {
      forall k :: CountOf(counters, k) == Direct(counted, k)
    }

    constructor ()
      ensures Counts() && counted == [] && ledger == null
    {
      counters, ledger, counted := map[], null, [];
    }

    /** Exactly one of the two gets the observation. */
    method Observe(o: Observation)
      requires Counts() && (ledger != null ==> ledger.Valid())
      modifies this, ledger
      ensures Counts() && ledger == old(ledger) && (ledger != null ==> ledger.Valid())
      ensures ledger != null ==> ledger.observed == old(ledger.observed) + [o] && counted == old(counted) && counters == old(counters)
      ensures ledger == null ==> counted == old(counted) + [o]
    {
      if ledger != null {
        ledger.Record(o);
        return;
      }
      var k := Key(o.tool, o.outcome, o.mode);
      counters := Bumped(counters, k, 1);
      counted := counted + [o];
      assert counted[..|counted| - 1] == old(counted);
    }

    /** Closes the ledger and counts it: if no tool changed mode, as if nothing had been deferred. */
    method CloseAndApply()
      requires Counts() && ledger != null && ledger.Valid()
      modifies this
      ensures ledger == null && counted == old(counted) + old(ledger.observed)
      ensures ModeConstant(old(ledger.observed)) ==> Counts()
    {
      ghost var obs := ledger.observed;
      var count: nat;
      counters, count := ApplyDeferred(counters, ledger.tools);
      if ModeConstant(obs) {
        forall k ensures CountOf(counters, k) == Direct(counted + obs, k) {
          DeferredKey(obs, ledger.maxErrors, k);
          DirectConcat(counted, obs, k);
        }
      }
      counted := counted + obs;
      ledger := null;
    }
  }

  lemma {:induction false} DirectConcat(a: seq<Observation>, b: seq<Observation>, k: Key)
    ensures Direct(a + b, k) == Direct(a, k) + Direct(b, k)
    decreases |b|
  {
    if b == [] {
      assert a + b == a;
    } else {
      DirectConcat(a, b[..|b| - 1], k);
      assert (a + b)[..|a + b| - 1] == a + b[..|b| - 1];
    }
  }
}
