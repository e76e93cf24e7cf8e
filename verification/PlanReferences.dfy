/**
 References inside a whole plan: the plan-time validation of AINDY/agents/step_references.py,
 the recorded results a reference reads, and the idempotency scope of a step
 (tool_effect_scope in AINDY/agents/tool_registry.py, compute_action_id in
 AINDY/core/execution_gate.py).
 */
module PlanReferences {
  import opened Common
  import opened Strings
  import opened Json
  import opened ResultShapes
  import opened StepReferences

  // ------------------------------------------------------------------ the plan

  /** A WAIT step carries `wait_for` and no tool. */
  predicate IsWaitStep(step: Json) {
    step.Obj? && !Get(step, "wait_for").Null? && !Truthy(Get(step, "tool"))
  }

  function PlanSteps(plan: Json): seq<Json> {
    if Get(plan, "steps").Arr? then Get(plan, "steps").items else []
  }

  /** The steps that take an ordinal, in order. */
  function ToolSteps(steps: seq<Json>): seq<Json>
    decreases |steps|
  {
    if steps == [] then []
    else
      var last := steps[|steps| - 1];
      ToolSteps(steps[..|steps| - 1]) + (if last.Obj? && !IsWaitStep(last) then [last] else [])
  }

  function ToolName(step: Json): string {
    if Get(step, "tool").Str? then Get(step, "tool").s else ""
  }

  function Args(step: Json): Json { Get(step, "args") }

  /** The entry of that name is what a field reads; without one it reads null. */
  ghost predicate Field(step: Json, name: string, v: Json) {
    Leads(step, Key(name), v) || (v.Null? && forall w :: !Leads(step, Key(name), w))
  }

  lemma FieldRead(step: Json, name: string)
    ensures Field(step, name, Get(step, name))
  {
    if Has(step, name) {
      ChildIff(step, name, Get(step, name));
    } else {
      forall w ensures !Leads(step, Key(name), w) { ChildIff(step, name, w); }
    }
  }

  /** What a step is, from its own fields: the arguments, the tool it names, and a WAIT when it waits for something and names none. */
  lemma StepReads(step: Json, args: Json, tool: Json, waitFor: Json)
    requires Field(step, "args", args) && Field(step, "tool", tool) && Field(step, "wait_for", waitFor)
    ensures Args(step) == args
    ensures ToolName(step) == if tool.Str? then tool.s else ""
    ensures IsWaitStep(step) <==> step.Obj? && waitFor != Null && !Truthy(tool)
  {
    FieldUnique(step, "args", args);
    FieldUnique(step, "tool", tool);
    FieldUnique(step, "wait_for", waitFor);
  }

  lemma FieldUnique(step: Json, name: string, v: Json)
    requires Field(step, name, v)
    ensures Get(step, name) == v
  {
    FieldRead(step, name);
    ChildIff(step, name, v);
    ChildIff(step, name, Get(step, name));
  }

  /** The tool steps of a plan are its object steps that are no WAITs. */
  lemma {:induction false} ToolStepsExactly(steps: seq<Json>, step: Json)
    ensures step in ToolSteps(steps) <==> step in steps && step.Obj? && !IsWaitStep(step)
    decreases |steps|
  {
    if steps != [] {
      ToolStepsExactly(steps[..|steps| - 1], step);
      assert steps == steps[..|steps| - 1] + [steps[|steps| - 1]];
    }
  }

  // ------------------------------------------------------------------ validation

  datatype Issue = Malformed(error: RefError) | Unreachable(target: int, why: PathIssue)

  datatype PlanError = PlanError(ordinal: nat, at: Position, issue: Issue)

  /** The shape a tool declared, when it declared a non-empty one. */
  function DeclaredShape(schemas: map<string, Json>, tool: string): Option<Json> {
    if tool in schemas && Truthy(schemas[tool]) then Some(schemas[tool]) else None
  }

  /** A tool whose schema is missing or empty declares nothing. */
  lemma DeclaredIff(schemas: map<string, Json>, tool: string, shape: Json)
    ensures DeclaredShape(schemas, tool) == Some(shape) <==>
            && tool in schemas && schemas[tool] == shape && !(shape.Obj? && shape.keys == [])
            && shape !in {Null, Bool(false), Int(0), Float(0.0), Str(""), Arr([])}
  {
    TruthyExactly(shape);
  }

  function Misshapen(ordinal: nat, at: Position, errors: seq<RefError>): (r: seq<PlanError>)
    ensures |r| == |errors|
  {
    seq(|errors|, i requires 0 <= i < |errors| => PlanError(ordinal, at, Malformed(errors[i])))
  }

  function FoundErrors(names: seq<string>, schemas: map<string, Json>, f: Found): seq<PlanError> {
    var k := |names|;
    if !f.ref.Obj? then []
    else
      var shape := ReferenceErrors(f.ref, Some(k));
      if shape != [] || !Has(f.ref, PATH_KEY) then Misshapen(k, f.at, shape)
      else
        var target := Get(f.ref, REFERENCE_KEY).n;
        var declared := DeclaredShape(schemas, names[target]);
        if declared.None? then []
        else
          var issue := CheckParts(declared.value, Split(Get(f.ref, PATH_KEY).s, '.'), []);
          if issue.None? then [] else [PlanError(k, f.at, Unreachable(target, issue.value))]
  }

  function AllFoundErrors(names: seq<string>, schemas: map<string, Json>, found: seq<Found>): nat -> seq<PlanError> {
    (j: nat) => if j < |found| then FoundErrors(names, schemas, found[j]) else []
  }

  function Names(tools: seq<Json>): (r: seq<string>)
    ensures |r| == |tools| && forall i :: 0 <= i < |r| ==> r[i] == ToolName(tools[i])
  {
    seq(|tools|, i requires 0 <= i < |tools| => ToolName(tools[i]))
  }

  /** The errors of the references in tool step k. */
  function OrdinalErrors(schemas: map<string, Json>, tools: seq<Json>, k: nat): seq<PlanError>
    requires k < |tools|
  {
    var found := Walk(Args(tools[k]), []);
    ConcatTo(AllFoundErrors(Names(tools[..k]), schemas, found), |found|)
  }

  function OrdinalPart(schemas: map<string, Json>, tools: seq<Json>): nat -> seq<PlanError> {
    (k: nat) => if k < |tools| then OrdinalErrors(schemas, tools, k) else []
  }

  function PlanErrors(schemas: map<string, Json>, tools: seq<Json>): seq<PlanError> {
    ConcatTo(OrdinalPart(schemas, tools), |tools|)
  }

  method StepErrors(names: seq<string>, schemas: map<string, Json>, found: seq<Found>) returns (errors: seq<PlanError>)
    ensures errors == ConcatTo(AllFoundErrors(names, schemas, found), |found|)
  {
    errors := ConcatAll(AllFoundErrors(names, schemas, found), |found|);
  }

  lemma {:induction false} ToolStepsSnoc(steps: seq<Json>, i: nat)
    requires i <= |steps|
    ensures ToolSteps(steps[..i]) <= ToolSteps(steps)
    ensures i < |steps| ==>
              ToolSteps(steps[..i + 1]) ==
                ToolSteps(steps[..i]) + (if steps[i].Obj? && !IsWaitStep(steps[i]) then [steps[i]] else [])
    decreases |steps| - i
  {
    if i < |steps| {
      assert steps[..i + 1][..i] == steps[..i];
      ToolStepsSnoc(steps, i + 1);
    } else {
      assert steps[..i] == steps;
    }
  }

  /** The loop of the validation after i plan steps. */
  ghost predicate Validated(schemas: map<string, Json>, steps: seq<Json>, i: nat, names: seq<string>, errors: seq<PlanError>) {
    && i <= |steps|
    && var tools := ToolSteps(steps);
       && |names| <= |tools| && tools[..|names|] == ToolSteps(steps[..i]) && names == Names(tools[..|names|])
       && errors == ConcatTo(OrdinalPart(schemas, tools), |names|)
  }

  lemma NextTool(steps: seq<Json>, i: nat, n: nat)
    requires i < |steps| && steps[i].Obj? && !IsWaitStep(steps[i])
    requires n <= |ToolSteps(steps)| && ToolSteps(steps)[..n] == ToolSteps(steps[..i])
    ensures n < |ToolSteps(steps)| && ToolSteps(steps)[n] == steps[i] && ToolSteps(steps)[..n + 1] == ToolSteps(steps[..i + 1])
    ensures ToolSteps(steps)[..n + 1] == ToolSteps(steps)[..n] + [steps[i]]
  {
    ToolStepsSnoc(steps, i);
    ToolStepsSnoc(steps, i + 1);
    PrefixGrows(ToolSteps(steps), n, ToolSteps(steps[..i + 1]), steps[i]);
  }

  lemma PrefixGrows(all: seq<Json>, n: nat, front: seq<Json>, x: Json)
    requires n <= |all| && front == all[..n] + [x] && front <= all
    ensures n < |all| && all[n] == x && all[..n + 1] == front
  {
    assert front[n] == x;
  }

  lemma NamesSnoc(tools: seq<Json>, tool: Json)
    ensures Names(tools + [tool]) == Names(tools) + [ToolName(tool)]
  {
  }

  lemma NextErrors(schemas: map<string, Json>, tools: seq<Json>, n: nat)
    requires n < |tools|
    ensures var found := Walk(Args(tools[n]), []);
            ConcatTo(OrdinalPart(schemas, tools), n + 1) ==
              ConcatTo(OrdinalPart(schemas, tools), n) + ConcatTo(AllFoundErrors(Names(tools[..n]), schemas, found), |found|)
  {
  }

  lemma ValidatedNext(schemas: map<string, Json>, steps: seq<Json>, i: nat, names: seq<string>, errors: seq<PlanError>)
    requires i < |steps| && Validated(schemas, steps, i, names, errors)
    ensures var found := Walk(Args(steps[i]), []);
            if steps[i].Obj? && !IsWaitStep(steps[i])
            then Validated(schemas, steps, i + 1, names + [ToolName(steps[i])],
                           errors + ConcatTo(AllFoundErrors(names, schemas, found), |found|))
            else Validated(schemas, steps, i + 1, names, errors)
  {
    if steps[i].Obj? && !IsWaitStep(steps[i]) {
      var tools, n := ToolSteps(steps), |names|;
      NextTool(steps, i, n);
      NamesSnoc(tools[..n], steps[i]);
      NextErrors(schemas, tools, n);
    } else {
      ToolStepsSnoc(steps, i);
    }
  }

  lemma ValidatedAll(schemas: map<string, Json>, steps: seq<Json>, names: seq<string>, errors: seq<PlanError>)
    requires Validated(schemas, steps, |steps|, names, errors)
    ensures errors == PlanErrors(schemas, ToolSteps(steps))
  {
    assert steps[..|steps|] == steps;
  }

  method ValidatePlanReferences(plan: Json, schemas: map<string, Json>) returns (errors: seq<PlanError>)
    ensures errors == PlanErrors(schemas, ToolSteps(PlanSteps(plan)))
  {
    errors := [];
    var steps := PlanSteps(plan);
    var names: seq<string> := [];
    var i := 0;
    while i < |steps|
      invariant Validated(schemas, steps, i, names, errors)
    {
      ValidatedNext(schemas, steps, i, names, errors);
      if steps[i].Obj? && !IsWaitStep(steps[i]) {
        var more := StepErrors(names, schemas, Walk(Args(steps[i]), []));
        errors := errors + more;
        names := names + [ToolName(steps[i])];
      }
      i := i + 1;
    }
    ValidatedAll(schemas, steps, names, errors);
  }

  /** What an accepted reference of step k satisfies. */
  ghost predicate ReferenceOk(tools: seq<Json>, schemas: map<string, Json>, k: nat, f: Found) {
    && f.ref.Obj?
    && (forall key :: key in f.ref.keys ==> key == REFERENCE_KEY || key == PATH_KEY)
    && Get(f.ref, REFERENCE_KEY).Int? && 0 <= Get(f.ref, REFERENCE_KEY).n < k < |tools|
    && (Has(f.ref, PATH_KEY) ==>
          && PathWellFormed(Get(f.ref, PATH_KEY))
          && var declared := DeclaredShape(schemas, ToolName(tools[Get(f.ref, REFERENCE_KEY).n]));
             declared.Some? ==> Reaches(declared.value, Get(f.ref, PATH_KEY).s))
  }

  lemma WellFormedIff(ref: Json, k: nat)
    requires LooksLikeReference(ref)
    ensures ReferenceErrors(ref, Some(k)) == [] <==>
              && (forall key :: key in ref.keys ==> key == REFERENCE_KEY || key == PATH_KEY)
              && Get(ref, REFERENCE_KEY).Int? && 0 <= Get(ref, REFERENCE_KEY).n < k
              && (Has(ref, PATH_KEY) ==> PathWellFormed(Get(ref, PATH_KEY)))
  {
  }

  lemma FoundOkIff(tools: seq<Json>, schemas: map<string, Json>, k: nat, f: Found)
    requires k < |tools| && LooksLikeReference(f.ref)
    ensures FoundErrors(Names(tools[..k]), schemas, f) == [] <==> ReferenceOk(tools, schemas, k, f)
  {
    WellFormedIff(f.ref, k);
    if ReferenceErrors(f.ref, Some(k)) == [] && Has(f.ref, PATH_KEY) {
      PathOkIff(tools, schemas, k, f);
    } else {
      var shape := ReferenceErrors(f.ref, Some(k));
      assert FoundErrors(Names(tools[..k]), schemas, f) == Misshapen(k, f.at, shape);
    }
  }

  lemma PathOkIff(tools: seq<Json>, schemas: map<string, Json>, k: nat, f: Found)
    requires k < |tools| && LooksLikeReference(f.ref)
    requires ReferenceErrors(f.ref, Some(k)) == [] && Has(f.ref, PATH_KEY)
    ensures var declared := DeclaredShape(schemas, ToolName(tools[Get(f.ref, REFERENCE_KEY).n]));
            FoundErrors(Names(tools[..k]), schemas, f) == [] <==>
              (declared.Some? ==> Reaches(declared.value, Get(f.ref, PATH_KEY).s))
  {
    var target := Get(f.ref, REFERENCE_KEY).n;
    assert Names(tools[..k])[target] == ToolName(tools[target]);
    var declared := DeclaredShape(schemas, ToolName(tools[target]));
    if declared.Some? {
      PathCheckExact(declared.value, Get(f.ref, PATH_KEY).s);
    }
  }

  ghost predicate StepOk(tools: seq<Json>, schemas: map<string, Json>, k: nat)
    requires k < |tools|
  {
    var found := Walk(Args(tools[k]), []);
    forall i :: 0 <= i < |found| ==> ReferenceOk(tools, schemas, k, found[i])
  }

  lemma StepOkIff(tools: seq<Json>, schemas: map<string, Json>, k: nat)
    requires k < |tools|
    ensures StepOk(tools, schemas, k) <==> OrdinalErrors(schemas, tools, k) == []
  {
    var found := Walk(Args(tools[k]), []);
    WalkedAreReferences(Args(tools[k]), []);
    var part := AllFoundErrors(Names(tools[..k]), schemas, found);
    ConcatEmptyIff(part, |found|);
    forall i | 0 <= i < |found| ensures part(i) == [] <==> ReferenceOk(tools, schemas, k, found[i]) {
      FoundOkIff(tools, schemas, k, found[i]);
    }
  }

  /**
   A plan is accepted exactly when each reference of each tool step names an earlier tool
   step and, where that step's tool declares a shape, a path that some value of it contains.
   */
  lemma ValidIff(plan: Json, schemas: map<string, Json>)
    ensures var tools := ToolSteps(PlanSteps(plan));
            PlanErrors(schemas, tools) == [] <==>
              forall k :: 0 <= k < |tools| ==> StepOk(tools, schemas, k)
  {
    var tools := ToolSteps(PlanSteps(plan));
    var part := OrdinalPart(schemas, tools);
    ConcatEmptyIff(part, |tools|);
    forall k | 0 <= k < |tools| ensures part(k) == [] <==> StepOk(tools, schemas, k) {
      PartOkIff(tools, schemas, k);
    }
  }

  lemma PartOkIff(tools: seq<Json>, schemas: map<string, Json>, k: nat)
    requires k < |tools|
    ensures OrdinalPart(schemas, tools)(k) == [] <==> StepOk(tools, schemas, k)
  {
    StepOkIff(tools, schemas, k);
  }

  // ------------------------------------------------------------------ a step's arguments

  ghost predicate AgreeBelow(a: int -> Lookup, b: int -> Lookup, k: int) {
    forall i :: 0 <= i < k ==> a(i) == b(i)
  }

  lemma {:induction false} EarlierOnly(v: Json, at: Position, k: int, a: int -> Lookup, b: int -> Lookup)
    requires AgreeBelow(a, b, k)
    requires forall i :: 0 <= i < |Walk(v, at)| ==> TargetsBelow(Walk(v, at)[i].ref, k)
    ensures Resolve(v, at, a) == Resolve(v, at, b)
    decreases v, 1
  {
    if LooksLikeReference(v) {
      assert Walk(v, at)[0].ref == v;
    } else if v.Obj? || v.Arr? {
      assert Walk(v, at) == WalkItems(v.items, at, 0);
      EarlierOnlyItems(v.items, at, 0, k, a, b);
    }
  }

  predicate TargetsBelow(ref: Json, k: int) {
    Get(ref, REFERENCE_KEY).Int? ==> Get(ref, REFERENCE_KEY).n < k
  }

  lemma {:induction false} EarlierOnlyItems(items: seq<Json>, at: Position, i: nat, k: int, a: int -> Lookup, b: int -> Lookup)
    requires AgreeBelow(a, b, k)
    requires forall j :: 0 <= j < |WalkItems(items, at, i)| ==> TargetsBelow(WalkItems(items, at, i)[j].ref, k)
    ensures ResolveItems(items, at, i, a) == ResolveItems(items, at, i, b)
    decreases items, 0
  {
    if items != [] {
      var x, y := Walk(items[0], at + [i]), WalkItems(items[1..], at, i + 1);
      assert WalkItems(items, at, i) == x + y;
      forall j | 0 <= j < |x| ensures TargetsBelow(x[j].ref, k) { assert (x + y)[j] == x[j]; }
      forall j | 0 <= j < |y| ensures TargetsBelow(y[j].ref, k) { assert (x + y)[|x| + j] == y[j]; }
      EarlierOnly(items[0], at + [i], k, a, b);
      EarlierOnlyItems(items[1..], at, i + 1, k, a, b);
    }
  }

  /** The idempotency key; the digest is taken to be collision-free. */
  datatype ActionId = ActionId(tool: string, args: Json, scope: string)

  function StepAction(run: string, tools: seq<Json>, k: nat, lookup: int -> Lookup): ActionId
    requires k < |tools|
  {
    ActionId(ToolName(tools[k]), Resolve(Args(tools[k]), [], lookup).value, EffectScope(run, Some(k)))
  }

  /**
   In a validated plan the arguments of tool step k, their problems and its action id depend
   only on what the lookup answers for the steps before k, missing results included: a
   re-drive over the same recorded results recomputes all three.
   */
  lemma RedriveRecomputes(plan: Json, schemas: map<string, Json>, run: string, k: nat, a: int -> Lookup, b: int -> Lookup)
    requires PlanErrors(schemas, ToolSteps(PlanSteps(plan))) == []
    requires k < |ToolSteps(PlanSteps(plan))| && AgreeBelow(a, b, k)
    ensures var tools := ToolSteps(PlanSteps(plan));
            && Resolve(Args(tools[k]), [], a) == Resolve(Args(tools[k]), [], b)
            && StepAction(run, tools, k, a) == StepAction(run, tools, k, b)
  {
    var tools := ToolSteps(PlanSteps(plan));
    ValidIff(plan, schemas);
    assert StepOk(tools, schemas, k);
    EarlierOnly(Args(tools[k]), [], k, a, b);
  }

  // ------------------------------------------------------------------ effect scopes

  const STEP_MARK := "#step:"

  function EffectScope(run: string, step: Option<int>): string {
    if step.None? then run else run + STEP_MARK + Decimal(step.value)
  }

  /** Two different steps of one run never share an effect scope, hence never an action id. */
  lemma StepScopesDiffer(run: string, i: int, j: int)
    requires i != j
    ensures EffectScope(run, Some(i)) != EffectScope(run, Some(j))
  {
    var x, y := run + STEP_MARK + Decimal(i), run + STEP_MARK + Decimal(j);
    assert x[|run + STEP_MARK|..] == Decimal(i) && y[|run + STEP_MARK|..] == Decimal(j);
    ParseDecimal(i);
    ParseDecimal(j);
  }

  lemma {:induction false} MarkSplits(run: string, tail: string)
    requires '#' !in run
    ensures Split(run + "#" + tail, '#')[0] == run && Split(run, '#') == [run]
  {
    SplitPiece(run, tail, '#');
  }

  /** Across runs the scope identifies both run and step when run ids contain no '#'. */
  lemma ScopesIdentify(r: string, s: string, i: Option<int>, j: Option<int>)
    requires '#' !in r && '#' !in s
    ensures EffectScope(r, i) == EffectScope(s, j) <==> r == s && i == j
  {
    if i.Some? {
      assert EffectScope(r, i) == r + "#" + (STEP_MARK[1..] + Decimal(i.value));
      MarkSplits(r, STEP_MARK[1..] + Decimal(i.value));
    } else {
      MarkSplits(r, "");
    }
    if j.Some? {
      assert EffectScope(s, j) == s + "#" + (STEP_MARK[1..] + Decimal(j.value));
      MarkSplits(s, STEP_MARK[1..] + Decimal(j.value));
    } else {
      MarkSplits(s, "");
    }
    if EffectScope(r, i) == EffectScope(s, j) {
      assert r == s;
      if i.Some? && j.Some? && i != j { StepScopesDiffer(r, i.value, j.value); }
    }
  }

  // ------------------------------------------------------------------ recorded step results

  /** `isinstance(index, int)` admits booleans, as 0 and 1. */
  function IndexOf(entry: Json): Option<int> {
    match Get(entry, "step_index")
    case Int(n) => Some(n)
    case Bool(b) => Some(if b then 1 else 0)
    case _ => None
  }

  /** The step an entry is for: its step_index, where true and false are one and zero, and nothing else counts. */
  lemma IndexRead(entry: Json, v: Json)
    requires Field(entry, "step_index", v)
    ensures IndexOf(entry) ==
            match v
            case Int(n) => Some(n)
            case Bool(true) => Some(1)
            case Bool(false) => Some(0)
            case _ => None
  {
    FieldUnique(entry, "step_index", v);
  }

  function AsLookup(entry: Json): Lookup {
    Entry(if Get(entry, "status").Str? then Get(entry, "status").s else "", Get(entry, "result"))
  }

  /** What a lookup carries of an entry: its status text and its result. */
  lemma LookupRead(entry: Json, status: Json, result: Json)
    requires Field(entry, "status", status) && Field(entry, "result", result)
    ensures AsLookup(entry) == Entry(if status.Str? then status.s else "", result)
  {
    FieldUnique(entry, "status", status);
    FieldUnique(entry, "result", result);
  }

  /** `entry` is the last one recorded for a step. */
  ghost predicate LatestFor(entries: seq<Json>, index: int, entry: Json) {
    exists i :: 0 <= i < |entries| && entries[i] == entry && IndexOf(entry) == Some(index) &&
                forall j :: i < j < |entries| ==> IndexOf(entries[j]) != Some(index)
  }

  ghost predicate Indexed(entries: seq<Json>, byIndex: map<int, Lookup>, k: int) {
    && (k in byIndex <==> exists i :: 0 <= i < |entries| && IndexOf(entries[i]) == Some(k))
    && (k in byIndex ==> exists e :: LatestFor(entries, k, e) && byIndex[k] == AsLookup(e))
  }

  function WithEntry(byIndex: map<int, Lookup>, entry: Json): map<int, Lookup> {
    match IndexOf(entry)
    case None => byIndex
    case Some(k) => byIndex[k := AsLookup(entry)]
  }

  lemma IndexedNext(entries: seq<Json>, i: nat, byIndex: map<int, Lookup>, k: int)
    requires i < |entries| && Indexed(entries[..i], byIndex, k)
    ensures Indexed(entries[..i + 1], WithEntry(byIndex, entries[i]), k)
  {
    var front, all := entries[..i], entries[..i + 1];
    assert all[i] == entries[i] && forall j :: 0 <= j < i ==> all[j] == front[j];
    if IndexOf(entries[i]) == Some(k) {
      assert LatestFor(all, k, entries[i]);
    } else if k in byIndex {
      var e :| LatestFor(front, k, e) && byIndex[k] == AsLookup(e);
      LatestStays(entries, i, k, e);
    }
  }

  method LookupFromStepResults(entries: seq<Json>) returns (byIndex: map<int, Lookup>)
    ensures forall k :: Indexed(entries, byIndex, k)
  {
    byIndex := map[];
    for i := 0 to |entries|
      invariant forall k :: Indexed(entries[..i], byIndex, k)
    {
      ghost var front, next := entries[..i + 1], WithEntry(byIndex, entries[i]);
      forall k ensures Indexed(front, next, k) { IndexedNext(entries, i, byIndex, k); }
      byIndex := WithEntry(byIndex, entries[i]);
    }
    assert entries[..|entries|] == entries;
  }

  lemma LatestStays(entries: seq<Json>, i: nat, k: int, e: Json)
    requires i < |entries| && LatestFor(entries[..i], k, e) && IndexOf(entries[i]) != Some(k)
    ensures LatestFor(entries[..i + 1], k, e)
  {
    assert entries[..i + 1] == entries[..i] + [entries[i]];
    var j :| 0 <= j < i && entries[..i][j] == e && IndexOf(e) == Some(k) &&
             forall m :: j < m < |entries[..i]| ==> IndexOf(entries[..i][m]) != Some(k);
    assert entries[..i + 1][j] == e;
  }

  /** The lookup over a table of recorded results. */
  function LookupIn(byIndex: map<int, Lookup>): int -> Lookup {
    i => if i in byIndex then byIndex[i] else Absent
  }

  function Latest(entries: seq<Json>, k: int): Option<Json>
    decreases |entries|
  {
    if entries == [] then None
    else if IndexOf(entries[|entries| - 1]) == Some(k) then Some(entries[|entries| - 1])
    else Latest(entries[..|entries| - 1], k)
  }

  lemma {:induction false} LatestExactly(entries: seq<Json>, k: int)
    ensures Latest(entries, k).None? <==> forall i :: 0 <= i < |entries| ==> IndexOf(entries[i]) != Some(k)
    ensures forall e :: LatestFor(entries, k, e) ==> Latest(entries, k) == Some(e)
    decreases |entries|
  {
    if entries != [] {
      var n := |entries| - 1;
      var front := entries[..n];
      assert forall i :: 0 <= i < n ==> front[i] == entries[i];
      LatestExactly(front, k);
      forall e | LatestFor(entries, k, e) ensures Latest(entries, k) == Some(e) {
        if IndexOf(entries[n]) != Some(k) { LatestOfFront(entries, k, e); }
      }
    }
  }

  lemma LatestOfFront(entries: seq<Json>, k: int, e: Json)
    requires entries != [] && LatestFor(entries, k, e) && IndexOf(entries[|entries| - 1]) != Some(k)
    ensures LatestFor(entries[..|entries| - 1], k, e)
  {
    var front := entries[..|entries| - 1];
    var i :| 0 <= i < |entries| && entries[i] == e && IndexOf(e) == Some(k) &&
             forall j :: i < j < |entries| ==> IndexOf(entries[j]) != Some(k);
    assert i < |front| && front[i] == e;
    assert forall j :: i < j < |front| ==> front[j] == entries[j];
  }

  /** What a table answers for a step is its last entry, as a lookup. */
  lemma TableAnswers(entries: seq<Json>, byIndex: map<int, Lookup>, k: int)
    requires Indexed(entries, byIndex, k)
    ensures LookupIn(byIndex)(k) == match Latest(entries, k) case None => Absent case Some(e) => AsLookup(e)
  {
    LatestExactly(entries, k);
    if k in byIndex {
      var e :| LatestFor(entries, k, e) && byIndex[k] == AsLookup(e);
      assert Latest(entries, k) == Some(e);
    }
  }

  lemma {:induction false} LatestUnmoved(entries: seq<Json>, more: seq<Json>, k: int)
    requires forall i :: 0 <= i < |more| ==> IndexOf(more[i]) != Some(k)
    ensures Latest(entries + more, k) == Latest(entries, k)
    decreases |more|
  {
    if more == [] {
      assert entries + more == entries;
    } else {
      var front := more[..|more| - 1];
      assert forall i :: 0 <= i < |front| ==> front[i] == more[i];
      LatestUnmoved(entries, front, k);
      assert (entries + more)[..|entries + more| - 1] == entries + front;
    }
  }

  /** Entries for step k and later. */
  ghost predicate FromStep(entries: seq<Json>, k: int) {
    forall i, n :: 0 <= i < |entries| && IndexOf(entries[i]) == Some(n) ==> n >= k
  }

  /**
   Tables built from the same results up to step k, with whatever recorded after it, make the
   re-drive of step k the same.
   */
  lemma RedriveFromResults(plan: Json, schemas: map<string, Json>, run: string, k: nat, entries: seq<Json>,
                           more: seq<Json>, more': seq<Json>, a: map<int, Lookup>, b: map<int, Lookup>)
    requires PlanErrors(schemas, ToolSteps(PlanSteps(plan))) == [] && k < |ToolSteps(PlanSteps(plan))|
    requires FromStep(more, k) && FromStep(more', k)
    requires (forall i :: Indexed(entries + more, a, i)) && (forall i :: Indexed(entries + more', b, i))
    ensures StepAction(run, ToolSteps(PlanSteps(plan)), k, LookupIn(a)) == StepAction(run, ToolSteps(PlanSteps(plan)), k, LookupIn(b))
  {
    forall i | 0 <= i < k ensures LookupIn(a)(i) == LookupIn(b)(i) {
      TableAnswers(entries + more, a, i);
      TableAnswers(entries + more', b, i);
      LatestUnmoved(entries, more, i);
      LatestUnmoved(entries, more', i);
    }
    RedriveRecomputes(plan, schemas, run, k, LookupIn(a), LookupIn(b));
  }
}
