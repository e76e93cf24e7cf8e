/**
 Which tools and capabilities a run is granted (AINDY/agents/capability_service.py).
 The registries and the user's auto-grant list are parameters.
 */
module Capabilities {
  import opened Common
  import opened Sorting

  const DEFAULT_AGENT_TYPE := "default"

  datatype Registries = Registries(
    definitions: set<string>,
    toolCaps: map<string, seq<string>>,
    agentCaps: map<string, seq<string>>,
    risks: map<string, string>)          // the tool registry: tool name to risk

  /** The tool each plan step names; None is a WAIT or other control step. */
  type Plan = seq<Option<string>>

  function Known(xs: seq<string>, names: set<string>): (r: seq<string>)
    ensures forall x :: x in r <==> x in xs && x in names
  {
    if xs == [] then [] else (if xs[0] in names then [xs[0]] else []) + Known(xs[1..], names)
  }

  function CapsForTool(reg: Registries, tool: string): seq<string> {
    if tool in reg.toolCaps then Known(reg.toolCaps[tool], reg.definitions) else []
  }

  function DeclaredForAgent(reg: Registries, agentType: string): seq<string> {
    if agentType in reg.agentCaps then reg.agentCaps[agentType] else []
  }

  /** An agent type without capabilities of its own has the default's. */
  function CapsForAgent(reg: Registries, agentType: string): seq<string> {
    var own := DeclaredForAgent(reg, agentType);
    Known(if own == [] && agentType != DEFAULT_AGENT_TYPE then DeclaredForAgent(reg, DEFAULT_AGENT_TYPE) else own,
          reg.definitions)
  }

  /** A defined capability of the type's own list, or of the default's when the type has no list or an empty one. */
  lemma AgentCapsExactly(reg: Registries, agentType: string, c: string)
    ensures var own := agentType in reg.agentCaps && reg.agentCaps[agentType] != [];
            c in CapsForAgent(reg, agentType) <==>
              && c in reg.definitions
              && (own ==> c in reg.agentCaps[agentType])
              && (!own ==> "default" in reg.agentCaps && c in reg.agentCaps["default"])
  {
  }

  /** `get_policy_for_risk(risk) == "auto_allowed"`; the risk levels are lower case. */
  predicate AutoAllowed(reg: Registries, tool: string) { tool in reg.risks && reg.risks[tool] == "low" }

  // ------------------------------------------------------------------ what a plan needs

  /** The tools a plan names, in order. */
  function ToolsOf(plan: Plan): seq<string>
    decreases |plan|
  {
    if plan == [] then []
    else
      var last := plan[|plan| - 1];
      ToolsOf(plan[..|plan| - 1]) + (if last.Some? then [last.value] else [])
  }

  predicate AllMapped(reg: Registries, tools: seq<string>) {
    forall i :: 0 <= i < |tools| ==> CapsForTool(reg, tools[i]) != []
  }

  function Gathered(reg: Registries, tools: seq<string>, agentType: string): seq<string>
    decreases |tools|
  {
    if tools == [] then CapsForAgent(reg, agentType)
    else Gathered(reg, tools[..|tools| - 1], agentType) + CapsForTool(reg, tools[|tools| - 1])
  }

  function RequiredCapabilities(reg: Registries, plan: Plan, agentType: string): seq<string> {
    var tools := ToolsOf(plan);
    if AllMapped(reg, tools) then SortedSet(Gathered(reg, tools, agentType)) else []
  }

  lemma {:induction false} ToolsOfIff(plan: Plan, t: string)
    ensures t in ToolsOf(plan) <==> Some(t) in plan
    decreases |plan|
  {
    if plan != [] {
      ToolsOfIff(plan[..|plan| - 1], t);
      assert plan == plan[..|plan| - 1] + [plan[|plan| - 1]];
    }
  }

  lemma {:induction false} GatheredExactly(reg: Registries, tools: seq<string>, agentType: string, c: string)
    ensures c in Gathered(reg, tools, agentType) <==>
            (c in CapsForAgent(reg, agentType) || exists t :: t in tools && c in CapsForTool(reg, t))
    decreases |tools|
  {
    if tools != [] {
      var front, last := tools[..|tools| - 1], tools[|tools| - 1];
      GatheredExactly(reg, front, agentType, c);
      assert tools == front + [last];
    }
  }

  /**
   The defined capabilities of the agent type and of every planned tool; none at all when
   a planned tool has no capability.
   */
  lemma RequiredExactly(reg: Registries, plan: Plan, agentType: string, c: string)
    ensures c in RequiredCapabilities(reg, plan, agentType) <==>
            (&& (forall t :: Some(t) in plan ==> CapsForTool(reg, t) != [])
             && (c in CapsForAgent(reg, agentType) || exists t :: Some(t) in plan && c in CapsForTool(reg, t)))
    ensures c in RequiredCapabilities(reg, plan, agentType) ==> c in reg.definitions
    ensures Increasing(RequiredCapabilities(reg, plan, agentType))
  {
    var tools := ToolsOf(plan);
    forall t ensures t in tools <==> Some(t) in plan { ToolsOfIff(plan, t); }
    GatheredExactly(reg, tools, agentType, c);
    SortedSetIncreasing(Gathered(reg, tools, agentType));
    assert AllMapped(reg, tools) <==> forall t :: t in tools ==> CapsForTool(reg, t) != [];
  }

  lemma {:induction false} ToolsOfStep(plan: Plan, i: nat)
    requires i < |plan|
    ensures ToolsOf(plan[..i + 1]) == ToolsOf(plan[..i]) + (if plan[i].Some? then [plan[i].value] else [])
    ensures ToolsOf(plan[..i + 1]) <= ToolsOf(plan)
    decreases |plan| - i
  {
    assert plan[..i + 1][..i] == plan[..i];
    if i + 1 == |plan| {
      assert plan[..i + 1] == plan;
    } else {
      ToolsOfStep(plan, i + 1);
    }
  }

  lemma NothingRequired(reg: Registries, plan: Plan, i: nat, agentType: string)
    requires i < |plan| && plan[i].Some? && CapsForTool(reg, plan[i].value) == []
    ensures RequiredCapabilities(reg, plan, agentType) == []
  {
    ToolsOfStep(plan, i);
    assert ToolsOf(plan)[|ToolsOf(plan[..i])|] == plan[i].value;
  }

  method PlanRequiredCapabilities(reg: Registries, plan: Plan, agentType: string) returns (caps: seq<string>)
    ensures caps == RequiredCapabilities(reg, plan, agentType)
  {
    var all := CapsForAgent(reg, agentType);
    ghost var tools := [];
    for i := 0 to |plan|
      invariant tools == ToolsOf(plan[..i]) && AllMapped(reg, tools)
      invariant all == Gathered(reg, tools, agentType)
    {
      ToolsOfStep(plan, i);
      if plan[i].Some? {
        var own := CapsForTool(reg, plan[i].value);
        if own == [] {
          NothingRequired(reg, plan, i, agentType);
          return [];
        }
        all := all + own;
        tools := tools + [plan[i].value];
      }
    }
    assert plan[..|plan|] == plan;
    caps := SortedSet(all);
  }

  // ------------------------------------------------------------------ what a run is granted

  predicate AllRegistered(reg: Registries, tools: seq<string>) {
    forall i :: 0 <= i < |tools| ==> tools[i] in reg.risks
  }

  predicate AllAuto(reg: Registries, auto: set<string>, tools: seq<string>) {
    forall i :: 0 <= i < |tools| ==> tools[i] in auto && AutoAllowed(reg, tools[i])
  }

  /** Manual approval grants any registered planned tool; otherwise all must be low risk and on the user's list. */
  function GrantableTools(reg: Registries, auto: set<string>, plan: Plan, mode: string): seq<string> {
    var tools := ToolsOf(plan);
    if AllRegistered(reg, tools) && (mode == "manual" || AllAuto(reg, auto, tools)) then SortedSet(tools) else []
  }

  /** A tool stays on the list unless it has capabilities and none is inside the ceiling. */
  function ToolsWithin(reg: Registries, tools: seq<string>, ceiling: set<string>): (r: seq<string>)
    ensures forall t :: t in r <==> t in tools && (CapsForTool(reg, t) == [] || exists c :: c in CapsForTool(reg, t) && c in ceiling)
  {
    if tools == [] then []
    else
      var caps := CapsForTool(reg, tools[0]);
      (if caps == [] || (exists i :: 0 <= i < |caps| && caps[i] in ceiling) then [tools[0]] else [])
      + ToolsWithin(reg, tools[1..], ceiling)
  }

  datatype Request = Request(
    runId: string, userId: string, plan: Plan, mode: string, agentType: string, ceiling: Option<set<string>>)

  datatype Grant = Grant(tools: seq<string>, caps: seq<string>)

  /** The two lists a mint writes into a token, or None when it refuses. */
  function Grants(reg: Registries, auto: set<string>, q: Request): Option<Grant> {
    var grantable, required := GrantableTools(reg, auto, q.plan, q.mode), RequiredCapabilities(reg, q.plan, q.agentType);
    var g := match q.ceiling
             case None => Grant(grantable, required)
             case Some(c) => Grant(ToolsWithin(reg, grantable, c), Known(required, c));
    if (grantable == [] && q.plan != []) || g.caps == [] then None
    else if q.mode == "auto" && exists i :: 0 <= i < |g.tools| && !AutoAllowed(reg, g.tools[i]) then None
    else Some(g)
  }

  /** Sorted, without repetitions, registered and defined. */
  ghost predicate Normal(reg: Registries, g: Grant) {
    && Increasing(g.tools) && (forall t :: t in g.tools ==> t in reg.risks)
    && Increasing(g.caps) && (forall c :: c in g.caps ==> c in reg.definitions)
  }

  lemma {:induction false} KnownIncreasing(xs: seq<string>, names: set<string>)
    requires Increasing(xs)
    ensures Increasing(Known(xs, names))
  {
    if xs != [] {
      KnownIncreasing(xs[1..], names);
      assert forall x :: x in Known(xs[1..], names) ==> x in xs[1..];
      assert forall x :: x in xs[1..] ==> Less(xs[0], x);
    }
  }

  lemma {:induction false} ToolsWithinIncreasing(reg: Registries, tools: seq<string>, ceiling: set<string>)
    requires Increasing(tools)
    ensures Increasing(ToolsWithin(reg, tools, ceiling))
  {
    if tools != [] {
      ToolsWithinIncreasing(reg, tools[1..], ceiling);
      var rest := ToolsWithin(reg, tools[1..], ceiling);
      assert forall x :: x in rest ==> x in tools[1..];
      assert forall x :: x in tools[1..] ==> Less(tools[0], x);
    }
  }

  lemma GrantableIff(reg: Registries, auto: set<string>, plan: Plan, mode: string, t: string)
    ensures t in GrantableTools(reg, auto, plan, mode) <==>
            (&& Some(t) in plan
             && (forall u :: Some(u) in plan ==> u in reg.risks && (mode == "manual" || (u in auto && AutoAllowed(reg, u)))))
    ensures Increasing(GrantableTools(reg, auto, plan, mode))
  {
    var tools := ToolsOf(plan);
    SortedSetIncreasing(tools);
    forall u ensures u in tools <==> Some(u) in plan { ToolsOfIff(plan, u); }
    assert AllRegistered(reg, tools) <==> forall u :: u in tools ==> u in reg.risks;
    assert AllAuto(reg, auto, tools) <==> forall u :: u in tools ==> u in auto && AutoAllowed(reg, u);
  }

  lemma GrantsNormal(reg: Registries, auto: set<string>, q: Request)
    requires Grants(reg, auto, q).Some?
    ensures Normal(reg, Grants(reg, auto, q).value)
  {
    var g := Grants(reg, auto, q).value;
    var grantable, required := GrantableTools(reg, auto, q.plan, q.mode), RequiredCapabilities(reg, q.plan, q.agentType);
    forall c ensures c in required ==> c in reg.definitions { RequiredExactly(reg, q.plan, q.agentType, c); }
    forall t ensures t in grantable ==> t in reg.risks { GrantableIff(reg, auto, q.plan, q.mode, t); }
    RequiredExactly(reg, q.plan, q.agentType, "");
    GrantableIff(reg, auto, q.plan, q.mode, "");
    if q.ceiling.Some? {
      KnownIncreasing(required, q.ceiling.value);
      ToolsWithinIncreasing(reg, grantable, q.ceiling.value);
    }
  }

  /**
   A mint succeeds exactly when the plan is empty or names tools that are all grantable, and
   some required capability lies inside the ceiling; the risk check of auto mode never adds
   a refusal.
   */
  lemma GrantsIff(reg: Registries, auto: set<string>, q: Request)
    ensures Grants(reg, auto, q).Some? <==>
            (&& (q.plan == [] || exists t :: t in GrantableTools(reg, auto, q.plan, q.mode))
             && (exists c :: c in RequiredCapabilities(reg, q.plan, q.agentType) && (q.ceiling.Some? ==> c in q.ceiling.value)))
  {
    var grantable, required := GrantableTools(reg, auto, q.plan, q.mode), RequiredCapabilities(reg, q.plan, q.agentType);
    forall t ensures t in grantable && q.mode != "manual" ==> AutoAllowed(reg, t) { GrantableIff(reg, auto, q.plan, q.mode, t); }
    assert grantable != [] ==> grantable[0] in grantable;
    assert required != [] ==> required[0] in required;
    if q.ceiling.Some? {
      var caps := Known(required, q.ceiling.value);
      assert caps != [] ==> caps[0] in caps;
    }
  }

  /**
   Least privilege: a grant holds only capabilities the plan or the agent type requires, and
   with a ceiling only those inside it; every tool granted is planned and registered, and in
   auto mode low risk and on the user's list.
   */
  lemma GrantsAreLeast(reg: Registries, auto: set<string>, q: Request, t: string, c: string)
    requires Grants(reg, auto, q).Some?
    ensures c in Grants(reg, auto, q).value.caps <==>
            c in RequiredCapabilities(reg, q.plan, q.agentType) && (q.ceiling.Some? ==> c in q.ceiling.value)
    ensures t in Grants(reg, auto, q).value.tools ==>
              && Some(t) in q.plan && t in reg.risks
              && (q.mode != "manual" ==> t in auto && AutoAllowed(reg, t))
  {
    GrantableIff(reg, auto, q.plan, q.mode, t);
  }

  /** Outside manual approval every tool granted, and every tool planned with it, is registered as low risk. */
  lemma AutoGrantsAreLowRisk(reg: Registries, auto: set<string>, q: Request, t: string)
    requires Grants(reg, auto, q).Some? && q.mode != "manual" && t in Grants(reg, auto, q).value.tools
    ensures forall u :: Some(u) in q.plan ==> u in auto && u in reg.risks && reg.risks[u] == "low"
    ensures Some(t) in q.plan
  {
    GrantableIff(reg, auto, q.plan, q.mode, t);
  }

  ghost predicate Covers(caps: seq<string>, needed: seq<string>) { forall c :: c in needed ==> c in caps }

  /** What the capability check asks of a grant before it lets an agent use a tool. */
  ghost predicate Exercisable(reg: Registries, g: Grant, agentType: string, tool: string) {
    && tool in g.tools && CapsForTool(reg, tool) != []
    && Covers(g.caps, CapsForTool(reg, tool)) && Covers(g.caps, CapsForAgent(reg, agentType))
  }

  lemma PlannedGranted(reg: Registries, auto: set<string>, q: Request, tool: string)
    requires Grants(reg, auto, q).Some? && Some(tool) in q.plan
    ensures tool in GrantableTools(reg, auto, q.plan, q.mode) && CapsForTool(reg, tool) != []
    ensures Covers(RequiredCapabilities(reg, q.plan, q.agentType), CapsForTool(reg, tool))
  {
    var grantable, required := GrantableTools(reg, auto, q.plan, q.mode), RequiredCapabilities(reg, q.plan, q.agentType);
    assert grantable != [] && required != [];
    GrantableIff(reg, auto, q.plan, q.mode, grantable[0]);
    GrantableIff(reg, auto, q.plan, q.mode, tool);
    RequiredExactly(reg, q.plan, q.agentType, required[0]);
    forall c | c in CapsForTool(reg, tool) ensures c in required { RequiredExactly(reg, q.plan, q.agentType, c); }
  }

  /** On what a request was granted: the planned tools whose capabilities are all inside the ceiling. */
  lemma ToolExercisableIff(reg: Registries, auto: set<string>, q: Request, tool: string)
    requires Grants(reg, auto, q).Some?
    ensures var g := Grants(reg, auto, q).value;
            (tool in g.tools && CapsForTool(reg, tool) != [] && Covers(g.caps, CapsForTool(reg, tool))) <==>
            (Some(tool) in q.plan && (q.ceiling.Some? ==> forall c :: c in CapsForTool(reg, tool) ==> c in q.ceiling.value))
  {
    GrantableIff(reg, auto, q.plan, q.mode, tool);
    if Some(tool) in q.plan {
      PlannedGranted(reg, auto, q, tool);
      assert CapsForTool(reg, tool)[0] in CapsForTool(reg, tool);
    }
  }

  /** Without a ceiling the agent type's own capabilities are granted too. */
  lemma AgentCovered(reg: Registries, auto: set<string>, q: Request)
    requires Grants(reg, auto, q).Some? && q.ceiling.None?
    ensures Covers(Grants(reg, auto, q).value.caps, CapsForAgent(reg, q.agentType))
  {
    var required := RequiredCapabilities(reg, q.plan, q.agentType);
    RequiredExactly(reg, q.plan, q.agentType, required[0]);
    forall c | c in CapsForAgent(reg, q.agentType) ensures c in required { RequiredExactly(reg, q.plan, q.agentType, c); }
  }
}
