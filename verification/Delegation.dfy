/**
 Guarded delegation of runs (AINDY/agents/runtime_guardrails.py,
 AINDY/agents/agent_coordinator.py): every table of runs that delegation can build is a
 bounded forest along which authority only narrows.

 Each step below is seen by the other dispatchers as a whole; a dispatch is two, the guard's
 reads and the insert, and any number of dispatchers may be between them.
 */
module Delegation {
  import opened Common
  import opened Lineage
  import opened Forest
  import opened Capabilities
  import opened Tokens

  const ACTIVE_STATUSES := {"pending_approval", "approved", "executing", "delegated", "waiting"}

  datatype Run = Run(
    parent: Option<RunId>,
    agent: Option<string>,       // spawned_by_agent_id
    status: string,
    trace: Option<string>,
    userId: string,
    plan: Plan,
    agentType: string,
    token: Option<Token>)

  type Table = map<RunId, Run>

  function Parents(table: Table): Links { map r | r in table :: table[r].parent }

  function Agents(table: Table): Links { map r | r in table :: table[r].agent }

  // ------------------------------------------------------------------ the guard

  datatype Verdict =
    | Admitted(depth: nat, children: nat)
    | ParentCycle | DepthExceeded | ChildLimitExceeded | AgentCycle | DuplicateChild

  predicate ActiveDuplicate(table: Table, parent: RunId, agent: Option<string>, trace: Option<string>) {
    agent.Some? && exists r :: r in table && table[r].parent == Some(parent) && table[r].status in ACTIVE_STATUSES &&
                               table[r].agent == agent && (trace.None? || table[r].trace == trace)
  }

  function Decide(limits: Limits, table: Table, chain: seq<RunId>, parent: RunId, agent: Option<string>, trace: Option<string>): Verdict
    requires chain != []
  {
    var depth, children := |chain| - 1, |Children(Parents(table), parent)|;
    if limits.maxDepth > 0 && depth >= limits.maxDepth then DepthExceeded
    else if limits.maxChildren > 0 && children >= limits.maxChildren then ChildLimitExceeded
    else if AgentAbove(Agents(table), chain, agent) then AgentCycle
    else if ActiveDuplicate(table, parent, agent, trace) then DuplicateChild
    else Admitted(depth, children)
  }

  ghost function Guard(limits: Limits, table: Table, parent: RunId, agent: Option<string>, trace: Option<string>): Verdict {
    if HasAncestry(Parents(table), parent)
    then Decide(limits, table, ChainOf(Parents(table), parent), parent, agent, trace)
    else ParentCycle
  }

  /** The child that stands in the way: an active one of the same parent and agent, in the same trace when there is one. */
  ghost predicate Duplicates(child: Run, parent: RunId, agent: Option<string>, trace: Option<string>) {
    && child.parent == Some(parent) && child.agent == agent && (trace.Some? ==> child.trace == trace)
    && child.status in {"pending_approval", "approved", "executing", "delegated", "waiting"}
  }

  /** What the guard lets through, a limit of zero being none: room in depth and breadth, a new agent on the line, no duplicate. */
  lemma AdmittedIff(limits: Limits, table: Table, parent: RunId, agent: Option<string>, trace: Option<string>)
    requires parent in table
    ensures Guard(limits, table, parent, agent, trace).Admitted? <==>
            (&& HasAncestry(Parents(table), parent)
             && (limits.maxDepth <= 0 || |ChainOf(Parents(table), parent)| <= limits.maxDepth)
             && (limits.maxChildren <= 0 || |Children(Parents(table), parent)| < limits.maxChildren)
             && (agent.Some? ==> forall i :: 0 <= i < |ChainOf(Parents(table), parent)| ==>
                   !(ChainOf(Parents(table), parent)[i] in table && table[ChainOf(Parents(table), parent)[i]].agent == agent))
             && (agent.Some? ==> forall r :: r in table ==> !Duplicates(table[r], parent, agent, trace)))
  {
    if HasAncestry(Parents(table), parent) {
      var chain := ChainOf(Parents(table), parent);
      assert forall i :: 0 <= i < |chain| && chain[i] in table ==> Agents(table)[chain[i]] == table[chain[i]].agent;
    }
  }

  method EnforceDelegationGuardrails(limits: Limits, table: Table, parent: RunId, agent: Option<string>, trace: Option<string>)
    returns (verdict: Verdict)
    requires parent in table
    ensures verdict == Guard(limits, table, parent, agent, trace)
  {
    var links := Parents(table);
    var chain := LoadParentChain(links, parent);
    if chain.None? { return ParentCycle; }
    assert HasAncestry(links, parent);
    AncestryUnique(links, chain.value, ChainOf(links, parent), parent);
    verdict := Decide(limits, table, chain.value, parent, agent, trace);
  }

  // ------------------------------------------------------------------ the ceiling of a delegate

  /** `selected` and `registered`: the delegate's capabilities as offered and as the agent registry has them. */
  function DelegateCeiling(parentCaps: set<string>, selected: set<string>, registered: set<string>): set<string> {
    var delegateCaps := if selected == {} then registered else selected;
    if parentCaps == {} then delegateCaps
    else if delegateCaps == {} then parentCaps
    else parentCaps * delegateCaps
  }

  /** The ceiling is inside the parent's grant exactly when there is one or the delegate declares nothing. */
  lemma CeilingInsideParent(parentCaps: set<string>, selected: set<string>, registered: set<string>)
    ensures DelegateCeiling(parentCaps, selected, registered) <= parentCaps <==>
            (parentCaps != {} || (selected == {} && registered == {}))
    ensures !(DelegateCeiling({}, {"search"}, {}) <= {})
  {
  }

  /**
   Whose capabilities the ceiling holds: with a grant above and a delegate that declares
   something, those in both; otherwise those of the one that has any.
   */
  lemma CeilingExactly(parentCaps: set<string>, selected: set<string>, registered: set<string>, c: string)
    ensures var own := if selected != {} then selected else registered;
            c in DelegateCeiling(parentCaps, selected, registered) <==>
              (parentCaps != {} ==> c in parentCaps) && (own != {} ==> c in own) && (parentCaps != {} || own != {})
  {
  }

  // ------------------------------------------------------------------ every way the table changes

  /** What a mint or a refresh reads besides the run. */
  datatype Issuer = Issuer(reg: Registries, auto: set<string>, mac: Mac, key: string, now: int, nonce: string)

  datatype Action =
    | Create(id: RunId, run: Run, via: Issuer)
    | Approve(id: RunId, via: Issuer)
    | Delegate(parent: RunId, child: RunId, agent: Option<string>, agentType: string, trace: Option<string>,
               selected: set<string>, registered: set<string>, handshake: bool, via: Issuer)
    | Refresh(id: RunId, via: Issuer)
    | SetStatus(id: RunId, status: string)

  function Mint(via: Issuer, id: RunId, run: Run, mode: string, ceiling: Option<set<string>>): Option<Token> {
    MintToken(via.reg, via.auto, via.mac, via.key, via.now, via.nonce,
              Request(id, run.userId, run.plan, mode, run.agentType, ceiling))
  }

  function CapsOf(run: Run): set<string> {
    match run.token
    case None => {}
    case Some(t) => set c | c in t.grant.caps
  }

  function Child(table: Table, a: Action): Run
    requires a.Delegate? && a.parent in table
  {
    var parent := table[a.parent];
    var run := Run(Some(a.parent), a.agent, if a.handshake then "awaiting_delegation" else "approved",
                   if a.trace.Some? then a.trace else parent.trace, parent.userId, parent.plan, a.agentType, None);
    run.(token := Mint(a.via, a.child, run, "manual", Some(DelegateCeiling(CapsOf(parent), a.selected, a.registered))))
  }

  ghost predicate Enabled(table: Table, a: Action) {
    match a
    // A run is created on its own, waiting for approval or approved with a token of its own.
    case Create(id, run, via) =>
      && id !in table && run.parent.None?
      && (run.token.Some? ==> run.status != "pending_approval" && run.token == Mint(via, id, run, "auto", None))
    case Approve(id, via) =>
      && id in table && table[id].status == "pending_approval" && Mint(via, id, table[id], "manual", None).Some?
    case Delegate(parent, child, _, _, _, _, _, _, _) => parent in table && child !in table
    case Refresh(id, via) =>
      && id in table && table[id].token.Some?
      && RefreshToken(via.mac, via.key, via.now, via.nonce, table[id].token.value).Some?
    // Nothing puts a run back in the approval queue.
    case SetStatus(id, status) => id in table && status != "pending_approval"
  }

  ghost function Apply(table: Table, a: Action): Table {
    if !Enabled(table, a) then table
    else
      match a
      case Create(id, run, _) => table[id := run]
      case Approve(id, via) => table[id := table[id].(status := "approved", token := Mint(via, id, table[id], "manual", None))]
      case Delegate(parent, child, _, _, _, _, _, _, _) =>
        table[parent := table[parent].(status := "delegated")][child := Child(table, a)]
      case Refresh(id, via) =>
        table[id := table[id].(token := RefreshToken(via.mac, via.key, via.now, via.nonce, table[id].token.value))]
      case SetStatus(id, status) => table[id := table[id].(status := status)]
  }

  /** `past[i]`: a dispatch by dispatcher i that the guard has admitted and that is not inserted yet. */
  datatype State = State(table: Table, past: seq<Option<Action>>)

  datatype Step = Do(a: Action) | Pass(i: nat, a: Action) | Insert(i: nat)

  function TraceOf(table: Table, a: Action): Option<string>
    requires a.Delegate? && a.parent in table
  {
    if a.trace.Some? then a.trace else table[a.parent].trace
  }

  ghost predicate Passes(limits: Limits, table: Table, a: Action) {
    a.Delegate? && a.parent in table && Guard(limits, table, a.parent, a.agent, TraceOf(table, a)).Admitted?
  }

  ghost function Next(limits: Limits, s: State, step: Step): State {
    match step
    case Do(a) => if a.Delegate? then s else s.(table := Apply(s.table, a))
    case Pass(i, a) =>
      if i < |s.past| && s.past[i].None? && Passes(limits, s.table, a) then s.(past := s.past[i := Some(a)]) else s
    case Insert(i) =>
      if i < |s.past| && s.past[i].Some? then State(Apply(s.table, s.past[i].value), s.past[i := None]) else s
  }

  /** After any steps of n dispatchers and everybody else, from the empty table. */
  ghost function Reachable(limits: Limits, n: nat, steps: seq<Step>): State
    decreases |steps|
  {
    if steps == [] then State(map[], seq(n, _ => None))
    else Next(limits, Reachable(limits, n, steps[..|steps| - 1]), steps[|steps| - 1])
  }

  // ------------------------------------------------------------------ tokens and approval

  ghost predicate RunOk(table: Table, r: RunId)
    requires r in table
  {
    && (table[r].token.Some? ==> CapsOf(table[r]) != {})
    && (table[r].parent.Some? ==> table[r].status != "pending_approval")
    && (table[r].parent.Some? && table[r].parent.value in table ==>
          var p := table[table[r].parent.value];
          p.status != "pending_approval" && (table[r].token.Some? && p.token.Some? ==> CapsOf(table[r]) <= CapsOf(p)))
  }

  /** Tokens grant something; a child's grants nothing its parent's does not; only roots without children await approval. */
  ghost predicate TokensOk(table: Table) { forall r :: r in table ==> RunOk(table, r) }

  lemma MintCaps(via: Issuer, id: RunId, run: Run, mode: string, ceiling: Option<set<string>>)
    ensures var minted := run.(token := Mint(via, id, run, mode, ceiling));
            minted.token.Some? ==> CapsOf(minted) != {} && (ceiling.Some? ==> CapsOf(minted) <= ceiling.value)
  {
    var minted := run.(token := Mint(via, id, run, mode, ceiling));
    if minted.token.Some? { assert minted.token.value.grant.caps[0] in CapsOf(minted); }
  }

  /** A delegated child's token has something in it, and nothing its parent's has not. */
  lemma ChildCaps(table: Table, a: Action)
    requires a.Delegate? && a.parent in table
    ensures Child(table, a).token.Some? ==>
              && CapsOf(Child(table, a)) != {}
              && (CapsOf(table[a.parent]) != {} ==> CapsOf(Child(table, a)) <= CapsOf(table[a.parent]))
  {
    var run := Child(table, a).(token := None);
    var ceiling := DelegateCeiling(CapsOf(table[a.parent]), a.selected, a.registered);
    MintCaps(a.via, a.child, run, "manual", Some(ceiling));
    CeilingInsideParent(CapsOf(table[a.parent]), a.selected, a.registered);
  }

  /** Changing a run in place: its grants stay, or it was still awaiting approval. */
  lemma TokensReplaced(table: Table, id: RunId, run: Run)
    requires TokensOk(table) && id in table && run.parent == table[id].parent && run.status != "pending_approval"
    requires run.token.Some? ==> CapsOf(run) != {}
    requires table[id].status == "pending_approval" ||
             (CapsOf(run) == CapsOf(table[id]) && (run.token.Some? <==> table[id].token.Some?))
    ensures TokensOk(table[id := run])
  {
  }

  lemma TokensAdded(table: Table, id: RunId, run: Run)
    requires TokensOk(table) && Closed(Parents(table)) && id !in table
    requires RunOk(table[id := run], id) && run.parent != Some(id)
    ensures TokensOk(table[id := run])
  {
    var table' := table[id := run];
    forall r | r in table' ensures RunOk(table', r) {
      if r != id {
        assert RunOk(table, r) && Parents(table)[r] == table[r].parent;
      }
    }
  }

  lemma TokensDelegated(table: Table, a: Action)
    requires TokensOk(table) && Closed(Parents(table)) && a.Delegate? && a.parent in table && a.child !in table
    ensures TokensOk(Apply(table, a))
  {
    var parent := table[a.parent].(status := "delegated");
    var table1 := table[a.parent := parent];
    assert RunOk(table, a.parent);
    TokensReplaced(table, a.parent, parent);
    assert Parents(table1) == Parents(table);
    ChildCaps(table, a);
    TokensAdded(table1, a.child, Child(table, a));
  }

  lemma TokensCreated(table: Table, a: Action)
    requires TokensOk(table) && Closed(Parents(table)) && a.Create?
    ensures TokensOk(Apply(table, a))
  {
    if Enabled(table, a) {
      MintCaps(a.via, a.id, a.run, "auto", None);
      assert a.run.token.Some? ==> a.run.(token := Mint(a.via, a.id, a.run, "auto", None)) == a.run;
      TokensAdded(table, a.id, a.run);
    }
  }

  lemma TokensApproved(table: Table, a: Action)
    requires TokensOk(table) && a.Approve?
    ensures TokensOk(Apply(table, a))
  {
    if Enabled(table, a) {
      MintCaps(a.via, a.id, table[a.id], "manual", None);
      TokensReplaced(table, a.id, Apply(table, a)[a.id]);
    }
  }

  lemma TokensRefreshed(table: Table, a: Action)
    requires TokensOk(table) && (a.Refresh? || a.SetStatus?)
    ensures TokensOk(Apply(table, a))
  {
  }

  lemma TokensKept(table: Table, a: Action)
    requires TokensOk(table) && Closed(Parents(table))
    ensures TokensOk(Apply(table, a))
  {
    if a.Create? {
      TokensCreated(table, a);
    } else if a.Delegate? {
      if a.parent in table && a.child !in table { TokensDelegated(table, a); }
    } else if a.Approve? {
      TokensApproved(table, a);
    } else {
      TokensRefreshed(table, a);
    }
  }

  // ------------------------------------------------------------------ every reachable table

  /** How many dispatches past the guard are for `p`. */
  function PastFor(p: RunId): Option<Action> -> nat {
    (o: Option<Action>) => if o.Some? && o.value.Delegate? && o.value.parent == p then 1 else 0
  }

  ghost predicate PastOk(limits: Limits, table: Table, o: Option<Action>) {
    o.Some? ==> o.value.Delegate? && GuardPassed(limits, Parents(table), Agents(table), Some(o.value.parent), o.value.agent)
  }

  ghost predicate AllPastOk(limits: Limits, s: State) { forall i :: 0 <= i < |s.past| ==> PastOk(limits, s.table, s.past[i]) }

  /** A run's children and the dispatches past the guard for it exceed the limit by at most the dispatchers that race. */
  ghost predicate Narrow(limits: Limits, s: State) {
    limits.maxChildren > 0 ==>
      forall p :: |Children(Parents(s.table), p)| + Sum(s.past, PastFor(p)) <= limits.maxChildren + Rivals(|s.past|)
  }

  ghost predicate Inv(limits: Limits, s: State) {
    TableShaped(limits, s.table) && TokensOk(s.table) && AllPastOk(limits, s) && Narrow(limits, s)
  }

  ghost predicate TableShaped(limits: Limits, table: Table) { Shaped(limits, Parents(table), Agents(table)) }

  lemma LinksAfter(table: Table, id: RunId, run: Run)
    ensures Parents(table[id := run]) == Parents(table)[id := run.parent]
    ensures Agents(table[id := run]) == Agents(table)[id := run.agent]
  {
  }

  lemma ShapeAfterAdding(limits: Limits, table: Table, id: RunId, run: Run)
    requires TableShaped(limits, table) && id !in table
    requires GuardPassed(limits, Parents(table), Agents(table), run.parent, run.agent)
    ensures TableShaped(limits, table[id := run])
  {
    LinksAfter(table, id, run);
    ShapedGrows(limits, Parents(table), Agents(table), id, run.parent, run.agent);
  }

  lemma LinksUnchanged(table: Table, id: RunId, run: Run)
    requires id in table && run.parent == table[id].parent && run.agent == table[id].agent
    ensures Parents(table[id := run]) == Parents(table) && Agents(table[id := run]) == Agents(table)
  {
  }

  // ------------------------------------------------------------------ steps that add no run

  /** A change in place keeps links and agents, and so everything said about them. */
  lemma ChangedInv(limits: Limits, s: State, id: RunId, run: Run)
    requires TableShaped(limits, s.table) && AllPastOk(limits, s) && Narrow(limits, s)
    requires id in s.table && run.parent == s.table[id].parent && run.agent == s.table[id].agent
    ensures var t := s.(table := s.table[id := run]); TableShaped(limits, t.table) && AllPastOk(limits, t) && Narrow(limits, t)
  {
    LinksUnchanged(s.table, id, run);
    var t := s.(table := s.table[id := run]);
    forall i | 0 <= i < |t.past| ensures PastOk(limits, t.table, t.past[i]) { assert PastOk(limits, s.table, s.past[i]); }
  }

  lemma PassedNarrow(limits: Limits, s: State, i: nat, a: Action, p: RunId)
    requires Narrow(limits, s) && limits.maxChildren > 0 && i < |s.past| && s.past[i].None? && Passes(limits, s.table, a)
    ensures |Children(Parents(s.table), p)| + Sum(s.past[i := Some(a)], PastFor(p)) <= limits.maxChildren + Rivals(|s.past|)
  {
    if p == a.parent {
      AtMostEach(s.past[i := Some(a)], PastFor(p));
    } else {
      SumUpdate(s.past, i, Some(a), PastFor(p));
    }
  }

  lemma PassedInv(limits: Limits, s: State, i: nat, a: Action)
    requires Inv(limits, s) && i < |s.past| && s.past[i].None? && Passes(limits, s.table, a)
    ensures Inv(limits, s.(past := s.past[i := Some(a)]))
  {
    var t := s.(past := s.past[i := Some(a)]);
    forall j | 0 <= j < |t.past| ensures PastOk(limits, t.table, t.past[j]) {
      if j != i { assert PastOk(limits, s.table, s.past[j]); }
    }
    if limits.maxChildren > 0 {
      forall p ensures |Children(Parents(t.table), p)| + Sum(t.past, PastFor(p)) <= limits.maxChildren + Rivals(|t.past|) {
        PassedNarrow(limits, s, i, a, p);
      }
    }
  }

  // ------------------------------------------------------------------ steps that add one

  lemma AddedAllPastOk(limits: Limits, s: State, id: RunId, run: Run)
    requires TableShaped(limits, s.table) && id !in s.table && AllPastOk(limits, s)
    ensures AllPastOk(limits, s.(table := s.table[id := run]))
  {
    LinksAfter(s.table, id, run);
    forall i | 0 <= i < |s.past| ensures PastOk(limits, s.table[id := run], s.past[i]) {
      var o := s.past[i];
      assert PastOk(limits, s.table, o);
      if o.Some? {
        GuardStays(limits, Parents(s.table), Agents(s.table), id, run.parent, run.agent, o.value.parent, o.value.agent);
      }
    }
  }

  lemma AddedChildren(table: Table, id: RunId, run: Run, p: RunId)
    requires id !in table
    ensures |Children(Parents(table[id := run]), p)| == |Children(Parents(table), p)| + (if run.parent == Some(p) then 1 else 0)
  {
    LinksAfter(table, id, run);
    ChildrenOfNew(Parents(table), id, run.parent, p);
  }

  lemma CreatedInv(limits: Limits, s: State, id: RunId, run: Run)
    requires TableShaped(limits, s.table) && AllPastOk(limits, s) && Narrow(limits, s) && id !in s.table && run.parent.None?
    ensures var t := s.(table := s.table[id := run]); TableShaped(limits, t.table) && AllPastOk(limits, t) && Narrow(limits, t)
  {
    ShapeAfterAdding(limits, s.table, id, run);
    AddedAllPastOk(limits, s, id, run);
    forall p ensures |Children(Parents(s.table[id := run]), p)| == |Children(Parents(s.table), p)| {
      AddedChildren(s.table, id, run, p);
    }
  }

  lemma InsertedNarrow(limits: Limits, s: State, i: nat, id: RunId, run: Run, p: RunId)
    requires Narrow(limits, s) && limits.maxChildren > 0 && id !in s.table
    requires i < |s.past| && s.past[i].Some? && s.past[i].value.Delegate? && run.parent == Some(s.past[i].value.parent)
    ensures |Children(Parents(s.table[id := run]), p)| + Sum(s.past[i := None], PastFor(p)) <= limits.maxChildren + Rivals(|s.past|)
  {
    AddedChildren(s.table, id, run, p);
    SumUpdate(s.past, i, None, PastFor(p));
  }

  lemma InsertedInv(limits: Limits, s: State, i: nat, id: RunId, run: Run)
    requires TableShaped(limits, s.table) && AllPastOk(limits, s) && Narrow(limits, s) && id !in s.table
    requires i < |s.past| && s.past[i].Some? && s.past[i].value.Delegate?
    requires run.parent == Some(s.past[i].value.parent) && run.agent == s.past[i].value.agent
    ensures var t := State(s.table[id := run], s.past[i := None]);
            TableShaped(limits, t.table) && AllPastOk(limits, t) && Narrow(limits, t)
  {
    var t := State(s.table[id := run], s.past[i := None]);
    assert PastOk(limits, s.table, s.past[i]);
    ShapeAfterAdding(limits, s.table, id, run);
    AddedAllPastOk(limits, s, id, run);
    forall j | 0 <= j < |t.past| ensures PastOk(limits, t.table, t.past[j]) {
      if j != i { assert PastOk(limits, s.(table := t.table).table, s.past[j]); }
    }
    if limits.maxChildren > 0 {
      forall p ensures |Children(Parents(t.table), p)| + Sum(t.past, PastFor(p)) <= limits.maxChildren + Rivals(|t.past|) {
        InsertedNarrow(limits, s, i, id, run, p);
      }
    }
  }

  // ------------------------------------------------------------------ all of them

  lemma ActionInv(limits: Limits, s: State, a: Action)
    requires Inv(limits, s) && !a.Delegate?
    ensures Inv(limits, s.(table := Apply(s.table, a)))
  {
    TokensKept(s.table, a);
    if !Enabled(s.table, a) {
      assert s.(table := Apply(s.table, a)) == s;
    } else if a.Create? {
      CreatedInv(limits, s, a.id, a.run);
    } else {
      ChangedInv(limits, s, a.id, Apply(s.table, a)[a.id]);
    }
  }

  lemma InsertInv(limits: Limits, s: State, i: nat)
    requires Inv(limits, s) && i < |s.past| && s.past[i].Some? && s.past[i].value.Delegate?
    requires s.past[i].value.parent in s.table && s.past[i].value.child !in s.table
    ensures Inv(limits, Next(limits, s, Insert(i)))
  {
    var a := s.past[i].value;
    assert PastOk(limits, s.table, s.past[i]);
    TokensKept(s.table, a);
    var parent := s.table[a.parent].(status := "delegated");
    ChangedInv(limits, s, a.parent, parent);
    InsertedInv(limits, s.(table := s.table[a.parent := parent]), i, a.child, Child(s.table, a));
  }

  lemma DroppedInv(limits: Limits, s: State, i: nat)
    requires Inv(limits, s) && i < |s.past| && s.past[i].Some?
    ensures Inv(limits, s.(past := s.past[i := None]))
  {
    var t := s.(past := s.past[i := None]);
    forall j | 0 <= j < |t.past| ensures PastOk(limits, t.table, t.past[j]) {
      if j != i { assert PastOk(limits, s.table, s.past[j]); }
    }
    forall p ensures Sum(t.past, PastFor(p)) <= Sum(s.past, PastFor(p)) { SumUpdate(s.past, i, None, PastFor(p)); }
  }

  lemma NextInv(limits: Limits, s: State, step: Step)
    requires Inv(limits, s)
    ensures Inv(limits, Next(limits, s, step)) && |Next(limits, s, step).past| == |s.past|
  {
    match step
    case Do(a) => if !a.Delegate? { ActionInv(limits, s, a); }
    case Pass(i, a) =>
      if i < |s.past| && s.past[i].None? && Passes(limits, s.table, a) { PassedInv(limits, s, i, a); }
    case Insert(i) =>
      if i < |s.past| && s.past[i].Some? {
        assert PastOk(limits, s.table, s.past[i]);
        if Enabled(s.table, s.past[i].value) { InsertInv(limits, s, i); } else { DroppedInv(limits, s, i); }
      }
  }

  lemma EmptyInv(limits: Limits, n: nat)
    ensures Inv(limits, Reachable(limits, n, []))
  {
    var s := Reachable(limits, n, []);
    assert Parents(s.table).Keys == {} == Agents(s.table).Keys;
    forall p ensures |Children(Parents(s.table), p)| + Sum(s.past, PastFor(p)) == 0 {
      assert Children(Parents(s.table), p) == {};
      SumZero(s.past, PastFor(p));
    }
  }

  lemma {:induction false} ReachableInv(limits: Limits, n: nat, steps: seq<Step>)
    ensures Inv(limits, Reachable(limits, n, steps)) && |Reachable(limits, n, steps).past| == n
    decreases |steps|
  {
    if steps == [] {
      EmptyInv(limits, n);
    } else {
      ReachableInv(limits, n, steps[..|steps| - 1]);
      NextInv(limits, Reachable(limits, n, steps[..|steps| - 1]), steps[|steps| - 1]);
    }
  }

  /** The most children a run can get: the limit, and one more for each other dispatcher that raced past the guard. */
  function Breadth(limits: Limits, n: nat): nat
    requires limits.maxChildren > 0
  {
    limits.maxChildren + Rivals(n)
  }

  /**
   In every table that any number of racing dispatchers can build each run hangs below a
   root, at most `maxDepth` deep, with no agent repeated on the way down.
   */
  lemma LinesBounded(limits: Limits, n: nat, steps: seq<Step>, r: RunId)
    requires r in Reachable(limits, n, steps).table
    ensures var table := Reachable(limits, n, steps).table;
            var links := Parents(table);
            && HasAncestry(links, r) && links[ChainOf(links, r)[0]].None?
            && (limits.maxDepth > 0 ==> |ChainOf(links, r)| - 1 <= limits.maxDepth)
            && DistinctAgents(Agents(table), ChainOf(links, r))
  {
    ReachableInv(limits, n, steps);
    var table := Reachable(limits, n, steps).table;
    assert Placed(limits, Parents(table), Agents(table), r);
    assert Parents(table)[ChainOf(Parents(table), r)[0]].None?;
  }

  /**
   No run has more than C + n - 1 children when n dispatchers race, and so a tree has at most
   1 + B + ... + B^D runs for B = C + n - 1; with dispatches one after the other that is C.
   */
  lemma ForestBounded(limits: Limits, n: nat, steps: seq<Step>, r: RunId)
    requires limits.maxChildren > 0
    ensures var links := Parents(Reachable(limits, n, steps).table);
            && |Children(links, r)| <= Breadth(limits, n)
            && (limits.maxDepth > 0 ==> |Tree(links, r)| <= Geometric(Breadth(limits, n), limits.maxDepth))
            && Breadth(limits, 1) == limits.maxChildren
  {
    ReachableInv(limits, n, steps);
    var s := Reachable(limits, n, steps);
    if limits.maxDepth > 0 { TreeBounded(limits, Parents(s.table), Agents(s.table), r, Breadth(limits, n)); }
  }

  // ------------------------------------------------------------------ authority

  ghost predicate AllHoldTokens(table: Table, c: seq<RunId>) {
    forall i :: 0 <= i < |c| ==> c[i] in table && table[c[i]].token.Some?
  }

  lemma {:induction false} GrantsShrink(table: Table, c: seq<RunId>, i: nat, j: nat)
    requires TokensOk(table) && Linked(Parents(table), c) && AllHoldTokens(table, c) && i <= j < |c|
    ensures CapsOf(table[c[j]]) <= CapsOf(table[c[i]])
    decreases j
  {
    if i < j {
      GrantsShrink(table, c, i, j - 1);
      assert Parents(table)[c[j]] == Some(c[j - 1]);
      assert RunOk(table, c[j]);
    }
  }

  /**
   Along every line of runs that all hold tokens, refreshed or not, authority only narrows:
   a tool the capability check accepts for a run needs nothing any ancestor was not granted.
   */
  lemma AcceptedIsGrantedAbove(limits: Limits, n: nat, steps: seq<Step>, c: seq<RunId>, i: nat, j: nat,
                               reg: Registries, mac: Mac, ring: KeyRing, now: int, ended: bool,
                               runId: string, userId: string, tool: string, cap: string)
    requires var table := Reachable(limits, n, steps).table;
             Linked(Parents(table), c) && AllHoldTokens(table, c) && i <= j < |c|
    requires cap in CapsForTool(reg, tool)
    ensures CheckToolCapability(reg, mac, ring, now, ended, Reachable(limits, n, steps).table[c[j]].token, runId, userId, tool).Valid? ==>
              cap in CapsOf(Reachable(limits, n, steps).table[c[i]])
  {
    var table := Reachable(limits, n, steps).table;
    ReachableInv(limits, n, steps);
    GrantsShrink(table, c, i, j);
    AcceptedMeansGranted(reg, mac, ring, now, ended, table[c[j]].token.value, runId, userId, tool, cap);
  }

  // ------------------------------------------------------------------ the coordinator

  class Coordinator {
    const limits: Limits
    var table: Table

    /** One dispatcher with nothing past the guard. */
    ghost function Value(): State
      reads this
    {
      State(table, [None])
    }

    constructor (limits: Limits)
      ensures this.limits == limits && Value() == Reachable(limits, 1, [])
    {
      this.limits := limits;
      table := map[];
      new;
      assert Reachable(limits, 1, []).past == [None];
    }

    /** Adds the child and marks the parent, or leaves the table alone and says why. */
    method DispatchDelegatedRun(a: Action) returns (verdict: Verdict)
      requires a.Delegate? && a.parent in table && a.child !in table
      modifies this`table
      ensures Value() == Next(limits, Next(limits, old(Value()), Pass(0, a)), Insert(0))
      ensures verdict == Guard(limits, old(table), a.parent, a.agent, TraceOf(old(table), a))
      ensures verdict.Admitted? <==> a.child in table
    {
      var trace := TraceOf(table, a);
      verdict := EnforceDelegationGuardrails(limits, table, a.parent, a.agent, trace);
      if !verdict.Admitted? { return; }
      var parent := table[a.parent];
      var child := Run(Some(a.parent), a.agent, if a.handshake then "awaiting_delegation" else "approved",
                       trace, parent.userId, parent.plan, a.agentType, None);
      var ceiling := DelegateCeiling(CapsOf(parent), a.selected, a.registered);
      child := child.(token := Mint(a.via, a.child, child, "manual", Some(ceiling)));
      table := table[a.parent := parent.(status := "delegated")][a.child := child];
      ghost var past: seq<Option<Action>> := [None];
      assert past[0 := Some(a)][0 := None] == past;
    }
  }
}
