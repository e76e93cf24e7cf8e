/** How runs come by their tokens, and that they keep what those grant. */
module DelegationGrants {
  import opened Common
  import opened Lineage
  import opened Forest
  import opened Capabilities
  import opened Tokens
  import opened Delegation

  /** What the run asks for when it is approved by hand: its own plan, without a ceiling. */
  function ByHand(id: RunId, run: Run): Request { Request(id, run.userId, run.plan, "manual", run.agentType, None) }

  /** An approval takes a pending run to approved with a token for what its plan is granted by hand, or changes nothing. */
  lemma ApprovedIsGranted(table: Table, id: RunId, via: Issuer)
    requires id in table
    ensures var (run, t) := (table[id], Apply(table, Approve(id, via)));
            var g := Grants(via.reg, via.auto, ByHand(id, run));
            if run.status == "pending_approval" && g.Some?
            then && id in t && t == table[id := t[id]] && t[id].status == "approved"
                 && t[id].token.Some? && t[id].token.value.grant == g.value
                 && t[id].token.value.runId == id && t[id].token.value.userId == run.userId
                 && t[id].token.value.approvalMode == "manual" && t[id].token.value.expiresAt == via.now + 86400
                 && t[id].(status := run.status, token := run.token) == run
            else t == table
  {
  }

  /** A run created with a token got it automatically, for what its plan is granted that way. */
  lemma CreatedIsGranted(table: Table, id: RunId, run: Run, via: Issuer)
    requires id !in table && id in Apply(table, Create(id, run, via))
    ensures Apply(table, Create(id, run, via)) == table[id := run] && run.parent.None?
    ensures run.token.Some? ==>
              var g := Grants(via.reg, via.auto, Request(id, run.userId, run.plan, "auto", run.agentType, None));
              g.Some? && run.token.value.grant == g.value && run.status != "pending_approval"
  {
  }

  /** A delegated child takes plan and user from its parent and is granted by hand inside the delegate's ceiling. */
  lemma ChildIsGranted(table: Table, a: Action)
    requires a.Delegate? && a.parent in table
    ensures var (parent, child) := (table[a.parent], Child(table, a));
            var ceiling := DelegateCeiling(CapsOf(parent), a.selected, a.registered);
            var g := Grants(a.via.reg, a.via.auto, Request(a.child, parent.userId, parent.plan, "manual", a.agentType, Some(ceiling)));
            && child.parent == Some(a.parent) && child.agent == a.agent && child.userId == parent.userId && child.plan == parent.plan
            && child.agentType == a.agentType && child.trace == (if a.trace.Some? then a.trace else parent.trace)
            && child.status == (if a.handshake then "awaiting_delegation" else "approved")
            && (child.token.Some? <==> g.Some?) && (g.Some? ==> child.token.value.grant == g.value)
  {
  }

  /** A dispatch adds the child, marks the parent delegated and leaves every other run alone. */
  lemma DispatchAdds(table: Table, a: Action, r: RunId)
    requires a.Delegate? && a.parent in table && a.child !in table
    ensures var t := Apply(table, a);
            && a.child in t && t[a.child] == Child(table, a)
            && t[a.parent] == table[a.parent].(status := "delegated")
            && (r !in {a.parent, a.child} ==> (r in t <==> r in table) && (r in table ==> t[r] == table[r]))
  {
  }

  /** A refresh reissues the token with its grant on a new clock, or changes nothing; a status change changes the status. */
  lemma RefreshedInPlace(table: Table, id: RunId, via: Issuer, status: string)
    requires id in table
    ensures var (run, t) := (table[id], Apply(table, Refresh(id, via)));
            if run.token.Some? && run.token.value.runId != "" && run.token.value.userId != ""
            then && id in t && t == table[id := t[id]] && t[id].(token := run.token) == run && t[id].token.Some?
                 && t[id].token.value.grant == run.token.value.grant && t[id].token.value.issuedAt == via.now
            else t == table
    ensures Apply(table, SetStatus(id, status)) == if status != "pending_approval" then table[id := table[id].(status := status)] else table
  {
  }

  // ------------------------------------------------------------------ every run of the machine

  /** No run that waits for approval holds a token. */
  ghost predicate HeldOk(table: Table) { forall r :: r in table && table[r].token.Some? ==> table[r].status != "pending_approval" }

  /** The run is still there, on the same line, with a token that grants the same. */
  ghost predicate Keeps(table: Table, after: Table, r: RunId)
    requires r in table && table[r].token.Some?
  {
    && r in after && after[r].token.Some? && after[r].token.value.grant == table[r].token.value.grant
    && after[r].parent == table[r].parent && after[r].agent == table[r].agent && after[r].plan == table[r].plan
  }

  lemma ActionKeeps(table: Table, a: Action, r: RunId)
    requires HeldOk(table)
    ensures HeldOk(Apply(table, a))
    ensures r in table && table[r].token.Some? ==> Keeps(table, Apply(table, a), r)
  {
  }

  lemma StepKeeps(limits: Limits, s: State, step: Step, r: RunId)
    requires HeldOk(s.table)
    ensures HeldOk(Next(limits, s, step).table)
    ensures r in s.table && s.table[r].token.Some? ==> Keeps(s.table, Next(limits, s, step).table, r)
  {
    match step
    case Do(a) => if !a.Delegate? { ActionKeeps(s.table, a, r); }
    case Pass(_, _) =>
    case Insert(i) => if i < |s.past| && s.past[i].Some? { ActionKeeps(s.table, s.past[i].value, r); }
  }

  lemma {:induction false} AlwaysHeldOk(limits: Limits, n: nat, steps: seq<Step>)
    ensures HeldOk(Reachable(limits, n, steps).table)
    decreases |steps|
  {
    if steps != [] {
      AlwaysHeldOk(limits, n, steps[..|steps| - 1]);
      StepKeeps(limits, Reachable(limits, n, steps[..|steps| - 1]), steps[|steps| - 1], "");
    }
  }

  lemma NextReached(limits: Limits, n: nat, steps: seq<Step>, step: Step)
    ensures Reachable(limits, n, steps + [step]) == Next(limits, Reachable(limits, n, steps), step)
  {
    assert (steps + [step])[..|steps|] == steps;
  }

  /** Once granted, always granted: whatever happens, a run that holds a token goes on holding one with the same grant. */
  lemma {:induction false} GrantsStay(limits: Limits, n: nat, steps: seq<Step>, more: seq<Step>, r: RunId)
    requires r in Reachable(limits, n, steps).table && Reachable(limits, n, steps).table[r].token.Some?
    ensures Keeps(Reachable(limits, n, steps).table, Reachable(limits, n, steps + more).table, r)
    decreases |more|
  {
    if more == [] {
      assert steps + more == steps;
    } else {
      var front, step := more[..|more| - 1], more[|more| - 1];
      assert steps + more == (steps + front) + [step];
      GrantsStay(limits, n, steps, front, r);
      AlwaysHeldOk(limits, n, steps + front);
      NextReached(limits, n, steps + front, step);
      StepKeeps(limits, Reachable(limits, n, steps + front), step, r);
    }
  }
}
