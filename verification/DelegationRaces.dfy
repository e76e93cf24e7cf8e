/** Dispatches that race past the guard, and the limit on children they break. */
module DelegationRaces {
  import opened Common
  import opened Lineage
  import opened Forest
  import opened Capabilities
  import opened Delegation

  function AnyIssuer(): Issuer {
    Issuer(Registries({}, map[], map[], map[]), {}, (key, payload) => "", "", 0, "")
  }

  /** A dispatch below the run "", to no agent in particular. */
  function ToRoot(k: nat): Action {
    Delegate("", seq(k, _ => 'c'), None, "", None, {}, {}, false, AnyIssuer())
  }

  /** The run "" is a root with k children, and no run id is longer than `most`. */
  ghost predicate Rooted(table: Table, k: nat, most: nat) {
    && "" in table && table[""].parent.None? && |Children(Parents(table), "")| == k
    && (forall id :: id in table ==> |id| <= most)
  }

  lemma RootPasses(limits: Limits, table: Table, k: nat, most: nat, a: Action)
    requires TableShaped(limits, table) && Rooted(table, k, most) && k < limits.maxChildren
    requires a.Delegate? && a.parent == "" && a.agent.None?
    ensures Passes(limits, table, a)
  {
    var links := Parents(table);
    assert Placed(limits, links, Agents(table), "");
    TopIsAlone(links, ChainOf(links, ""), "");
  }

  lemma RootedGrows(table: Table, root: Run, id: RunId, run: Run, k: nat, most: nat)
    requires Rooted(table, k, most) && root.parent.None? && root.agent == table[""].agent && |id| == most + 1 && run.parent == Some("")
    ensures Rooted(table["" := root][id := run], k + 1, most + 1)
  {
    LinksUnchanged(table, "", root);
    AddedChildren(table["" := root], id, run, "");
  }

  ghost predicate Idle(s: State) { forall i :: 0 <= i < |s.past| ==> s.past[i].None? }

  function RootRun(): Run { Run(None, None, "approved", None, "", [], "", None) }

  ghost predicate CanReach(limits: Limits, n: nat, s: State) { exists steps :: Reachable(limits, n, steps) == s }

  lemma ReachesNext(limits: Limits, n: nat, s: State, step: Step)
    requires CanReach(limits, n, s)
    ensures CanReach(limits, n, Next(limits, s, step))
  {
    var steps :| Reachable(limits, n, steps) == s;
    assert (steps + [step])[..|steps|] == steps;
    assert Reachable(limits, n, steps + [step]) == Next(limits, s, step);
  }

  lemma ReachedInv(limits: Limits, n: nat, s: State)
    requires CanReach(limits, n, s)
    ensures TableShaped(limits, s.table) && |s.past| == n
  {
    var steps :| Reachable(limits, n, steps) == s;
    ReachableInv(limits, n, steps);
  }

  lemma RootAlone(limits: Limits, n: nat) returns (s: State)
    ensures CanReach(limits, n, s) && Rooted(s.table, 0, 0) && Idle(s)
  {
    var none, step := Reachable(limits, n, []), Do(Create("", RootRun(), AnyIssuer()));
    ReachesNext(limits, n, none, step);
    s := Next(limits, none, step);
    AddedChildren(none.table, "", RootRun(), "");
    assert Children(Parents(none.table), "") == {};
  }

  /** Some run fills the root with k children, one dispatch after the other. */
  lemma {:induction false} RootGrows(limits: Limits, n: nat, k: nat) returns (s: State)
    requires n > 0 && k < limits.maxChildren
    ensures CanReach(limits, n, s) && Rooted(s.table, k, k) && Idle(s)
    decreases k
  {
    if k == 0 {
      s := RootAlone(limits, n);
    } else {
      s := RootGrows(limits, n, k - 1);
      s := PassesRoot(limits, n, s, 0, k - 1, k - 1, k);
      s := InsertsAtRoot(limits, n, s, 0, k - 1, k - 1);
    }
  }

  /** A dispatcher passes the guard for one more child of the root. */
  lemma PassesRoot(limits: Limits, n: nat, s: State, i: nat, k: nat, most: nat, name: nat) returns (t: State)
    requires CanReach(limits, n, s) && i < n && (i < |s.past| ==> s.past[i].None?) && Rooted(s.table, k, most) && k < limits.maxChildren
    ensures CanReach(limits, n, t) && |s.past| == n && t == s.(past := s.past[i := Some(ToRoot(name))])
  {
    ReachedInv(limits, n, s);
    RootPasses(limits, s.table, k, most, ToRoot(name));
    ReachesNext(limits, n, s, Pass(i, ToRoot(name)));
    t := s.(past := s.past[i := Some(ToRoot(name))]);
    assert Next(limits, s, Pass(i, ToRoot(name))) == t;
  }

  /** A dispatcher that passed inserts its child. */
  lemma InsertsAtRoot(limits: Limits, n: nat, s: State, i: nat, k: nat, most: nat) returns (t: State)
    requires CanReach(limits, n, s) && i < |s.past| && s.past[i] == Some(ToRoot(most + 1)) && Rooted(s.table, k, most)
    ensures CanReach(limits, n, t) && Rooted(t.table, k + 1, most + 1) && t.past == s.past[i := None]
  {
    RootedGrows(s.table, s.table[""].(status := "delegated"), ToRoot(most + 1).child, Child(s.table, ToRoot(most + 1)), k, most);
    ReachesNext(limits, n, s, Insert(i));
    t := Next(limits, s, Insert(i));
  }

  /** Two dispatchers pass the guard for the last place, then both insert. */
  lemma RacePassesLimit(limits: Limits, n: nat, s: State, k: nat) returns (t: State)
    requires n >= 2 && k + 1 == limits.maxChildren && CanReach(limits, n, s) && Rooted(s.table, k, k) && Idle(s)
    ensures CanReach(limits, n, t) && |Children(Parents(t.table), "")| == limits.maxChildren + 1
  {
    t := PassesRoot(limits, n, s, 0, k, k, k + 1);
    t := PassesRoot(limits, n, t, 1, k, k, k + 2);
    t := InsertsAtRoot(limits, n, t, 0, k, k);
    t := InsertsAtRoot(limits, n, t, 1, k + 1, k + 1);
  }

  ghost predicate LimitKept(limits: Limits, n: nat) {
    forall steps, r :: |Children(Parents(Reachable(limits, n, steps).table), r)| <= limits.maxChildren
  }

  /** The limit on children holds in every run exactly when there is at most one dispatcher at a time. */
  lemma LimitKeptIff(limits: Limits, n: nat)
    requires limits.maxChildren > 0
    ensures LimitKept(limits, n) <==> n <= 1
  {
    if n <= 1 {
      forall steps, r ensures |Children(Parents(Reachable(limits, n, steps).table), r)| <= limits.maxChildren {
        ForestBounded(limits, n, steps, r);
      }
    } else {
      var k := limits.maxChildren - 1;
      var full := RootGrows(limits, n, k);
      var over := RacePassesLimit(limits, n, full, k);
      var steps :| Reachable(limits, n, steps) == over;
    }
  }
}
