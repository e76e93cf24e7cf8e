/**
 The forest of runs as links alone: what hanging one more run below another keeps, and how
 large a tree within the limits can get.
 */
module Forest {
  import opened Common
  import opened Lineage

  /** A limit that is not positive is off. */
  datatype Limits = Limits(maxDepth: int, maxChildren: int)

  function Children(links: Links, p: RunId): set<RunId> { set r | r in links && links[r] == Some(p) }

  predicate AgentAbove(agents: Links, chain: seq<RunId>, agent: Option<string>) {
    agent.Some? && exists i :: 0 <= i < |chain| && chain[i] in agents && agents[chain[i]] == agent
  }

  ghost predicate HasAncestry(links: Links, r: RunId) { exists c :: Ancestry(links, c, r) }

  ghost function ChainOf(links: Links, r: RunId): (c: seq<RunId>)
    requires HasAncestry(links, r)
    ensures Ancestry(links, c, r)
  {
    var c :| Ancestry(links, c, r); c
  }

  // ------------------------------------------------------------------ the shape of the forest

  ghost predicate DistinctAgents(agents: Links, c: seq<RunId>) {
    forall i, j :: 0 <= i < j < |c| && c[i] in agents && c[j] in agents && agents[c[i]].Some? ==> agents[c[i]] != agents[c[j]]
  }

  ghost predicate LineOk(limits: Limits, agents: Links, c: seq<RunId>) {
    (limits.maxDepth > 0 ==> |c| - 1 <= limits.maxDepth) && DistinctAgents(agents, c)
  }

  /** The links alone: closed, every run below a root within the limits, agents distinct on the way. */
  ghost predicate Shaped(limits: Limits, links: Links, agents: Links) {
    && links.Keys == agents.Keys
    && Closed(links)
    && (forall r {:trigger Placed(limits, links, agents, r)} :: r in links ==> Placed(limits, links, agents, r))
  }

  ghost predicate Placed(limits: Limits, links: Links, agents: Links, r: RunId) {
    HasAncestry(links, r) && LineOk(limits, agents, ChainOf(links, r))
  }

  ghost predicate Closed(links: Links) { forall r {:trigger links[r]} :: r in links && links[r].Some? ==> links[r].value in links }

  lemma AncestryKept(links: Links, id: RunId, link: Option<RunId>, c: seq<RunId>, r: RunId)
    requires Closed(links) && id !in links && Ancestry(links, c, r)
    ensures Ancestry(links[id := link], c, r)
  {
  }

  lemma AncestryOfNew(links: Links, id: RunId, link: Option<RunId>, c: seq<RunId>)
    requires Closed(links) && id !in links
    requires if link.None? then c == [] else Ancestry(links, c, link.value)
    ensures Ancestry(links[id := link], c + [id], id)
  {
  }

  lemma ChainKept(links: Links, id: RunId, link: Option<RunId>, r: RunId)
    requires Closed(links) && id !in links && HasAncestry(links, r)
    ensures HasAncestry(links[id := link], r) && ChainOf(links[id := link], r) == ChainOf(links, r)
  {
    var c := ChainOf(links, r);
    AncestryKept(links, id, link, c, r);
    AncestryUnique(links[id := link], c, ChainOf(links[id := link], r), r);
  }

  lemma ChainOfNew(links: Links, id: RunId, link: Option<RunId>, c: seq<RunId>)
    requires Closed(links) && id !in links
    requires if link.None? then c == [] else Ancestry(links, c, link.value)
    ensures HasAncestry(links[id := link], id) && ChainOf(links[id := link], id) == c + [id]
  {
    AncestryOfNew(links, id, link, c);
    AncestryUnique(links[id := link], c + [id], ChainOf(links[id := link], id), id);
  }

  lemma ChildrenOfNew(links: Links, id: RunId, link: Option<RunId>, r: RunId)
    requires id !in links
    ensures Children(links[id := link], r) == Children(links, r) + (if link == Some(r) then {id} else {})
  {
  }

  lemma LineOfNew(limits: Limits, links: Links, agents: Links, id: RunId, link: Option<RunId>, agent: Option<string>)
    requires Shaped(limits, links, agents) && id !in links && GuardPassed(limits, links, agents, link, agent)
    ensures Placed(limits, links[id := link], agents[id := agent], id)
  {
    var c := if link.None? then [] else ChainOf(links, link.value);
    ChainOfNew(links, id, link, c);
    if link.Some? {
      assert Placed(limits, links, agents, link.value);
    }
  }

  lemma LineOfOld(limits: Limits, links: Links, agents: Links, id: RunId, link: Option<RunId>, agent: Option<string>, r: RunId)
    requires Shaped(limits, links, agents) && id !in links && r in links
    ensures Placed(limits, links[id := link], agents[id := agent], r)
  {
    assert Placed(limits, links, agents, r);
    ChainKept(links, id, link, r);
  }

  /** What the guard has established about the run to hang below; nothing for a new root. */
  ghost predicate GuardPassed(limits: Limits, links: Links, agents: Links, link: Option<RunId>, agent: Option<string>) {
    link.Some? ==>
      && link.value in links && HasAncestry(links, link.value)
      && (limits.maxDepth > 0 ==> |ChainOf(links, link.value)| - 1 < limits.maxDepth)
      && !AgentAbove(agents, ChainOf(links, link.value), agent)
  }

  lemma AllPlaced(limits: Limits, links: Links, agents: Links, id: RunId, link: Option<RunId>, agent: Option<string>,
                  links': Links, agents': Links)
    requires Shaped(limits, links, agents) && id !in links && GuardPassed(limits, links, agents, link, agent)
    requires links' == links[id := link] && agents' == agents[id := agent]
    ensures forall r :: r in links' ==> Placed(limits, links', agents', r)
  {
    forall r | r in links ensures Placed(limits, links', agents', r) {
      LineOfOld(limits, links, agents, id, link, agent, r);
    }
    LineOfNew(limits, links, agents, id, link, agent);
  }

  /** What the guard established holds for good: other runs that come in change nothing above the parent. */
  lemma GuardStays(limits: Limits, links: Links, agents: Links, id: RunId, link: Option<RunId>, agent: Option<string>,
                   parent: RunId, delegate: Option<string>)
    requires Shaped(limits, links, agents) && id !in links && GuardPassed(limits, links, agents, Some(parent), delegate)
    ensures GuardPassed(limits, links[id := link], agents[id := agent], Some(parent), delegate)
  {
    ChainKept(links, id, link, parent);
    var c := ChainOf(links, parent);
    assert forall i :: 0 <= i < |c| ==> c[i] in links;
  }

  /** Hanging a new run where the guard allows it keeps the forest in shape. */
  lemma ShapedGrows(limits: Limits, links: Links, agents: Links, id: RunId, link: Option<RunId>, agent: Option<string>)
    requires Shaped(limits, links, agents) && id !in links && GuardPassed(limits, links, agents, link, agent)
    ensures Shaped(limits, links[id := link], agents[id := agent])
  {
    var links', agents' := links[id := link], agents[id := agent];
    AllPlaced(limits, links, agents, id, link, agent, links', agents');
    ClosedGrows(links, agents, id, link, agent);
  }

  lemma ClosedGrows(links: Links, agents: Links, id: RunId, link: Option<RunId>, agent: Option<string>)
    requires links.Keys == agents.Keys && Closed(links) && (link.Some? ==> link.value in links)
    ensures links[id := link].Keys == agents[id := agent].Keys && Closed(links[id := link])
  {
  }

  // ------------------------------------------------------------------ the size of a tree

  function Power(b: nat, e: nat): nat { if e == 0 then 1 else b * Power(b, e - 1) }

  /** 1 + b + ... + b^e. */
  function Geometric(b: nat, e: nat): nat { Power(b, e) + if e == 0 then 0 else Geometric(b, e - 1) }

  lemma Distributes(b: nat, x: nat, y: nat)
    ensures b * (x + y) == b * x + b * y
  {
  }

  /** Summed up: (b - 1)(1 + b + ... + b^e) = b^(e + 1) - 1. */
  lemma {:induction false} GeometricSum(b: nat, e: nat)
    ensures b * Geometric(b, e) + 1 == Geometric(b, e) + Power(b, e + 1)
  {
    if e > 0 {
      var p, g := Power(b, e), Geometric(b, e - 1);
      GeometricSum(b, e - 1);
      Distributes(b, p, g);
      assert Geometric(b, e) == p + g && Power(b, e + 1) == b * p;
    }
  }

  function ChildrenOfAny(links: Links, ps: set<RunId>): set<RunId> {
    set r | r in links && links[r].Some? && links[r].value in ps
  }

  function Level(links: Links, root: RunId, k: nat): set<RunId> {
    if k == 0 then {root} else ChildrenOfAny(links, Level(links, root, k - 1))
  }

  function UpToLevel(links: Links, root: RunId, k: nat): set<RunId> {
    Level(links, root, k) + if k == 0 then {} else UpToLevel(links, root, k - 1)
  }

  lemma {:induction false} FewChildren(links: Links, ps: set<RunId>, most: nat)
    requires forall p :: |Children(links, p)| <= most
    ensures |ChildrenOfAny(links, ps)| <= most * |ps|
    decreases |ps|
  {
    if ps == {} {
      assert ChildrenOfAny(links, ps) == {};
    } else {
      var p :| p in ps;
      FewChildren(links, ps - {p}, most);
      assert ChildrenOfAny(links, ps) == ChildrenOfAny(links, ps - {p}) + Children(links, p);
    }
  }

  lemma {:induction false} LevelBounded(links: Links, root: RunId, k: nat, most: nat)
    requires forall p :: |Children(links, p)| <= most
    ensures |Level(links, root, k)| <= Power(most, k)
  {
    if k > 0 {
      LevelBounded(links, root, k - 1, most);
      FewChildren(links, Level(links, root, k - 1), most);
      Scaled(most, |Level(links, root, k - 1)|, Power(most, k - 1));
    }
  }

  lemma {:induction false} UpToLevelBounded(links: Links, root: RunId, k: nat, most: nat)
    requires forall p :: |Children(links, p)| <= most
    ensures |UpToLevel(links, root, k)| <= Geometric(most, k)
  {
    LevelBounded(links, root, k, most);
    if k > 0 { UpToLevelBounded(links, root, k - 1, most); }
  }

  lemma {:induction false} LineIsInLevel(links: Links, c: seq<RunId>, k: nat)
    requires Linked(links, c) && k < |c|
    ensures c[k] in Level(links, c[0], k)
    decreases k
  {
    if k > 0 { LineIsInLevel(links, c, k - 1); }
  }

  lemma {:induction false} LevelsMonotone(links: Links, root: RunId, k: nat, n: nat)
    requires k <= n
    ensures Level(links, root, k) <= UpToLevel(links, root, n)
    decreases n
  {
    if k < n { LevelsMonotone(links, root, k, n - 1); }
  }

  /** The runs whose line of ancestors starts at `root`. */
  ghost function Tree(links: Links, root: RunId): set<RunId> {
    set r | r in links && HasAncestry(links, r) && ChainOf(links, r)[0] == root
  }

  lemma TreeBounded(limits: Limits, links: Links, agents: Links, root: RunId, most: nat)
    requires Shaped(limits, links, agents) && limits.maxDepth > 0 && forall p :: |Children(links, p)| <= most
    ensures |Tree(links, root)| <= Geometric(most, limits.maxDepth)
  {
    forall r | r in Tree(links, root) ensures r in UpToLevel(links, root, limits.maxDepth) {
      var c := ChainOf(links, r);
      assert Placed(limits, links, agents, r);
      LineIsInLevel(links, c, |c| - 1);
      LevelsMonotone(links, root, |c| - 1, limits.maxDepth);
    }
    Subset(Tree(links, root), UpToLevel(links, root, limits.maxDepth));
    UpToLevelBounded(links, root, limits.maxDepth, most);
  }

  lemma {:induction false} Subset(a: set<RunId>, b: set<RunId>)
    requires a <= b
    ensures |a| <= |b|
  {
    assert b == a + (b - a);
  }
}
