/**
 Following parent links through a table of runs (AINDY/agents/runtime_guardrails.py): the
 ancestors of a run, the walk that collects them, and the replay-lineage guard.
 */
module Lineage {
  import opened Common

  type RunId = string

  /** For every run in the table, the run it came from; the link may name a run that is not there. */
  type Links = map<RunId, Option<RunId>>

  /** `c` lists runs of the table, each the link of the next. */
  ghost predicate Linked(links: Links, c: seq<RunId>) {
    && c != [] && (forall i :: 0 <= i < |c| ==> c[i] in links)
    && (forall i, j :: 0 <= j < i < |c| && j == i - 1 ==> links[c[i]] == Some(c[j]))
  }

  predicate Top(links: Links, r: RunId)
    requires r in links
  {
    links[r].None? || links[r].value !in links
  }

  /** `c` is the whole line from a run without predecessor down to `r`. */
  ghost predicate Ancestry(links: Links, c: seq<RunId>, r: RunId) {
    Linked(links, c) && c[|c| - 1] == r && Top(links, c[0])
  }

  /** Any line that ends in `r` is the end of its ancestry. */
  lemma {:induction false} Aligned(links: Links, c: seq<RunId>, r: RunId, d: seq<RunId>, k: nat)
    requires Ancestry(links, c, r) && Linked(links, d) && d[|d| - 1] == r && k < |d|
    ensures k < |c| && d[|d| - 1 - k] == c[|c| - 1 - k]
    decreases k
  {
    if k > 0 {
      Aligned(links, c, r, d, k - 1);
      assert links[d[|d| - k]] == Some(d[|d| - k - 1]);
    }
  }

  lemma AncestryUnique(links: Links, c: seq<RunId>, d: seq<RunId>, r: RunId)
    requires Ancestry(links, c, r) && Ancestry(links, d, r)
    ensures c == d
  {
    Aligned(links, c, r, d, |d| - 1);
    Aligned(links, d, r, c, |c| - 1);
    forall i | 0 <= i < |c| ensures c[i] == d[i] { Aligned(links, c, r, d, |c| - 1 - i); }
  }

  lemma TopIsAlone(links: Links, c: seq<RunId>, r: RunId)
    requires Ancestry(links, c, r) && links[r].None?
    ensures c == [r]
  {
    AncestryUnique(links, c, [r], r);
  }

  /** No run is its own ancestor on a line that has a top. */
  lemma AncestryDistinct(links: Links, c: seq<RunId>, r: RunId, i: nat, j: nat)
    requires Ancestry(links, c, r) && i < j < |c|
    ensures c[i] != c[j]
  {
    if c[i] == c[j] {
      Aligned(links, c[..i + 1], c[i], c[..j + 1], j);
    }
  }

  // ------------------------------------------------------------------ the walk

  /** Each run is the link of the one before. */
  ghost predicate Climbs(links: Links, up: seq<RunId>) {
    && (forall i :: 0 <= i < |up| ==> up[i] in links)
    && (forall i, j :: 0 <= j < i < |up| && j == i - 1 ==> links[up[j]] == Some(up[i]))
  }

  /** `up` is the walk so far from `run`, nearest first; `next` is where it goes on. */
  ghost predicate Walked(links: Links, run: RunId, up: seq<RunId>, seen: set<RunId>, next: Option<RunId>) {
    && Climbs(links, up)
    && (forall x :: x in seen <==> x in up)
    && (up == [] ==> next == Some(run))
    && (up != [] ==> up[0] == run)
    && (next.Some? ==> next.value in links && (up != [] ==> links[up[|up| - 1]] == next))
    && (up != [] && next.None? ==> Top(links, up[|up| - 1]))
  }

  /** The row the link names, if it names one that is there. */
  function Lookup(links: Links, id: RunId): Option<RunId>
    requires id in links
  {
    if Top(links, id) then None else links[id]
  }

  lemma WalkOn(links: Links, run: RunId, up: seq<RunId>, seen: set<RunId>, id: RunId)
    requires Walked(links, run, up, seen, Some(id)) && id !in seen
    ensures Walked(links, run, up + [id], seen + {id}, Lookup(links, id))
    ensures |links.Keys - (seen + {id})| < |links.Keys - seen|
  {
    OneFewer(links.Keys, seen, id);
    ClimbOn(links, up, id);
  }

  lemma OneFewer(all: set<RunId>, seen: set<RunId>, id: RunId)
    requires id in all && id !in seen
    ensures |all - (seen + {id})| < |all - seen|
  {
    assert all - (seen + {id}) == (all - seen) - {id};
  }

  lemma ClimbOn(links: Links, up: seq<RunId>, id: RunId)
    requires Climbs(links, up) && id in links && (up != [] ==> links[up[|up| - 1]] == Some(id))
    ensures Climbs(links, up + [id])
  {
  }

  lemma ClimbReversed(links: Links, up: seq<RunId>, r: seq<RunId>)
    requires Climbs(links, up) && up != [] && |r| == |up| && forall i :: 0 <= i < |r| ==> r[i] == up[|up| - 1 - i]
    ensures Linked(links, r)
  {
  }

  lemma RevisitMeansNoTop(links: Links, run: RunId, up: seq<RunId>, seen: set<RunId>, next: RunId, c: seq<RunId>)
    requires Walked(links, run, up, seen, Some(next)) && next in seen
    ensures !Ancestry(links, c, run)
  {
    if Ancestry(links, c, run) {
      var d := Reverse(up + [next]);
      ClimbOn(links, up, next);
      ClimbReversed(links, up + [next], d);
      var i :| 0 <= i < |up| && up[i] == next;
      Aligned(links, c, run, d, |up|);
      Aligned(links, c, run, d, i);
      AncestryDistinct(links, c, run, |c| - 1 - |up|, |c| - 1 - i);
    }
  }

  lemma NoTop(links: Links, run: RunId, up: seq<RunId>, seen: set<RunId>, next: RunId)
    requires Walked(links, run, up, seen, Some(next)) && next in seen
    ensures forall c :: !Ancestry(links, c, run)
  {
    forall c ensures !Ancestry(links, c, run) { RevisitMeansNoTop(links, run, up, seen, next, c); }
  }

  /** The line of ancestors, root first, or None exactly when the links from `run` go round in a circle. */
  method LoadParentChain(links: Links, run: RunId) returns (chain: Option<seq<RunId>>)
    requires run in links
    ensures chain.Some? ==> Ancestry(links, chain.value, run)
    ensures chain.None? ==> forall c :: !Ancestry(links, c, run)
  {
    var up: seq<RunId>, seen: set<RunId>, current := [], {}, Some(run);
    while current.Some?
      invariant Walked(links, run, up, seen, current)
      decreases |links.Keys - seen|
    {
      var id := current.value;
      if id in seen {
        NoTop(links, run, up, seen, id);
        return None;
      }
      WalkOn(links, run, up, seen, id);
      seen := seen + {id};
      up := up + [id];
      current := Lookup(links, id);
    }
    ReachedTop(links, run, up, seen);
    chain := Some(Reverse(up));
  }

  // ------------------------------------------------------------------ replay lineage

  datatype ReplayVerdict = ReplayAdmitted | ReplayCycle | ReplayTooDeep

  /** Replays behind the last run of `c`; a predecessor that has been deleted still counts. */
  function Hops(links: Links, c: seq<RunId>): nat
    requires c != [] && c[0] in links
  {
    |c| - 1 + (if links[c[0]].Some? then 1 else 0)
  }

  lemma TooDeep(links: Links, run: RunId, up: seq<RunId>, seen: set<RunId>, current: Option<RunId>, c: seq<RunId>)
    requires Walked(links, run, up, seen, current) && up != [] && links[up[|up| - 1]].Some?
    requires Ancestry(links, c, run)
    ensures Hops(links, c) >= |up|
  {
    var d := Reverse(up);
    ClimbReversed(links, up, d);
    Aligned(links, c, run, d, |up| - 1);
  }

  lemma ReachedTop(links: Links, run: RunId, up: seq<RunId>, seen: set<RunId>)
    requires Walked(links, run, up, seen, None) && up != []
    ensures Ancestry(links, Reverse(up), run)
    ensures Hops(links, Reverse(up)) == |up| - 1 + (if links[up[|up| - 1]].Some? then 1 else 0)
  {
    ClimbReversed(links, up, Reverse(up));
  }

  lemma AllTooDeep(links: Links, run: RunId, up: seq<RunId>, seen: set<RunId>, current: Option<RunId>)
    requires Walked(links, run, up, seen, current) && up != [] && links[up[|up| - 1]].Some?
    ensures forall c :: Ancestry(links, c, run) ==> Hops(links, c) >= |up|
  {
    forall c | Ancestry(links, c, run) ensures Hops(links, c) >= |up| { TooDeep(links, run, up, seen, current, c); }
  }

  /** Admitted exactly when the lineage has a beginning and, if there is a limit, fewer replays than it. */
  method EnforceReplayGuardrails(links: Links, original: RunId, maxDepth: int) returns (verdict: ReplayVerdict)
    requires original in links
    ensures verdict == ReplayAdmitted <==>
            exists c :: Ancestry(links, c, original) && (maxDepth > 0 ==> Hops(links, c) < maxDepth)
    ensures verdict == ReplayCycle ==> forall c :: !Ancestry(links, c, original)
  {
    var depth := 0;
    ghost var up: seq<RunId> := [];
    var seen: set<RunId>, current := {}, Some(original);
    while current.Some?
      invariant Walked(links, original, up, seen, current)
      invariant depth == |up| - (if up != [] && links[up[|up| - 1]].None? then 1 else 0)
      invariant maxDepth > 0 ==> depth < maxDepth
      decreases |links.Keys - seen|
    {
      var id := current.value;
      if id in seen {
        NoTop(links, original, up, seen, id);
        return ReplayCycle;
      }
      WalkOn(links, original, up, seen, id);
      seen := seen + {id};
      up := up + [id];
      current := Lookup(links, id);
      if links[id].None? { break; }
      depth := depth + 1;
      if maxDepth > 0 && depth >= maxDepth {
        AllTooDeep(links, original, up, seen, current);
        return ReplayTooDeep;
      }
    }
    assert up != [];
    ReachedTop(links, original, up, seen);
    verdict := ReplayAdmitted;
  }
}
