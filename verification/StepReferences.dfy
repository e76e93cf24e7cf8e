/**
 Plan step references (AINDY/agents/step_references.py): the walker, the plan-time check,
 and the resolver that replaces each reference by an earlier step's result.

 A position is the list of child numbers from the arguments down to a value.
 */
module StepReferences {
  import opened Common
  import opened Strings
  import opened Json
  import ResultShapes

  const REFERENCE_KEY := "$from_step"
  const PATH_KEY := "path"

  type Position = seq<nat>

  datatype Found = Found(at: Position, ref: Json)

  predicate LooksLikeReference(v: Json) { Has(v, REFERENCE_KEY) }

  // ------------------------------------------------------------------ walking

  predicate ContainsReference(v: Json)
    decreases v, 1
  {
    LooksLikeReference(v) || ((v.Obj? || v.Arr?) && AnyContains(v.items))
  }

  predicate AnyContains(items: seq<Json>)
    decreases items, 0
  {
    items != [] && (ContainsReference(items[0]) || AnyContains(items[1..]))
  }

  function Walk(v: Json, at: Position): seq<Found>
    decreases v, 1
  {
    if LooksLikeReference(v) then [Found(at, v)]
    else if v.Obj? || v.Arr? then WalkItems(v.items, at, 0)
    else []
  }

  function WalkItems(items: seq<Json>, at: Position, i: nat): seq<Found>
    decreases items, 0
  {
    if items == [] then [] else Walk(items[0], at + [i]) + WalkItems(items[1..], at, i + 1)
  }

  lemma {:induction false} ContainsIffWalked(v: Json, at: Position)
    ensures ContainsReference(v) <==> Walk(v, at) != []
    decreases v, 1
  {
    if !LooksLikeReference(v) && (v.Obj? || v.Arr?) {
      AnyContainsIffWalked(v.items, at, 0);
    }
  }

  lemma {:induction false} AnyContainsIffWalked(items: seq<Json>, at: Position, i: nat)
    ensures AnyContains(items) <==> WalkItems(items, at, i) != []
    decreases items, 0
  {
    if items != [] {
      ContainsIffWalked(items[0], at + [i]);
      AnyContainsIffWalked(items[1..], at, i + 1);
    }
  }

  // ------------------------------------------------------------------ one reference

  datatype RefError =
    | ExtraKeys
    | BadTarget
    | NotEarlier(target: int, own: int)
    | BadPath
    | Unreadable(target: int)
    | NoResult(target: int)
    | NotSuccess(target: int, status: string)
    | PathMissing(target: int, path: string)

  function ReferenceErrors(ref: Json, own: Option<int>): seq<RefError>
    requires ref.Obj?
  {
    var target := Get(ref, REFERENCE_KEY);
    (if exists k :: k in ref.keys && k != REFERENCE_KEY && k != PATH_KEY then [ExtraKeys] else []) +
    (if !target.Int? || target.n < 0 then [BadTarget]
     else if own.Some? && target.n >= own.value then [NotEarlier(target.n, own.value)]
     else []) +
    (if Has(ref, PATH_KEY) && !PathWellFormed(Get(ref, PATH_KEY)) then [BadPath] else [])
  }

  /** What a lookup answers for one step. */
  datatype Lookup = Raises | Absent | Entry(status: string, result: Json)

  datatype Resolution = Value(v: Json) | Errors(errors: seq<RefError>)

  function ResolveReference(ref: Json, lookup: int -> Lookup): (r: Resolution)
    requires ref.Obj?
    ensures r.Errors? ==> r.errors != []
  {
    var shape := ReferenceErrors(ref, None);
    if shape != [] then Errors(shape)
    else
      var target := Get(ref, REFERENCE_KEY).n;
      match lookup(target)
      case Raises => Errors([Unreadable(target)])
      case Absent => Errors([NoResult(target)])
      case Entry(status, result) =>
        if status != "success" then Errors([NotSuccess(target, status)])
        else if !Has(ref, PATH_KEY) then Value(result)
        else
          var path := Get(ref, PATH_KEY).s;
          var found := Descend(result, Split(path, '.'));
          if found.None? then Errors([PathMissing(target, path)]) else Value(found.value)
  }

  // ------------------------------------------------------------------ resolving arguments

  datatype Problem = Problem(at: Position, error: RefError)

  datatype Resolved = Resolved(value: Json, problems: seq<Problem>)

  datatype ResolvedItems = ResolvedItems(values: seq<Json>, problems: seq<Problem>)

  function Located(at: Position, errors: seq<RefError>): (r: seq<Problem>)
    ensures |r| == |errors| && forall i :: 0 <= i < |r| ==> r[i] == Problem(at, errors[i])
  {
    seq(|errors|, i requires 0 <= i < |errors| => Problem(at, errors[i]))
  }

  /** Any problem means the step must fail and not run. */
  function Resolve(v: Json, at: Position, lookup: int -> Lookup): (r: Resolved)
    decreases v, 1
  {
    if LooksLikeReference(v) then
      match ResolveReference(v, lookup)
      case Value(found) => Resolved(found, [])
      case Errors(errors) => Resolved(Null, Located(at, errors))
    else
      match v
      case Obj(keys, items) =>
        var r := ResolveItems(items, at, 0, lookup);
        Resolved(Obj(keys, r.values), r.problems)
      case Arr(items) =>
        var r := ResolveItems(items, at, 0, lookup);
        Resolved(Arr(r.values), r.problems)
      case _ => Resolved(v, [])
  }

  function ResolveItems(items: seq<Json>, at: Position, i: nat, lookup: int -> Lookup): (r: ResolvedItems)
    ensures |r.values| == |items|
    decreases items, 0
  {
    if items == [] then ResolvedItems([], [])
    else
      var first := Resolve(items[0], at + [i], lookup);
      var rest := ResolveItems(items[1..], at, i + 1, lookup);
      ResolvedItems([first.value] + rest.values, first.problems + rest.problems)
  }

  function ProblemsAt(lookup: int -> Lookup): Found -> seq<Problem> {
    (f: Found) =>
      if !f.ref.Obj? then []
      else
        var r := ResolveReference(f.ref, lookup);
        if r.Errors? then Located(f.at, r.errors) else []
  }

  function ProblemsOf(found: seq<Found>, lookup: int -> Lookup): seq<Problem> { FlatMap(found, ProblemsAt(lookup)) }

  lemma {:induction false} WalkedAreReferences(v: Json, at: Position)
    ensures forall i :: 0 <= i < |Walk(v, at)| ==> LooksLikeReference(Walk(v, at)[i].ref)
    decreases v, 1
  {
    if !LooksLikeReference(v) && (v.Obj? || v.Arr?) { WalkedItemsAreReferences(v.items, at, 0); }
  }

  lemma {:induction false} WalkedItemsAreReferences(items: seq<Json>, at: Position, i: nat)
    ensures forall k :: 0 <= k < |WalkItems(items, at, i)| ==> LooksLikeReference(WalkItems(items, at, i)[k].ref)
    decreases items, 0
  {
    if items != [] {
      WalkedAreReferences(items[0], at + [i]);
      WalkedItemsAreReferences(items[1..], at, i + 1);
    }
  }

  /** The resolver reports exactly the problems of the references the walker yields, in that order. */
  lemma {:induction false} ProblemsAreTheWalkers(v: Json, at: Position, lookup: int -> Lookup)
    ensures forall i :: 0 <= i < |Walk(v, at)| ==> Walk(v, at)[i].ref.Obj?
    ensures Resolve(v, at, lookup).problems == ProblemsOf(Walk(v, at), lookup)
    decreases v, 1
  {
    WalkedAreReferences(v, at);
    if LooksLikeReference(v) {
      assert Walk(v, at) == [Walk(v, at)[0]];
      FlatMapOne(Walk(v, at)[0], ProblemsAt(lookup));
    } else if v.Obj? || v.Arr? {
      ItemProblemsAreTheWalkers(v.items, at, 0, lookup);
    }
  }

  lemma {:induction false} ItemProblemsAreTheWalkers(items: seq<Json>, at: Position, i: nat, lookup: int -> Lookup)
    ensures forall k :: 0 <= k < |WalkItems(items, at, i)| ==> WalkItems(items, at, i)[k].ref.Obj?
    ensures ResolveItems(items, at, i, lookup).problems == ProblemsOf(WalkItems(items, at, i), lookup)
    decreases items, 0
  {
    WalkedItemsAreReferences(items, at, i);
    if items != [] {
      ProblemsAreTheWalkers(items[0], at + [i], lookup);
      ItemProblemsAreTheWalkers(items[1..], at, i + 1, lookup);
      FlatMapAppend(Walk(items[0], at + [i]), WalkItems(items[1..], at, i + 1), ProblemsAt(lookup));
    }
  }

  lemma NoProblemsIff(found: seq<Found>, lookup: int -> Lookup)
    requires forall i :: 0 <= i < |found| ==> found[i].ref.Obj?
    ensures ProblemsOf(found, lookup) == [] <==>
              forall i :: 0 <= i < |found| ==> ResolveReference(found[i].ref, lookup).Value?
  {
    FlatMapEmptyIff(found, ProblemsAt(lookup));
    forall i | 0 <= i < |found| ensures ProblemsAt(lookup)(found[i]) == [] <==> ResolveReference(found[i].ref, lookup).Value? {
      NoProblemAtIff(found[i], lookup);
    }
  }

  lemma NoProblemAtIff(f: Found, lookup: int -> Lookup)
    requires f.ref.Obj?
    ensures ProblemsAt(lookup)(f) == [] <==> ResolveReference(f.ref, lookup).Value?
  {
  }

  /** Resolving succeeds exactly when every reference in the arguments is well formed and resolves. */
  lemma ResolvesIffEveryReferenceDoes(args: Json, lookup: int -> Lookup)
    ensures Resolve(args, [], lookup).problems == [] <==>
              forall i :: 0 <= i < |Walk(args, [])| ==>
                Walk(args, [])[i].ref.Obj? && ResolveReference(Walk(args, [])[i].ref, lookup).Value?
  {
    ProblemsAreTheWalkers(args, [], lookup);
    NoProblemsIff(Walk(args, []), lookup);
  }

  // ------------------------------------------------------------------ what the output is

  /** The value at a position. */
  function At(v: Json, p: Position): Option<Json>
    decreases |p|
  {
    if p == [] then Some(v)
    else if (v.Obj? || v.Arr?) && p[0] < |v.items| then At(v.items[p[0]], p[1..])
    else None
  }

  /** What a value is apart from its children. */
  function Face(v: Json): Json {
    match v
    case Obj(keys, items) => Obj(keys, ResultShapes.Repeat(Null, |items|))
    case Arr(items) => Arr(ResultShapes.Repeat(Null, |items|))
    case _ => v
  }

  /** No value on the way from v down to p, p included, is a reference. */
  predicate Literal(v: Json, p: Position)
    decreases |p|
  {
    && !LooksLikeReference(v)
    && (p != [] && (v.Obj? || v.Arr?) && p[0] < |v.items| ==> Literal(v.items[p[0]], p[1..]))
  }

  lemma {:induction false} ItemResolved(items: seq<Json>, at: Position, i: nat, k: nat, lookup: int -> Lookup)
    requires k < |items|
    ensures ResolveItems(items, at, i, lookup).values[k] == Resolve(items[k], at + [i + k], lookup).value
  {
    if k > 0 { ItemResolved(items[1..], at, i + 1, k - 1, lookup); }
  }

  /** Outside references the output has the same values, keys and lengths as the input. */
  lemma {:induction false} LiteralsUnchanged(v: Json, at: Position, p: Position, lookup: int -> Lookup)
    requires At(v, p).Some? && Literal(v, p)
    ensures var r := At(Resolve(v, at, lookup).value, p); r.Some? && Face(r.value) == Face(At(v, p).value)
    decreases |p|
  {
    if p != [] {
      ItemResolved(v.items, at, 0, p[0], lookup);
      LiteralsUnchanged(v.items[p[0]], at + [p[0]], p[1..], lookup);
    }
  }

  /** Each reference that resolves is replaced, whole and once, by its looked-up value. */
  lemma {:induction false} ReferencesReplaced(v: Json, at: Position, f: Found, lookup: int -> Lookup)
    requires f in Walk(v, at)
    ensures f.ref.Obj? && at <= f.at && At(v, f.at[|at|..]) == Some(f.ref)
    ensures var r := ResolveReference(f.ref, lookup);
            At(Resolve(v, at, lookup).value, f.at[|at|..]) == Some(if r.Value? then r.v else Null)
    decreases v, 1
  {
    if !LooksLikeReference(v) {
      ItemReferencesReplaced(v.items, at, 0, f, lookup);
      var k := f.at[|at|];
      assert f.at[|at|..][1..] == f.at[|at| + 1..];
      assert Resolve(v, at, lookup).value.items == ResolveItems(v.items, at, 0, lookup).values;
    }
  }

  lemma {:induction false} ItemReferencesReplaced(items: seq<Json>, at: Position, i: nat, f: Found, lookup: int -> Lookup)
    requires f in WalkItems(items, at, i)
    ensures f.ref.Obj? && at <= f.at && |at| < |f.at| && i <= f.at[|at|] < i + |items|
    ensures var k := f.at[|at|] - i;
            && At(items[k], f.at[|at| + 1..]) == Some(f.ref)
            && var r := ResolveReference(f.ref, lookup);
               At(ResolveItems(items, at, i, lookup).values[k], f.at[|at| + 1..]) == Some(if r.Value? then r.v else Null)
    decreases items, 0
  {
    if f in Walk(items[0], at + [i]) {
      ReferencesReplaced(items[0], at + [i], f, lookup);
    } else {
      ItemReferencesReplaced(items[1..], at, i + 1, f, lookup);
    }
  }

  /** Arguments without references come back unchanged and without problems. */
  lemma {:induction false} ReferenceFreeUnchanged(v: Json, at: Position, lookup: int -> Lookup)
    requires !ContainsReference(v)
    ensures Resolve(v, at, lookup) == Resolved(v, [])
    decreases v, 1
  {
    if v.Obj? || v.Arr? { ItemsUnchanged(v.items, at, 0, lookup); }
  }

  lemma {:induction false} ItemsUnchanged(items: seq<Json>, at: Position, i: nat, lookup: int -> Lookup)
    requires !AnyContains(items)
    ensures ResolveItems(items, at, i, lookup) == ResolvedItems(items, [])
    decreases items, 0
  {
    if items != [] {
      assert items == [items[0]] + items[1..];
      ReferenceFreeUnchanged(items[0], at + [i], lookup);
      ItemsUnchanged(items[1..], at, i + 1, lookup);
    }
  }
}
