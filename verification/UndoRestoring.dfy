/** Undo restores the world exactly when rows were stamped in the order of the effects. */
module UndoRestoring {
  import opened Common
  import opened Compensation

  /** The world after the first n effects happened. */
  function After<S>(forward: (Effect, S) -> S, world: S, effects: seq<Effect>): S
    decreases |effects|
  {
    if effects == [] then world
    else forward(effects[|effects| - 1], After(forward, world, effects[..|effects| - 1]))
  }

  ghost predicate LeftInverse<S(!new)>(registry: Registry<S>, forward: (Effect, S) -> S, e: Effect) {
    e.actionType in registry && forall s: S :: registry[e.actionType](e, forward(e, s)) == Done(s)
  }

  lemma AfterStep<S>(forward: (Effect, S) -> S, world: S, effects: seq<Effect>, n: nat)
    requires n < |effects|
    ensures After(forward, world, effects[..n + 1]) == forward(effects[n], After(forward, world, effects[..n]))
  {
    assert effects[..n + 1][..n] == effects[..n];
  }

  lemma ReversesOne<S(!new)>(registry: Registry<S>, skip: set<int>, forward: (Effect, S) -> S, before: S, e: Effect, p: Progress<S>)
    requires LeftInverse(registry, forward, e) && e.id !in skip && p.world == forward(e, before)
    ensures UndoOne(registry, skip, p, e).world == before
    ensures UndoOne(registry, skip, p, e).summary == p.summary.(reversed := p.summary.reversed + [e])
  {
  }

  /** Undoing the first k of the effects in reverse order, `r`, leaves the world after the others. */
  lemma {:induction false} ReversalRestores<S(!new)>(registry: Registry<S>, skip: set<int>, forward: (Effect, S) -> S, world: S,
                                                     effects: seq<Effect>, r: seq<Effect>, k: nat)
    requires k <= |effects| == |r| && forall i :: 0 <= i < |r| ==> r[i] == effects[|effects| - 1 - i]
    requires forall i :: 0 <= i < |effects| ==> LeftInverse(registry, forward, effects[i]) && effects[i].id !in skip
    ensures var p := UndoMany(registry, skip, After(forward, world, effects), r[..k]);
            && p.world == After(forward, world, effects[..|effects| - k])
            && p.summary == NO_EFFECTS.(reversed := r[..k])
  {
    if k == 0 {
      assert effects[..|effects|] == effects && r[..0] == [];
    } else {
      ReversalRestores(registry, skip, forward, world, effects, r, k - 1);
      ReversalStep(registry, skip, forward, world, After(forward, world, effects), effects, r, k - 1);
    }
  }

  lemma ReversalStep<S(!new)>(registry: Registry<S>, skip: set<int>, forward: (Effect, S) -> S, world: S, last: S,
                              effects: seq<Effect>, r: seq<Effect>, k: nat)
    requires k < |r| == |effects| && r[k] == effects[|effects| - 1 - k]
    requires LeftInverse(registry, forward, r[k]) && r[k].id !in skip
    requires UndoMany(registry, skip, last, r[..k]).world == After(forward, world, effects[..|effects| - k])
    requires UndoMany(registry, skip, last, r[..k]).summary == NO_EFFECTS.(reversed := r[..k])
    ensures UndoMany(registry, skip, last, r[..k + 1]).world == After(forward, world, effects[..|effects| - k - 1])
    ensures UndoMany(registry, skip, last, r[..k + 1]).summary == NO_EFFECTS.(reversed := r[..k + 1])
  {
    var n := |effects| - k - 1;
    UndoManyStep(registry, skip, last, r, k);
    AfterStep(forward, world, effects, n);
    ReversesOne(registry, skip, forward, After(forward, world, effects[..n]), r[k], UndoMany(registry, skip, last, r[..k]));
    assert r[..k] + [r[k]] == r[..k + 1];
  }

  lemma NewestIsFirst(a: seq<Effect>, b: seq<Effect>)
    requires NewestFirst(a) && NewestFirst(b) && multiset(a) == multiset(b) && a != [] && b != []
    ensures a[0] == b[0]
  {
    InMultiset(a, b[0]);
    InMultiset(b, a[0]);
    assert b[0] in multiset(b) && a[0] in multiset(a);
    var i :| 0 <= i < |a| && a[i] == b[0];
    var j :| 0 <= j < |b| && b[j] == a[0];
  }

  lemma {:induction false} OnlyNewestFirst(a: seq<Effect>, b: seq<Effect>)
    requires NewestFirst(a) && NewestFirst(b) && multiset(a) == multiset(b)
    ensures a == b
  {
    if a == [] || b == [] {
      assert |multiset(a)| == |multiset(b)|;
    } else {
      NewestIsFirst(a, b);
      TailMultiset(a);
      TailMultiset(b);
      OnlyNewestFirst(a[1..], b[1..]);
      assert a == [a[0]] + a[1..] && b == [b[0]] + b[1..];
    }
  }

  /** The rows of the effects were stamped in the order the effects happened. */
  ghost predicate StampedInOrder(effects: seq<Effect>) {
    forall i, j :: 0 <= i < j < |effects| ==> Newer(effects[j], effects[i])
  }

  ghost predicate AllLeftInverse<S(!new)>(registry: Registry<S>, forward: (Effect, S) -> S, effects: seq<Effect>) {
    forall i :: 0 <= i < |effects| ==> LeftInverse(registry, forward, effects[i])
  }

  /** The effects are the unit's successful ones, in the order they happened, and none was reversed before. */
  ghost predicate Happened(table: seq<Effect>, unit: string, effects: seq<Effect>, skip: set<int>) {
    && DistinctIds(table) && multiset(Matching(table, unit)) == multiset(effects)
    && (forall i :: 0 <= i < |effects| ==> effects[i].id !in skip)
  }

  /**
   One undo takes the world back to where it was before the first effect, when the rows were
   stamped in the order the effects happened and every effect has a left-inverse compensator.
   */
  lemma UndoRestores<S(!new)>(registry: Registry<S>, skip: set<int>, forward: (Effect, S) -> S, world: S,
                              table: seq<Effect>, unit: string, effects: seq<Effect>)
    requires Happened(table, unit, effects, skip) && StampedInOrder(effects) && AllLeftInverse(registry, forward, effects)
    ensures var p := UndoMany(registry, skip, After(forward, world, effects), Records(table, unit));
            p.world == world && p.summary == NO_EFFECTS.(reversed := Reverse(effects))
  {
    RecordsAreMatchingNewestFirst(table, unit);
    OnlyNewestFirst(Records(table, unit), Reverse(effects));
    ReversalRestores(registry, skip, forward, world, effects, Reverse(effects), |effects|);
    assert Reverse(effects)[..|effects|] == Reverse(effects) && effects[..0] == [];
  }

  // A world that remembers: every effect pushes itself, and its compensator takes it off the top or raises.
  type Stack = seq<Effect>

  function Push(e: Effect, s: Stack): Stack { s + [e] }

  function Pop(e: Effect, s: Stack): Outcome<Stack> {
    if s != [] && s[|s| - 1] == e then Done(s[..|s| - 1]) else Raised(s, "not on top")
  }

  function Types(effects: seq<Effect>): set<string> { set e | e in effects :: e.actionType }

  function Poppers(effects: seq<Effect>): Registry<Stack> { map t | t in Types(effects) :: Pop }

  lemma PoppersInvert(effects: seq<Effect>)
    ensures AllLeftInverse(Poppers(effects), Push, effects)
  {
    forall i | 0 <= i < |effects| ensures LeftInverse(Poppers(effects), Push, effects[i]) {
      var e := effects[i];
      assert e in effects && e.actionType in Types(effects);
      forall s: Stack ensures Pop(e, Push(e, s)) == Done(s) { assert (s + [e])[..|s|] == s; }
    }
  }

  lemma {:induction false} PushedAll(effects: seq<Effect>)
    ensures After(Push, [], effects) == effects
    decreases |effects|
  {
    if effects != [] {
      PushedAll(effects[..|effects| - 1]);
      assert effects == effects[..|effects| - 1] + [effects[|effects| - 1]];
    }
  }

  /** What the first k of the records r leave of the stack. */
  ghost predicate PoppedSoFar(effects: seq<Effect>, r: seq<Effect>, k: nat, left: Stack)
    requires k <= |r| == |effects|
  {
    && left <= effects && |effects| - k <= |left|
    && (|left| == |effects| - k ==> forall i :: 0 <= i < k ==> r[i] == effects[|effects| - 1 - i])
  }

  lemma PoppedOne(effects: seq<Effect>, skip: set<int>, r: seq<Effect>, k: nat, p: Progress<Stack>)
    requires k < |r| == |effects| && PoppedSoFar(effects, r, k, p.world)
    ensures PoppedSoFar(effects, r, k + 1, UndoOne(Poppers(effects), skip, p, r[k]).world)
  {
    var q := UndoOne(Poppers(effects), skip, p, r[k]);
    assert q.world == p.world || (Pop(r[k], p.world).Done? && q.world == p.world[..|p.world| - 1]);
  }

  lemma {:induction false} PoppedMany(effects: seq<Effect>, skip: set<int>, r: seq<Effect>, k: nat)
    requires k <= |r| == |effects|
    ensures PoppedSoFar(effects, r, k, UndoMany(Poppers(effects), skip, effects, r[..k]).world)
  {
    if k > 0 {
      PoppedMany(effects, skip, r, k - 1);
      UndoManyStep(Poppers(effects), skip, effects, r, k - 1);
      PoppedOne(effects, skip, r, k - 1, UndoMany(Poppers(effects), skip, effects, r[..k - 1]));
    }
  }

  /** An undo that empties the stack went through the effects from the last to the first. */
  lemma EmptiedMeansInOrder(table: seq<Effect>, unit: string, effects: seq<Effect>, skip: set<int>)
    requires Happened(table, unit, effects, skip)
    requires UndoMany(Poppers(effects), skip, effects, Records(table, unit)).world == []
    ensures StampedInOrder(effects)
  {
    var r := Records(table, unit);
    RecordsAreMatchingNewestFirst(table, unit);
    SameSize(r, effects);
    PoppedMany(effects, skip, r, |r|);
    assert r[..|r|] == r;
    NewestFirstReversed(effects, r);
  }

  lemma SameSize(a: seq<Effect>, b: seq<Effect>)
    requires multiset(a) == multiset(b)
    ensures |a| == |b|
  {
    assert |multiset(a)| == |multiset(b)|;
  }

  lemma NewestFirstReversed(effects: seq<Effect>, r: seq<Effect>)
    requires NewestFirst(r) && |r| == |effects| && forall i :: 0 <= i < |r| ==> r[i] == effects[|effects| - 1 - i]
    ensures StampedInOrder(effects)
  {
    var n := |effects|;
    forall i, j | 0 <= i < j < n ensures Newer(effects[j], effects[i]) {
      assert r[n - 1 - j] == effects[j] && r[n - 1 - i] == effects[i];
    }
  }

  /** Every undo of these effects restores every world in which each has a left inverse. */
  ghost predicate Restores<S(!new)>(table: seq<Effect>, unit: string, effects: seq<Effect>, skip: set<int>) {
    forall registry: Registry<S>, forward: (Effect, S) -> S, world: S ::
      AllLeftInverse(registry, forward, effects) ==>
        UndoMany(registry, skip, After(forward, world, effects), Records(table, unit)).world == world
  }

  lemma InOrderRestores<S(!new)>(table: seq<Effect>, unit: string, effects: seq<Effect>, skip: set<int>)
    requires Happened(table, unit, effects, skip) && StampedInOrder(effects)
    ensures Restores<S>(table, unit, effects, skip)
  {
    forall registry: Registry<S>, forward: (Effect, S) -> S, world: S | AllLeftInverse(registry, forward, effects)
      ensures UndoMany(registry, skip, After(forward, world, effects), Records(table, unit)).world == world
    {
      UndoRestores(registry, skip, forward, world, table, unit, effects);
    }
  }

  lemma RestoringEmpties(table: seq<Effect>, unit: string, effects: seq<Effect>, skip: set<int>)
    requires Restores<Stack>(table, unit, effects, skip)
    ensures UndoMany(Poppers(effects), skip, effects, Records(table, unit)).world == []
  {
    PoppersInvert(effects);
    PushedAll(effects);
  }

  /** Undo restores every such world if and only if the rows were stamped in the order of the effects. */
  lemma RestoresIff(table: seq<Effect>, unit: string, effects: seq<Effect>, skip: set<int>)
    requires Happened(table, unit, effects, skip)
    ensures Restores<Stack>(table, unit, effects, skip) <==> StampedInOrder(effects)
  {
    if StampedInOrder(effects) {
      InOrderRestores<Stack>(table, unit, effects, skip);
    } else if Restores<Stack>(table, unit, effects, skip) {
      RestoringEmpties(table, unit, effects, skip);
      EmptiedMeansInOrder(table, unit, effects, skip);
    }
  }

  // Two writes to a number that do not commute, stamped in one instant.
  const DOUBLED := Effect(2, "u", "double", true, 0)
  const ADDED := Effect(1, "u", "add", true, 0)

  function Write(e: Effect, s: int): int { if e.actionType == "double" then 2 * s else s + 1 }

  function Undoers(): Registry<int> {
    map["double" := (e: Effect, s: int) => Done(s / 2), "add" := (e: Effect, s: int) => Done(s - 1)]
  }

  lemma TiedRecords()
    ensures Records([DOUBLED, ADDED], "u") == [DOUBLED, ADDED]
  {
    assert [DOUBLED, ADDED][1..] == [ADDED] && [ADDED][1..] == [];
    assert Records([ADDED], "u") == [ADDED];
    assert Insert(DOUBLED, [ADDED]) == [DOUBLED] + [ADDED];
  }

  lemma TiedWorld()
    ensures After(Write, 1, [DOUBLED, ADDED]) == 3
  {
    var es := [DOUBLED, ADDED];
    assert es[..0] == [] && es[..2] == es;
    AfterStep(Write, 1, es, 0);
    AfterStep(Write, 1, es, 1);
  }

  /**
   Rows stamped in the same instant are ordered by their random ids: two effects whose ids
   fall the other way are reversed oldest first, and a left inverse for each is not enough.
   */
  lemma TiedStampsMayNotRestore()
    ensures LeftInverse(Undoers(), Write, DOUBLED) && LeftInverse(Undoers(), Write, ADDED)
    ensures var es := [DOUBLED, ADDED];
            UndoMany(Undoers(), {}, After(Write, 1, es), Records(es, "u")).world == 0
  {
    TiedInverses();
    TiedRecords();
    TiedWorld();
    TiedUndo();
  }

  lemma TiedInverses()
    ensures LeftInverse(Undoers(), Write, DOUBLED) && LeftInverse(Undoers(), Write, ADDED)
  {
    forall s: int ensures Undoers()["double"](DOUBLED, Write(DOUBLED, s)) == Done(s) { assert 2 * s / 2 == s; }
  }

  lemma TiedUndo()
    ensures UndoMany(Undoers(), {}, 3, [DOUBLED, ADDED]).world == 0
  {
    var es, reg := [DOUBLED, ADDED], Undoers();
    assert es[..0] == [] && es[..2] == es;
    UndoManyStep(reg, {}, 3, es, 0);
    UndoManyStep(reg, {}, 3, es, 1);
    var p := UndoMany(reg, {}, 3, es[..1]);
    assert reg["double"](DOUBLED, 3) == Done(1);
    assert p.world == 1;
    assert reg["add"](ADDED, 1) == Done(0);
  }
}
