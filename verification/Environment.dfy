/**
 The execution environment clamp of AINDY/core/execution_environment.py: a declared spec is
 intersected with a floor, checked against the host's assurance, and translated into the
 arguments of the guest VM.

 Each axis is ordered from most to least restrictive.  Paths are compared in canonical form,
 as component lists; how the host canonicalizes a string is a parameter.
 */
module Environment {
  import opened Common

  datatype FsMode = FsNone | FsReadonly | FsScoped | FsHost
  datatype EnvMode = EnvNone | EnvAllowlist | EnvInherit
  datatype NetMode = NetNone | NetScoped | NetOpen
  datatype Assurance = InsecureDev | ContainerGrade | StrongTier | Unrecognised(name: string)

  datatype Visibility = Visibility(filesystem: FsMode, roots: seq<string>, env: EnvMode, envAllow: seq<string>)
  datatype Authority = Authority(network: NetMode, egressScope: Option<string>, subprocess: bool)
  datatype Resources = Resources(wallTimeMs: Option<nat>, memoryBytes: Option<nat>, syscalls: Option<nat>, tokens: Option<nat>)
  datatype Spec = Spec(visibility: Visibility, authority: Authority, resources: Resources, minAssurance: Assurance)

  datatype Field =
    | FFilesystem | FRoots | FEnv | FNetwork | FSubprocess | FWallTime | FMemory | FSyscalls | FTokens

  type Canonical = seq<string>

  function FsRank(m: FsMode): nat { match m case FsNone => 0 case FsReadonly => 1 case FsScoped => 2 case FsHost => 3 }
  function EnvRank(m: EnvMode): nat { match m case EnvNone => 0 case EnvAllowlist => 1 case EnvInherit => 2 }
  function NetRank(m: NetMode): nat { match m case NetNone => 0 case NetScoped => 1 case NetOpen => 2 }

  /** An unrecognised class is weaker than every known one. */
  function AssuranceRank(a: Assurance): int {
    match a case InsecureDev => 0 case ContainerGrade => 1 case StrongTier => 2 case Unrecognised(_) => -1
  }

  // ------------------------------------------------------------------ narrowing one axis

  function NarrowerFs(d: FsMode, f: FsMode): FsMode { if FsRank(d) <= FsRank(f) then d else f }
  function NarrowerEnv(d: EnvMode, f: EnvMode): EnvMode { if EnvRank(d) <= EnvRank(f) then d else f }
  function NarrowerNet(d: NetMode, f: NetMode): NetMode { if NetRank(d) <= NetRank(f) then d else f }

  /** The lower ceiling; an absent one never narrows. */
  function NarrowerInt(d: Option<nat>, f: Option<nat>): Option<nat> {
    if d.None? then f else if f.None? then d else if d.value <= f.value then d else f
  }

  predicate Exceeds(d: Option<nat>, f: Option<nat>) { d.Some? && f.Some? && d.value > f.value }

  predicate Within(path: Canonical, root: Canonical) { root <= path }

  function NonEmpty(roots: seq<string>): (r: seq<string>)
    ensures forall i :: 0 <= i < |r| ==> r[i] in roots && r[i] != ""
  {
    if roots == [] then [] else (if roots[0] != "" then [roots[0]] else []) + NonEmpty(roots[1..])
  }

  predicate Covered(canon: string -> Canonical, root: string, floorRoots: seq<string>) {
    exists i :: 0 <= i < |floorRoots| && floorRoots[i] != "" && Within(canon(root), canon(floorRoots[i]))
  }

  /** Some named root lies inside none of the floor's. */
  predicate Uncovered(canon: string -> Canonical, roots: seq<string>, floorRoots: seq<string>) {
    exists i :: 0 <= i < |roots| && roots[i] != "" && !Covered(canon, roots[i], floorRoots)
  }

  function Keep(canon: string -> Canonical, roots: seq<string>, floorRoots: seq<string>): (r: seq<string>)
    ensures |r| <= |roots|
    ensures forall i :: 0 <= i < |r| ==> r[i] in roots && Covered(canon, r[i], floorRoots)
  {
    if roots == [] then []
    else (if Covered(canon, roots[0], floorRoots) then [roots[0]] else []) + Keep(canon, roots[1..], floorRoots)
  }

  /** The modes that read their roots. */
  predicate Readable(mode: FsMode) { mode.FsReadonly? || mode.FsScoped? }

  /** `mode` is the mode after narrowing: `none` and `host` do not read their roots. */
  function ClampRoots(canon: string -> Canonical, mode: FsMode, declared: seq<string>, floor: Visibility): seq<string> {
    var roots := NonEmpty(declared);
    if mode.FsNone? || mode.FsHost? || roots == [] || floor.filesystem.FsHost? then roots
    else Keep(canon, roots, floor.roots)
  }

  // ------------------------------------------------------------------ the clamp

  function Clamp(canon: string -> Canonical, d: Spec, f: Spec): Spec {
    var fs := NarrowerFs(d.visibility.filesystem, f.visibility.filesystem);
    Spec(
      Visibility(fs, ClampRoots(canon, fs, d.visibility.roots, f.visibility),
                 NarrowerEnv(d.visibility.env, f.visibility.env), d.visibility.envAllow),
      Authority(NarrowerNet(d.authority.network, f.authority.network), d.authority.egressScope,
                d.authority.subprocess && f.authority.subprocess),
      Resources(NarrowerInt(d.resources.wallTimeMs, f.resources.wallTimeMs),
                NarrowerInt(d.resources.memoryBytes, f.resources.memoryBytes),
                NarrowerInt(d.resources.syscalls, f.resources.syscalls),
                NarrowerInt(d.resources.tokens, f.resources.tokens)),
      if AssuranceRank(f.minAssurance) > AssuranceRank(d.minAssurance) then f.minAssurance else d.minAssurance)
  }

  /** Which fields the caller tried to widen. */
  predicate Widens(canon: string -> Canonical, d: Spec, f: Spec, field: Field) {
    match field
    case FFilesystem => FsRank(d.visibility.filesystem) > FsRank(f.visibility.filesystem)
    case FRoots =>
      && Readable(NarrowerFs(d.visibility.filesystem, f.visibility.filesystem)) && !f.visibility.filesystem.FsHost?
      && Uncovered(canon, d.visibility.roots, f.visibility.roots)
    case FEnv => EnvRank(d.visibility.env) > EnvRank(f.visibility.env)
    case FNetwork => NetRank(d.authority.network) > NetRank(f.authority.network)
    case FSubprocess => d.authority.subprocess && !f.authority.subprocess
    case FWallTime => Exceeds(d.resources.wallTimeMs, f.resources.wallTimeMs)
    case FMemory => Exceeds(d.resources.memoryBytes, f.resources.memoryBytes)
    case FSyscalls => Exceeds(d.resources.syscalls, f.resources.syscalls)
    case FTokens => Exceeds(d.resources.tokens, f.resources.tokens)
  }

  const FIELDS := [FFilesystem, FRoots, FEnv, FNetwork, FSubprocess, FWallTime, FMemory, FSyscalls, FTokens]

  function Note(fields: seq<Field>, widens: bool, field: Field): seq<Field> {
    if widens then fields + [field] else fields
  }

  /** The names of the widened fields, in field order. */
  function WidenedUpTo(canon: string -> Canonical, d: Spec, f: Spec, n: nat): seq<Field>
    requires n <= |FIELDS|
  {
    if n == 0 then []
    else Note(WidenedUpTo(canon, d, f, n - 1), Widens(canon, d, f, FIELDS[n - 1]), FIELDS[n - 1])
  }

  function WidenedFields(canon: string -> Canonical, d: Spec, f: Spec): seq<Field> {
    WidenedUpTo(canon, d, f, |FIELDS|)
  }

  lemma {:induction false} WidenedPrefix(canon: string -> Canonical, d: Spec, f: Spec, n: nat, field: Field)
    requires n <= |FIELDS|
    ensures field in WidenedUpTo(canon, d, f, n) <==> Widens(canon, d, f, field) && field in FIELDS[..n]
  {
    if n > 0 {
      WidenedPrefix(canon, d, f, n - 1, field);
      assert FIELDS[..n] == FIELDS[..n - 1] + [FIELDS[n - 1]];
    }
  }

  /** A field is reported exactly when the caller's value exceeded the floor's. */
  lemma WidenedExactly(canon: string -> Canonical, d: Spec, f: Spec, field: Field)
    ensures field in WidenedFields(canon, d, f) <==> Widens(canon, d, f, field)
  {
    WidenedPrefix(canon, d, f, |FIELDS|, field);
    assert FIELDS[..|FIELDS|] == FIELDS;
    assert field == FIELDS[0] || field == FIELDS[1] || field == FIELDS[2] || field == FIELDS[3] || field == FIELDS[4]
        || field == FIELDS[5] || field == FIELDS[6] || field == FIELDS[7] || field == FIELDS[8];
  }

  /** The order in which the clamp goes through the fields. */
  function Place(field: Field): nat {
    match field
    case FFilesystem => 0 case FRoots => 1 case FEnv => 2 case FNetwork => 3 case FSubprocess => 4
    case FWallTime => 5 case FMemory => 6 case FSyscalls => 7 case FTokens => 8
  }

  lemma Placed(k: nat)
    requires k < |FIELDS|
    ensures Place(FIELDS[k]) == k
  {
    assert k == 0 || k == 1 || k == 2 || k == 3 || k == 4 || k == 5 || k == 6 || k == 7 || k == 8;
  }

  /** In that order, and from the first n fields. */
  ghost predicate InOrder(w: seq<Field>, n: nat) {
    (forall i :: 0 <= i < |w| ==> Place(w[i]) < n) && (forall i, j :: 0 <= i < j < |w| ==> Place(w[i]) < Place(w[j]))
  }

  lemma NotedInOrder(w: seq<Field>, widens: bool, field: Field, n: nat)
    requires InOrder(w, n) && Place(field) == n
    ensures InOrder(Note(w, widens, field), n + 1)
  {
  }

  lemma {:induction false} WidenedOrdered(canon: string -> Canonical, d: Spec, f: Spec, n: nat)
    requires n <= |FIELDS|
    ensures InOrder(WidenedUpTo(canon, d, f, n), n)
  {
    if n > 0 {
      WidenedOrdered(canon, d, f, n - 1);
      Placed(n - 1);
      NotedInOrder(WidenedUpTo(canon, d, f, n - 1), Widens(canon, d, f, FIELDS[n - 1]), FIELDS[n - 1], n - 1);
    }
  }

  /** The names come in that order, each at most once. */
  lemma WidenedInOrder(canon: string -> Canonical, d: Spec, f: Spec)
    ensures InOrder(WidenedFields(canon, d, f), 9)
  {
    WidenedOrdered(canon, d, f, |FIELDS|);
  }

  lemma {:induction false} NonEmptyExactly(roots: seq<string>, root: string)
    ensures root in NonEmpty(roots) <==> root in roots && root != ""
  {
    if roots != [] { NonEmptyExactly(roots[1..], root); }
  }

  lemma {:induction false} KeepShortensIff(canon: string -> Canonical, roots: seq<string>, floorRoots: seq<string>)
    requires forall i :: 0 <= i < |roots| ==> roots[i] != ""
    ensures |Keep(canon, roots, floorRoots)| != |roots| <==> Uncovered(canon, roots, floorRoots)
  {
    if roots != [] {
      KeepShortensIff(canon, roots[1..], floorRoots);
      assert forall i :: 0 < i < |roots| ==> roots[i] == roots[1..][i - 1];
    }
  }

  /** The clamp shortens the list exactly when a declared root is not covered by a floor that reads its own. */
  lemma RootsWidenIff(canon: string -> Canonical, d: Spec, f: Spec)
    ensures |Clamp(canon, d, f).visibility.roots| != |NonEmpty(d.visibility.roots)| <==> Widens(canon, d, f, FRoots)
  {
    KeepShortensIff(canon, NonEmpty(d.visibility.roots), f.visibility.roots);
    UncoveredIff(canon, d.visibility.roots, f.visibility.roots);
  }

  lemma {:induction false} UncoveredIff(canon: string -> Canonical, roots: seq<string>, floorRoots: seq<string>)
    ensures Uncovered(canon, NonEmpty(roots), floorRoots) <==> Uncovered(canon, roots, floorRoots)
  {
    if roots != [] {
      UncoveredIff(canon, roots[1..], floorRoots);
      UncoveredFirst(canon, roots[0], roots[1..], floorRoots);
      UncoveredFirst(canon, roots[0], NonEmpty(roots[1..]), floorRoots);
      assert roots == [roots[0]] + roots[1..];
      assert NonEmpty(roots) == if roots[0] != "" then [roots[0]] + NonEmpty(roots[1..]) else NonEmpty(roots[1..]);
    }
  }

  lemma UncoveredFirst(canon: string -> Canonical, root: string, rest: seq<string>, floorRoots: seq<string>)
    ensures Uncovered(canon, [root] + rest, floorRoots) <==>
            (root != "" && !Covered(canon, root, floorRoots)) || Uncovered(canon, rest, floorRoots)
  {
    var all := [root] + rest;
    assert all[0] == root && forall i :: 0 <= i < |rest| ==> all[i + 1] == rest[i];
    assert forall i :: 0 < i < |all| ==> all[i] == rest[i - 1];
  }

  method ClampVisibility(canon: string -> Canonical, d: Spec, f: Spec)
    returns (fs: FsMode, roots: seq<string>, env: EnvMode, widened: seq<Field>)
    ensures var v := Clamp(canon, d, f).visibility; fs == v.filesystem && roots == v.roots && env == v.env
    ensures widened == WidenedUpTo(canon, d, f, 3)
  {
    fs := NarrowerFs(d.visibility.filesystem, f.visibility.filesystem);
    widened := Note([], FsRank(d.visibility.filesystem) > FsRank(f.visibility.filesystem), FFilesystem);
    assert widened == WidenedUpTo(canon, d, f, 1);
    roots := ClampRoots(canon, fs, d.visibility.roots, f.visibility);
    RootsWidenIff(canon, d, f);
    widened := Note(widened, |roots| != |NonEmpty(d.visibility.roots)|, FRoots);
    assert widened == WidenedUpTo(canon, d, f, 2);
    env := NarrowerEnv(d.visibility.env, f.visibility.env);
    widened := Note(widened, EnvRank(d.visibility.env) > EnvRank(f.visibility.env), FEnv);
  }

  method ClampResources(canon: string -> Canonical, d: Spec, f: Spec, before: seq<Field>)
    returns (resources: Resources, widened: seq<Field>)
    requires before == WidenedUpTo(canon, d, f, 5)
    ensures resources == Clamp(canon, d, f).resources && widened == WidenedFields(canon, d, f)
  {
    var wall := NarrowerInt(d.resources.wallTimeMs, f.resources.wallTimeMs);
    widened := Note(before, Exceeds(d.resources.wallTimeMs, f.resources.wallTimeMs), FWallTime);
    assert widened == WidenedUpTo(canon, d, f, 6);
    var memory := NarrowerInt(d.resources.memoryBytes, f.resources.memoryBytes);
    widened := Note(widened, Exceeds(d.resources.memoryBytes, f.resources.memoryBytes), FMemory);
    assert widened == WidenedUpTo(canon, d, f, 7);
    var syscalls := NarrowerInt(d.resources.syscalls, f.resources.syscalls);
    widened := Note(widened, Exceeds(d.resources.syscalls, f.resources.syscalls), FSyscalls);
    assert widened == WidenedUpTo(canon, d, f, 8);
    var tokens := NarrowerInt(d.resources.tokens, f.resources.tokens);
    widened := Note(widened, Exceeds(d.resources.tokens, f.resources.tokens), FTokens);
    resources := Resources(wall, memory, syscalls, tokens);
  }

  /** clamp_to_floor: the effective spec, and the names it appends as it goes. */
  method ClampToFloor(canon: string -> Canonical, d: Spec, f: Spec) returns (effective: Spec, widened: seq<Field>)
    ensures effective == Clamp(canon, d, f)
    ensures widened == WidenedFields(canon, d, f)
  {
    var fs, roots, env;
    fs, roots, env, widened := ClampVisibility(canon, d, f);
    var net := NarrowerNet(d.authority.network, f.authority.network);
    widened := Note(widened, NetRank(d.authority.network) > NetRank(f.authority.network), FNetwork);
    assert widened == WidenedUpTo(canon, d, f, 4);
    var subprocess := d.authority.subprocess && f.authority.subprocess;
    widened := Note(widened, d.authority.subprocess && !f.authority.subprocess, FSubprocess);
    assert widened == WidenedUpTo(canon, d, f, 5);
    var resources;
    resources, widened := ClampResources(canon, d, f, widened);
    var assurance := d.minAssurance;
    if AssuranceRank(f.minAssurance) > AssuranceRank(d.minAssurance) { assurance := f.minAssurance; }
    effective := Spec(
      d.visibility.(filesystem := fs, roots := roots, env := env),
      d.authority.(network := net, subprocess := subprocess),
      resources,
      assurance);
  }

  // ------------------------------------------------------------------ greatest lower bound

  predicate LeqInt(a: Option<nat>, b: Option<nat>) { b.None? || (a.Some? && a.value <= b.value) }

  /** The ceiling keeps a use of n + 1 out. */
  predicate Bounds(c: Option<nat>, n: int) { c.Some? && c.value <= n }

  /** a grants at most what b grants, on every axis but the root lists and the unclamped names. */
  predicate Leq(a: Spec, b: Spec) {
    && FsRank(a.visibility.filesystem) <= FsRank(b.visibility.filesystem)
    && EnvRank(a.visibility.env) <= EnvRank(b.visibility.env)
    && NetRank(a.authority.network) <= NetRank(b.authority.network)
    && (a.authority.subprocess ==> b.authority.subprocess)
    && LeqInt(a.resources.wallTimeMs, b.resources.wallTimeMs)
    && LeqInt(a.resources.memoryBytes, b.resources.memoryBytes)
    && LeqInt(a.resources.syscalls, b.resources.syscalls)
    && LeqInt(a.resources.tokens, b.resources.tokens)
    && AssuranceRank(a.minAssurance) >= AssuranceRank(b.minAssurance)
  }

  /** The same grant on those axes. */
  predicate Same(a: Spec, b: Spec) { Leq(a, b) && Leq(b, a) }

  /** The clamp is the greatest spec below both the declared one and the floor. */
  lemma ClampIsGreatestLowerBound(canon: string -> Canonical, d: Spec, f: Spec)
    ensures Leq(Clamp(canon, d, f), d) && Leq(Clamp(canon, d, f), f)
    ensures forall g :: Leq(g, d) && Leq(g, f) ==> Leq(g, Clamp(canon, d, f))
  {
  }

  /** a is not above b on an axis with ceilings: what b keeps out a keeps out. */
  ghost predicate NoHigher(x: Option<nat>, y: Option<nat>) { forall n: int :: Bounds(y, n) ==> Bounds(x, n) }

  lemma NoHigherIff(x: Option<nat>, y: Option<nat>)
    ensures LeqInt(x, y) <==> NoHigher(x, y)
  {
    if NoHigher(x, y) && y.Some? { assert Bounds(y, y.value); }
  }

  /** The order the clamp is the greatest lower bound in, by the names of the modes. */
  lemma LeqIff(a: Spec, b: Spec)
    ensures Leq(a, b) <==>
            (&& (a.visibility.filesystem, b.visibility.filesystem) !in
                  {(FsReadonly, FsNone), (FsScoped, FsNone), (FsHost, FsNone),
                   (FsScoped, FsReadonly), (FsHost, FsReadonly), (FsHost, FsScoped)}
             && (a.visibility.env, b.visibility.env) !in {(EnvAllowlist, EnvNone), (EnvInherit, EnvNone), (EnvInherit, EnvAllowlist)}
             && (a.authority.network, b.authority.network) !in {(NetScoped, NetNone), (NetOpen, NetNone), (NetOpen, NetScoped)}
             && !(a.authority.subprocess && !b.authority.subprocess)
             && NoHigher(a.resources.wallTimeMs, b.resources.wallTimeMs) && NoHigher(a.resources.memoryBytes, b.resources.memoryBytes)
             && NoHigher(a.resources.syscalls, b.resources.syscalls) && NoHigher(a.resources.tokens, b.resources.tokens)
             && (b.minAssurance == StrongTier ==> a.minAssurance == StrongTier)
             && (b.minAssurance == ContainerGrade ==> a.minAssurance in {ContainerGrade, StrongTier})
             && (b.minAssurance == InsecureDev ==> !a.minAssurance.Unrecognised?))
  {
    NoHigherIff(a.resources.wallTimeMs, b.resources.wallTimeMs);
    NoHigherIff(a.resources.memoryBytes, b.resources.memoryBytes);
    NoHigherIff(a.resources.syscalls, b.resources.syscalls);
    NoHigherIff(a.resources.tokens, b.resources.tokens);
  }

  /** A narrower request under a narrower floor never gets more. */
  lemma ClampMonotone(canon: string -> Canonical, d: Spec, d': Spec, f: Spec, f': Spec)
    requires Leq(d, d') && Leq(f, f')
    ensures Leq(Clamp(canon, d, f), Clamp(canon, d', f'))
  {
  }

  /** Clamping twice is clamping to the combined floor, and clamping again changes nothing. */
  lemma ClampAssociative(canon: string -> Canonical, d: Spec, f: Spec, g: Spec)
    ensures Same(Clamp(canon, Clamp(canon, d, f), g), Clamp(canon, d, Clamp(canon, f, g)))
    ensures Same(Clamp(canon, Clamp(canon, d, f), f), Clamp(canon, d, f))
  {
  }

  // ------------------------------------------------------------------ mode by mode

  /** What each clamped mode is, from the two it came from. */
  lemma ClampedModes(canon: string -> Canonical, d: Spec, f: Spec)
    ensures var (c, x, y) := (Clamp(canon, d, f).authority.network, d.authority.network, f.authority.network);
            && (c == NetOpen <==> x == NetOpen && y == NetOpen)
            && (c == NetNone <==> x == NetNone || y == NetNone)
    ensures var (c, x, y) := (Clamp(canon, d, f).visibility.env, d.visibility.env, f.visibility.env);
            && (c == EnvInherit <==> x == EnvInherit && y == EnvInherit)
            && (c == EnvNone <==> x == EnvNone || y == EnvNone)
    ensures var (c, x, y) := (Clamp(canon, d, f).visibility.filesystem, d.visibility.filesystem, f.visibility.filesystem);
            && (c == FsHost <==> x == FsHost && y == FsHost)
            && (c == FsNone <==> x == FsNone || y == FsNone)
            && (c == FsScoped <==> {x, y} <= {FsScoped, FsHost} && FsScoped in {x, y})
    ensures Clamp(canon, d, f).authority.subprocess <==> d.authority.subprocess && f.authority.subprocess
  {
  }

  /** The stronger minimum wins, and an unrecognised one never wins over a known one. */
  lemma ClampedAssurance(canon: string -> Canonical, d: Spec, f: Spec)
    ensures var (c, x, y) := (Clamp(canon, d, f).minAssurance, d.minAssurance, f.minAssurance);
            && (c == StrongTier <==> x == StrongTier || y == StrongTier)
            && (c == ContainerGrade <==> StrongTier !in {x, y} && ContainerGrade in {x, y})
            && (c == InsecureDev <==> StrongTier !in {x, y} && ContainerGrade !in {x, y} && InsecureDev in {x, y})
            && (x.Unrecognised? && y.Unrecognised? ==> c == x)
  {
  }

  /** No clamped ceiling is above either one, and each is one of the two. */
  ghost predicate Lower(c: Option<nat>, x: Option<nat>, y: Option<nat>) {
    (c == x || c == y) && forall n: int :: Bounds(c, n) <==> Bounds(x, n) || Bounds(y, n)
  }

  lemma ClampedCeilings(canon: string -> Canonical, d: Spec, f: Spec)
    ensures var (c, x, y) := (Clamp(canon, d, f).resources, d.resources, f.resources);
            && Lower(c.wallTimeMs, x.wallTimeMs, y.wallTimeMs) && Lower(c.memoryBytes, x.memoryBytes, y.memoryBytes)
            && Lower(c.syscalls, x.syscalls, y.syscalls) && Lower(c.tokens, x.tokens, y.tokens)
  {
  }

  /** Which pairs of declared and floor are named as widened. */
  lemma WidenedPairs(canon: string -> Canonical, d: Spec, f: Spec)
    ensures FNetwork in WidenedFields(canon, d, f) <==>
              (d.authority.network, f.authority.network) in {(NetScoped, NetNone), (NetOpen, NetNone), (NetOpen, NetScoped)}
    ensures FEnv in WidenedFields(canon, d, f) <==>
              (d.visibility.env, f.visibility.env) in {(EnvAllowlist, EnvNone), (EnvInherit, EnvNone), (EnvInherit, EnvAllowlist)}
    ensures FFilesystem in WidenedFields(canon, d, f) <==>
              (d.visibility.filesystem, f.visibility.filesystem) in
                {(FsReadonly, FsNone), (FsScoped, FsNone), (FsHost, FsNone),
                 (FsScoped, FsReadonly), (FsHost, FsReadonly), (FsHost, FsScoped)}
    ensures FSubprocess in WidenedFields(canon, d, f) <==> d.authority.subprocess && !f.authority.subprocess
  {
    WidenedExactly(canon, d, f, FNetwork);
    WidenedExactly(canon, d, f, FEnv);
    WidenedExactly(canon, d, f, FFilesystem);
    WidenedExactly(canon, d, f, FSubprocess);
  }

  /** Some use that the declared ceiling lets through the floor's keeps out. */
  ghost predicate AsksForMore(x: Option<nat>, y: Option<nat>) { x.Some? && exists n: int :: !Bounds(x, n) && Bounds(y, n) }

  lemma AsksIff(x: Option<nat>, y: Option<nat>)
    ensures Exceeds(x, y) <==> AsksForMore(x, y)
  {
    if Exceeds(x, y) { assert !Bounds(x, y.value) && Bounds(y, y.value); }
  }

  /** A ceiling is named exactly when a declared one asks for more than the floor's. */
  lemma WidenedCeilings(canon: string -> Canonical, d: Spec, f: Spec)
    ensures FWallTime in WidenedFields(canon, d, f) <==> AsksForMore(d.resources.wallTimeMs, f.resources.wallTimeMs)
    ensures FMemory in WidenedFields(canon, d, f) <==> AsksForMore(d.resources.memoryBytes, f.resources.memoryBytes)
    ensures FSyscalls in WidenedFields(canon, d, f) <==> AsksForMore(d.resources.syscalls, f.resources.syscalls)
    ensures FTokens in WidenedFields(canon, d, f) <==> AsksForMore(d.resources.tokens, f.resources.tokens)
  {
    WidenedExactly(canon, d, f, FWallTime);
    WidenedExactly(canon, d, f, FMemory);
    WidenedExactly(canon, d, f, FSyscalls);
    WidenedExactly(canon, d, f, FTokens);
    AsksIff(d.resources.wallTimeMs, f.resources.wallTimeMs);
    AsksIff(d.resources.memoryBytes, f.resources.memoryBytes);
    AsksIff(d.resources.syscalls, f.resources.syscalls);
    AsksIff(d.resources.tokens, f.resources.tokens);
  }

  // ------------------------------------------------------------------ roots

  /** Under a bounded floor every root that a readable mode keeps lies inside a root of the floor. */
  lemma SurvivingRootsInsideFloor(canon: string -> Canonical, d: Spec, f: Spec)
    requires !f.visibility.filesystem.FsHost?
    ensures var v := Clamp(canon, d, f).visibility;
            v.filesystem.FsNone? ||
            forall i :: 0 <= i < |v.roots| ==> v.roots[i] in d.visibility.roots && Covered(canon, v.roots[i], f.visibility.roots)
  {
  }

  lemma {:induction false} KeepExactly(canon: string -> Canonical, roots: seq<string>, floorRoots: seq<string>, root: string)
    ensures root in Keep(canon, roots, floorRoots) <==> root in roots && Covered(canon, root, floorRoots)
  {
    if roots != [] { KeepExactly(canon, roots[1..], floorRoots, root); }
  }

  /**
   Roots do not associate.  A root kept by the combined floor is kept by the two floors in
   turn, but not conversely: the combined floor drops a wide root of the first floor instead
   of cutting it down to the second.
   */
  lemma CombinedFloorKeepsFewer(canon: string -> Canonical, roots: seq<string>, f: seq<string>, g: seq<string>, root: string)
    requires root in Keep(canon, roots, Keep(canon, NonEmpty(f), g))
    ensures root in Keep(canon, Keep(canon, roots, f), g)
  {
    var fg := Keep(canon, NonEmpty(f), g);
    KeepExactly(canon, roots, fg, root);
    var i :| 0 <= i < |fg| && fg[i] != "" && Within(canon(root), canon(fg[i]));
    KeepExactly(canon, NonEmpty(f), g, fg[i]);
    assert fg[i] in NonEmpty(f);
    var k :| 0 <= k < |NonEmpty(f)| && NonEmpty(f)[k] == fg[i];
    var m :| 0 <= m < |f| && f[m] == fg[i];
    assert Covered(canon, root, f);
    var j :| 0 <= j < |g| && g[j] != "" && Within(canon(fg[i]), canon(g[j]));
    assert Within(canon(root), canon(g[j]));
    KeepExactly(canon, roots, f, root);
    KeepExactly(canon, Keep(canon, roots, f), g, root);
  }

  /**
   Exactly which roots the two floors in turn keep and the combined floor drops: the covered
   ones that no root of the first floor contains and the second covers.
   */
  lemma CombinedFloorDropsIff(canon: string -> Canonical, roots: seq<string>, f: seq<string>, g: seq<string>, root: string)
    ensures (root in Keep(canon, Keep(canon, roots, f), g) && root !in Keep(canon, roots, Keep(canon, NonEmpty(f), g))) <==>
            (&& root in roots && Covered(canon, root, f) && Covered(canon, root, g)
             && (forall i :: 0 <= i < |f| && f[i] != "" && Within(canon(root), canon(f[i])) ==> !Covered(canon, f[i], g)))
  {
    KeepExactly(canon, roots, f, root);
    KeepExactly(canon, Keep(canon, roots, f), g, root);
    KeepExactly(canon, roots, Keep(canon, NonEmpty(f), g), root);
    CoveredByKept(canon, root, f, g);
  }

  lemma CoveredByKept(canon: string -> Canonical, root: string, f: seq<string>, g: seq<string>)
    ensures Covered(canon, root, Keep(canon, NonEmpty(f), g)) <==>
            exists i :: 0 <= i < |f| && f[i] != "" && Within(canon(root), canon(f[i])) && Covered(canon, f[i], g)
  {
    var fg := Keep(canon, NonEmpty(f), g);
    forall x ensures x in fg <==> x in f && x != "" && Covered(canon, x, g) {
      KeepExactly(canon, NonEmpty(f), g, x);
      NonEmptyExactly(f, x);
    }
    if i :| 0 <= i < |f| && f[i] != "" && Within(canon(root), canon(f[i])) && Covered(canon, f[i], g) {
      assert f[i] in fg;
    }
    if i :| 0 <= i < |fg| && fg[i] != "" && Within(canon(root), canon(fg[i])) {
      assert fg[i] in fg;
    }
  }

  predicate AdmitsRoot(canon: string -> Canonical, v: Visibility, root: string) {
    v.filesystem.FsHost? || Covered(canon, root, v.roots)
  }

  /** What a clamp to a floor keeps of the declared roots when the narrowed mode reads them. */
  lemma ClampedRoots(canon: string -> Canonical, d: Spec, f: Spec, root: string)
    requires Readable(Clamp(canon, d, f).visibility.filesystem)
    ensures root in Clamp(canon, d, f).visibility.roots <==>
            root in d.visibility.roots && root != "" && AdmitsRoot(canon, f.visibility, root)
  {
    NonEmptyExactly(d.visibility.roots, root);
    KeepExactly(canon, NonEmpty(d.visibility.roots), f.visibility.roots, root);
  }

  /**
   The same for whole specs: clamping to two floors in turn keeps a root that clamping to
   their combination drops exactly when both floors admit it, one of them is bounded, and no
   root of the first that contains it is admitted by the second.
   */
  lemma CombinedClampDropsIff(canon: string -> Canonical, d: Spec, f: Spec, g: Spec, root: string)
    requires Readable(Clamp(canon, Clamp(canon, d, f), g).visibility.filesystem)
    ensures (root in Clamp(canon, Clamp(canon, d, f), g).visibility.roots &&
             root !in Clamp(canon, d, Clamp(canon, f, g)).visibility.roots) <==>
            (&& root in d.visibility.roots && root != ""
             && AdmitsRoot(canon, f.visibility, root) && AdmitsRoot(canon, g.visibility, root)
             && !(f.visibility.filesystem.FsHost? && g.visibility.filesystem.FsHost?)
             && (forall i :: 0 <= i < |f.visibility.roots| && f.visibility.roots[i] != "" &&
                             Within(canon(root), canon(f.visibility.roots[i])) ==>
                             !AdmitsRoot(canon, g.visibility, f.visibility.roots[i])))
  {
    InTurnRoots(canon, d, f, g, root);
    CombinedRoots(canon, d, f, g, root);
  }

  lemma InTurnRoots(canon: string -> Canonical, d: Spec, f: Spec, g: Spec, root: string)
    requires Readable(Clamp(canon, Clamp(canon, d, f), g).visibility.filesystem)
    ensures root in Clamp(canon, Clamp(canon, d, f), g).visibility.roots <==>
            (&& root in d.visibility.roots && root != ""
             && AdmitsRoot(canon, f.visibility, root) && AdmitsRoot(canon, g.visibility, root))
  {
    ClampedRoots(canon, Clamp(canon, d, f), g, root);
    if Readable(Clamp(canon, d, f).visibility.filesystem) {
      ClampedRoots(canon, d, f, root);
    } else {
      NonEmptyExactly(d.visibility.roots, root);
    }
  }

  lemma CombinedRoots(canon: string -> Canonical, d: Spec, f: Spec, g: Spec, root: string)
    requires Readable(Clamp(canon, Clamp(canon, d, f), g).visibility.filesystem)
    ensures root in Clamp(canon, d, Clamp(canon, f, g)).visibility.roots <==>
            (&& root in d.visibility.roots && root != ""
             && ((f.visibility.filesystem.FsHost? && g.visibility.filesystem.FsHost?) ||
                 exists i :: 0 <= i < |f.visibility.roots| && f.visibility.roots[i] != "" &&
                             Within(canon(root), canon(f.visibility.roots[i])) &&
                             AdmitsRoot(canon, g.visibility, f.visibility.roots[i])))
  {
    ClampedRoots(canon, d, Clamp(canon, f, g), root);
    CoveredByClamped(canon, f, g, root);
  }

  lemma CoveredByClamped(canon: string -> Canonical, f: Spec, g: Spec, root: string)
    requires !Clamp(canon, f, g).visibility.filesystem.FsNone?
    ensures !(f.visibility.filesystem.FsHost? && g.visibility.filesystem.FsHost?) ==>
              (Covered(canon, root, Clamp(canon, f, g).visibility.roots) <==>
               exists i :: 0 <= i < |f.visibility.roots| && f.visibility.roots[i] != "" &&
                           Within(canon(root), canon(f.visibility.roots[i])) &&
                           AdmitsRoot(canon, g.visibility, f.visibility.roots[i]))
  {
    var fg, own := Clamp(canon, f, g).visibility.roots, f.visibility.roots;
    if Readable(Clamp(canon, f, g).visibility.filesystem) {
      forall x ensures x in fg <==> x in own && x != "" && AdmitsRoot(canon, g.visibility, x) { ClampedRoots(canon, f, g, x); }
      if i :| 0 <= i < |own| && own[i] != "" && Within(canon(root), canon(own[i])) && AdmitsRoot(canon, g.visibility, own[i]) {
        assert own[i] in fg;
      }
      if i :| 0 <= i < |fg| && fg[i] != "" && Within(canon(root), canon(fg[i])) {
        assert fg[i] in fg;
      }
    }
  }

  lemma RootsDoNotAssociate(canon: string -> Canonical)
    requires canon("/a") == ["a"] && canon("/a/b") == ["a", "b"]
    ensures Keep(canon, Keep(canon, ["/a/b"], ["/a"]), ["/a/b"]) == ["/a/b"]
    ensures Keep(canon, ["/a/b"], Keep(canon, ["/a"], ["/a/b"])) == []
  {
  }

  // ------------------------------------------------------------------ the guest

  /** NodusRuntime keyword arguments; None of allowedPaths is unrestricted access. */
  datatype VmArgs = VmArgs(
    allowedPaths: Option<seq<string>>,
    allowSubprocess: bool,
    allowNetwork: bool,
    allowEnv: bool,
    maxMemoryMb: Option<real>,
    writablePaths: Option<seq<string>>)

  const BYTES_PER_MB := 1048576.0

  function NodusArgs(spec: Spec, scratch: string): VmArgs {
    var v := spec.visibility;
    var declared := NonEmpty(v.roots);
    VmArgs(
      if v.filesystem.FsNone? then Some([])
      else if v.filesystem.FsHost? then None
      else Some(if declared == [] then [scratch] else declared),
      spec.authority.subprocess,
      !spec.authority.network.NetNone?,
      !v.env.EnvNone?,
      var m := spec.resources.memoryBytes;
      if m.Some? && m.value > 0 then Some(m.value as real / BYTES_PER_MB) else None,
      if v.filesystem.FsReadonly? then Some([]) else None)
  }

  /** What the VM is let do, axis by axis. */
  lemma VmGetsExactly(spec: Spec, scratch: string)
    ensures var (a, fs) := (NodusArgs(spec, scratch), spec.visibility.filesystem);
            && (a.allowedPaths == None <==> fs == FsHost)
            && (a.allowedPaths == Some([]) <==> fs == FsNone)
            && (a.writablePaths == Some([]) <==> fs == FsReadonly) && (a.writablePaths == None <==> fs != FsReadonly)
            && (a.allowNetwork <==> spec.authority.network in {NetScoped, NetOpen})
            && (a.allowEnv <==> spec.visibility.env in {EnvAllowlist, EnvInherit})
            && (a.allowSubprocess <==> spec.authority.subprocess)
  {
  }

  lemma VmMemoryExactly(spec: Spec, scratch: string)
    ensures var (m, bytes) := (NodusArgs(spec, scratch).maxMemoryMb, spec.resources.memoryBytes);
            && (m.Some? <==> bytes.Some? && bytes.value != 0)
            && (m.Some? ==> m.value * 1048576.0 == bytes.value as real)
  {
    if spec.resources.memoryBytes.Some? { Megabytes(spec.resources.memoryBytes.value as real); }
  }

  lemma Megabytes(x: real)
    ensures x / BYTES_PER_MB * 1048576.0 == x
  {
  }

  /** In a mode that reads its roots the VM sees the named roots, or the scratch root when none is named. */
  lemma VmSeesExactly(spec: Spec, scratch: string, path: string)
    requires Readable(spec.visibility.filesystem)
    ensures var (seen, roots) := (NodusArgs(spec, scratch).allowedPaths, spec.visibility.roots);
            seen.Some? && (path in seen.value <==>
              (path in roots && path != "") || (path == scratch && forall i :: 0 <= i < |roots| ==> roots[i] == ""))
  {
    var roots := spec.visibility.roots;
    NonEmptyExactly(roots, path);
    if NonEmpty(roots) == [] {
      forall i | 0 <= i < |roots| ensures roots[i] == "" { NonEmptyExactly(roots, roots[i]); }
    } else {
      var i :| 0 <= i < |roots| && roots[i] == NonEmpty(roots)[0];
      assert roots[i] != "";
    }
  }

  /** What a submitted script may never exceed; the operator may add a memory ceiling. */
  function GuestFloor(memory: Option<nat>): Spec {
    Spec(Visibility(FsScoped, [], EnvNone, []), Authority(NetNone, None, false),
         Resources(None, memory, None, None), InsecureDev)
  }

  /** Whatever a guest declares, its VM sees nothing or its scratch root alone, with network, subprocess and env off. */
  lemma GuestConfined(canon: string -> Canonical, d: Spec, memory: Option<nat>, scratch: string)
    ensures var a := NodusArgs(Clamp(canon, d, GuestFloor(memory)), scratch);
            && (a.allowedPaths == Some([]) || a.allowedPaths == Some([scratch]))
            && (a.allowedPaths == Some([]) <==> d.visibility.filesystem.FsNone?)
            && !a.allowSubprocess && !a.allowNetwork && !a.allowEnv
            && (a.writablePaths == Some([]) <==> d.visibility.filesystem.FsReadonly?)
  {
  }

  /**
   The operator's ceiling reaches the VM exactly when the guest does not declare a ceiling
   of zero: zero is the lowest ceiling to the clamp and no ceiling to the translation.
   */
  lemma MemoryCeilingInherited(canon: string -> Canonical, d: Spec, ceiling: nat, scratch: string)
    requires ceiling > 0
    ensures var a := NodusArgs(Clamp(canon, d, GuestFloor(Some(ceiling))), scratch);
            (a.maxMemoryMb.Some? && a.maxMemoryMb.value <= ceiling as real / BYTES_PER_MB) <==>
              d.resources.memoryBytes != Some(0)
  {
  }

  lemma ZeroDeclaredLosesTheCeiling(canon: string -> Canonical, d: Spec, ceiling: nat, scratch: string)
    requires d.resources.memoryBytes == Some(0)
    ensures NodusArgs(Clamp(canon, d, GuestFloor(Some(ceiling))), scratch).maxMemoryMb == None
  {
  }

  // ------------------------------------------------------------------ binding to the host

  /** None is ExecutionEnvironmentUnsatisfiable: the unit must not run. */
  function ResolveEnvironment(canon: string -> Canonical, d: Spec, f: Spec, host: Assurance): Option<Spec> {
    var effective := Clamp(canon, d, f);
    if AssuranceRank(host) < AssuranceRank(effective.minAssurance) then None else Some(effective)
  }

  /** The host is accepted exactly when it meets both minimums, and an unrecognised host meets no known one. */
  lemma AcceptedExactlyWhenMet(canon: string -> Canonical, d: Spec, f: Spec, host: Assurance)
    ensures ResolveEnvironment(canon, d, f, host).Some? <==>
              AssuranceRank(host) >= AssuranceRank(d.minAssurance) && AssuranceRank(host) >= AssuranceRank(f.minAssurance)
    ensures ResolveEnvironment(canon, d, f, host).Some? ==>
              var spec := ResolveEnvironment(canon, d, f, host).value;
              && Leq(spec, d) && Leq(spec, f) && spec == Clamp(canon, d, f)
    ensures host.Unrecognised? && !d.minAssurance.Unrecognised? ==> ResolveEnvironment(canon, d, f, host).None?
  {
  }
}
