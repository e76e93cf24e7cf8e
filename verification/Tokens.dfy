/**
 Scoped execution tokens (AINDY/agents/capability_service.py): what a token's MAC covers,
 which tokens validate, and when a token admits a tool.

 The clock, the random token and the keyed MAC are parameters.  Times are seconds; any
 rendering of them that is injective and free of '|' would do for the one used here.
 */
module Tokens {
  import opened Common
  import opened Strings
  import opened Sorting
  import opened Capabilities

  const TOKEN_TTL_SECONDS := 24 * 3600

  datatype Token = Token(
    runId: string,
    userId: string,
    agentType: string,
    executionToken: string,
    issuedAt: int,
    expiresAt: int,
    grant: Grant,
    approvalMode: string,
    mac: string)

  datatype KeyRing = KeyRing(active: string, previous: seq<string>)

  /** Everything the MAC covers. */
  datatype Claims = Claims(
    runId: string, userId: string, executionToken: string, issuedAt: int, expiresAt: int,
    approvalMode: string, grant: Grant)

  function ClaimsOf(t: Token): Claims {
    Claims(t.runId, t.userId, t.executionToken, t.issuedAt, t.expiresAt, t.approvalMode, t.grant)
  }

  function Fields(c: Claims): seq<string> {
    [c.runId, c.userId, c.executionToken, Decimal(c.issuedAt), Decimal(c.expiresAt), c.approvalMode,
     Join(Sort(c.grant.tools), ','), Join(Sort(c.grant.caps), ',')]
  }

  function Payload(c: Claims): string { Join(Fields(c), '|') }

  type Mac = (string, string) -> string

  function AgentTypeOr(agentType: string): string {
    if agentType == "" then DEFAULT_AGENT_TYPE else agentType
  }

  /** A token on a fresh clock, signed with `key`. */
  function Issue(mac: Mac, key: string, now: int, nonce: string, runId: string, userId: string, agentType: string,
                 mode: string, grant: Grant): Token
  {
    var claims := Claims(runId, userId, nonce, now, now + TOKEN_TTL_SECONDS, mode, grant);
    Token(runId, userId, AgentTypeOr(agentType), nonce, now, now + TOKEN_TTL_SECONDS, grant, mode, mac(key, Payload(claims)))
  }

  function MintToken(reg: Registries, auto: set<string>, mac: Mac, key: string, now: int, nonce: string, q: Request): Option<Token> {
    match Grants(reg, auto, q)
    case None => None
    case Some(g) => Some(Issue(mac, key, now, nonce, q.runId, q.userId, q.agentType, q.mode, g))
  }

  /** The same grants on a fresh clock; None for a token without run or user. */
  function RefreshToken(mac: Mac, key: string, now: int, nonce: string, t: Token): Option<Token> {
    if t.runId == "" || t.userId == "" then None
    else
      Some(Issue(mac, key, now, nonce, t.runId, t.userId, t.agentType,
                 if t.approvalMode == "" then "manual" else t.approvalMode, t.grant))
  }

  // ------------------------------------------------------------------ validation

  datatype Refusal =
    | NoToken | RunMismatch | UserMismatch | NoExecutionToken | BadMode | Expired | MacMismatch
    | RunEnded | ToolNotGranted | CapabilityNotGranted(cap: string) | NoMapping

  datatype Validation = Refused(why: Refusal) | Valid(grant: Grant, agentType: string)

  /** What validation reads from a token's lists: the registered tools and the defined capabilities. */
  function Normalized(reg: Registries, g: Grant): Grant {
    Grant(SortedSet(Known(g.tools, reg.risks.Keys)), SortedSet(Known(g.caps, reg.definitions)))
  }

  predicate MacMatches(mac: Mac, ring: KeyRing, candidate: string, payload: string) {
    candidate == mac(ring.active, payload) ||
    exists i :: 0 <= i < |ring.previous| && candidate == mac(ring.previous[i], payload)
  }

  function ValidateToken(reg: Registries, mac: Mac, ring: KeyRing, now: int, token: Option<Token>,
                         runId: string, userId: string): Validation
  {
    match token
    case None => Refused(NoToken)
    case Some(t) =>
      var grant := Normalized(reg, t.grant);
      if t.runId != runId then Refused(RunMismatch)
      else if t.userId != userId then Refused(UserMismatch)
      else if t.executionToken == "" then Refused(NoExecutionToken)
      else if t.approvalMode != "manual" && t.approvalMode != "auto" then Refused(BadMode)
      else if t.expiresAt <= now then Refused(Expired)
      else if !MacMatches(mac, ring, t.mac, Payload(ClaimsOf(t).(grant := grant))) then Refused(MacMismatch)
      else Valid(grant, AgentTypeOr(t.agentType))
  }

  /** The first required capability the token does not allow. */
  function Missing(required: seq<string>, allowed: seq<string>): (r: Option<string>)
    ensures r.None? <==> forall c :: c in required ==> c in allowed
    ensures r.Some? ==> r.value in required && r.value !in allowed
  {
    if required == [] then None
    else if required[0] !in allowed then Some(required[0])
    else Missing(required[1..], allowed)
  }

  /** Whether a validated token covers a tool. */
  function Admit(reg: Registries, validation: Validation, tool: string): Validation {
    match validation
    case Refused(why) => Refused(why)
    case Valid(grant, agentType) =>
      var needed, agentNeeds := CapsForTool(reg, tool), CapsForAgent(reg, agentType);
      var missing, agentMissing := Missing(needed, grant.caps), Missing(agentNeeds, grant.caps);
      if tool !in grant.tools then Refused(ToolNotGranted)
      else if missing.Some? then Refused(CapabilityNotGranted(missing.value))
      else if agentMissing.Some? then Refused(CapabilityNotGranted(agentMissing.value))
      else if needed == [] && tool in reg.risks then Refused(NoMapping)
      else validation
  }

  /** `ended`: the run has reached a terminal status. */
  function CheckToolCapability(reg: Registries, mac: Mac, ring: KeyRing, now: int, ended: bool,
                               token: Option<Token>, runId: string, userId: string, tool: string): Validation
  {
    if ended then Refused(RunEnded)
    else Admit(reg, ValidateToken(reg, mac, ring, now, token, runId, userId), tool)
  }

  // ------------------------------------------------------------------ minted tokens validate

  lemma {:induction false} KnownAll(xs: seq<string>, names: set<string>)
    requires forall x :: x in xs ==> x in names
    ensures Known(xs, names) == xs
  {
    if xs != [] { KnownAll(xs[1..], names); }
  }

  lemma NormalizedFixed(reg: Registries, g: Grant)
    requires Normal(reg, g)
    ensures Normalized(reg, g) == g
  {
    KnownAll(g.tools, reg.risks.Keys);
    KnownAll(g.caps, reg.definitions);
    SortedSetFixed(g.tools);
    SortedSetFixed(g.caps);
  }

  /** The ring still holds the key. */
  predicate InGrace(ring: KeyRing, key: string) { key == ring.active || key in ring.previous }

  lemma IssuedValidates(reg: Registries, mac: Mac, key: string, ring: KeyRing, issued: int, now: int, nonce: string,
                        runId: string, userId: string, agentType: string, mode: string, grant: Grant)
    requires Normal(reg, grant) && InGrace(ring, key)
    requires nonce != "" && (mode == "manual" || mode == "auto") && now < issued + TOKEN_TTL_SECONDS
    ensures ValidateToken(reg, mac, ring, now, Some(Issue(mac, key, issued, nonce, runId, userId, agentType, mode, grant)), runId, userId)
            == Valid(grant, AgentTypeOr(agentType))
  {
    NormalizedFixed(reg, grant);
    var t := Issue(mac, key, issued, nonce, runId, userId, agentType, mode, grant);
    assert ClaimsOf(t) == ClaimsOf(t).(grant := grant);
    assert MacMatches(mac, ring, t.mac, Payload(ClaimsOf(t)));
  }

  /**
   A minted token validates for its run and user, with its grants, exactly until it expires,
   while the registries are unchanged and its key is in the grace window.
   */
  lemma MintedValidates(reg: Registries, auto: set<string>, mac: Mac, key: string, ring: KeyRing, issued: int, now: int,
                        nonce: string, q: Request)
    requires InGrace(ring, key) && nonce != "" && (q.mode == "manual" || q.mode == "auto")
    ensures MintToken(reg, auto, mac, key, issued, nonce, q).Some? ==>
              ValidateToken(reg, mac, ring, now, MintToken(reg, auto, mac, key, issued, nonce, q), q.runId, q.userId) ==
              if now < issued + TOKEN_TTL_SECONDS then Valid(Grants(reg, auto, q).value, AgentTypeOr(q.agentType))
              else Refused(Expired)
  {
    if Grants(reg, auto, q).Some? {
      GrantsNormal(reg, auto, q);
      if now < issued + TOKEN_TTL_SECONDS {
        IssuedValidates(reg, mac, key, ring, issued, now, nonce, q.runId, q.userId, q.agentType, q.mode, Grants(reg, auto, q).value);
      }
    }
  }

  /** A token a refresh can renew: every token minted for a run and a user in manual or auto mode, and every refresh of one. */
  ghost predicate Renewable(reg: Registries, t: Token) {
    Normal(reg, t.grant) && t.runId != "" && t.userId != "" && (t.approvalMode == "manual" || t.approvalMode == "auto")
  }

  lemma MintedRenewable(reg: Registries, auto: set<string>, mac: Mac, key: string, now: int, nonce: string, q: Request)
    requires q.runId != "" && q.userId != "" && (q.mode == "manual" || q.mode == "auto")
    ensures MintToken(reg, auto, mac, key, now, nonce, q).Some? ==> Renewable(reg, MintToken(reg, auto, mac, key, now, nonce, q).value)
  {
    if Grants(reg, auto, q).Some? { GrantsNormal(reg, auto, q); }
  }

  /** A refresh keeps run, user, mode and grants, validates with them until its own expiry, and can be refreshed in turn. */
  lemma RefreshedValidates(reg: Registries, mac: Mac, key: string, ring: KeyRing, issued: int, now: int, nonce: string, t: Token)
    requires Renewable(reg, t) && InGrace(ring, key) && nonce != ""
    ensures var r := RefreshToken(mac, key, issued, nonce, t);
            && r.Some? && Renewable(reg, r.value)
            && r.value.runId == t.runId && r.value.userId == t.userId && r.value.grant == t.grant
            && r.value.approvalMode == t.approvalMode
    ensures ValidateToken(reg, mac, ring, now, RefreshToken(mac, key, issued, nonce, t), t.runId, t.userId) ==
            if now < issued + TOKEN_TTL_SECONDS then Valid(t.grant, AgentTypeOr(t.agentType)) else Refused(Expired)
  {
    if now < issued + TOKEN_TTL_SECONDS {
      IssuedValidates(reg, mac, key, ring, issued, now, nonce, t.runId, t.userId, t.agentType, t.approvalMode, t.grant);
    }
  }

  /**
   A refresh is refused exactly for a token without run or user, and otherwise reissued for a
   day under its own mode, manual when it has none.
   */
  lemma RefreshIff(mac: Mac, key: string, now: int, nonce: string, t: Token)
    ensures var r := RefreshToken(mac, key, now, nonce, t);
            && (r.None? <==> t.runId == "" || t.userId == "")
            && (r.Some? ==>
                  && r.value.issuedAt == now && r.value.expiresAt == now + 86400 && r.value.executionToken == nonce
                  && r.value.runId == t.runId && r.value.userId == t.userId && r.value.grant == t.grant
                  && r.value.agentType == (if t.agentType == "" then "default" else t.agentType)
                  && r.value.approvalMode == (if t.approvalMode == "" then "manual" else t.approvalMode))
  {
  }

  // ------------------------------------------------------------------ what the MAC binds

  predicate CleanNames(xs: seq<string>) {
    forall i :: 0 <= i < |xs| ==> xs[i] != "" && ',' !in xs[i] && '|' !in xs[i]
  }

  predicate CleanClaims(c: Claims) {
    && '|' !in c.runId && '|' !in c.userId && '|' !in c.executionToken && '|' !in c.approvalMode
    && CleanNames(c.grant.tools) && CleanNames(c.grant.caps)
  }

  lemma {:induction false} JoinFree(parts: seq<string>, sep: char, c: char)
    requires c != sep && Free(parts, c)
    ensures c !in Join(parts, sep)
  {
    if |parts| > 1 { JoinFree(parts[1..], sep, c); }
  }

  lemma SortClean(xs: seq<string>)
    requires CleanNames(xs)
    ensures CleanNames(Sort(xs))
  {
    var s := Sort(xs);
    forall i | 0 <= i < |s| ensures s[i] in xs {
      InMultiset(s, s[i]);
      InMultiset(xs, s[i]);
    }
  }

  /** A comma-joined list of clean names determines the list. */
  lemma JoinedNamesEqual(a: seq<string>, b: seq<string>)
    requires CleanNames(a) && CleanNames(b) && Join(a, ',') == Join(b, ',')
    ensures a == b
  {
    if a != [] { SplitJoin(a, ','); }
    if b != [] { SplitJoin(b, ','); }
  }

  lemma DecimalFree(n: int)
    ensures '|' !in Decimal(n)
  {
    var d := Digits(if n < 0 then -n else n);
    assert '|' !in d;
  }

  lemma NamesFree(xs: seq<string>)
    requires CleanNames(xs)
    ensures '|' !in Join(Sort(xs), ',')
  {
    SortClean(xs);
    JoinFree(Sort(xs), ',', '|');
  }

  lemma FieldsFree(c: Claims)
    requires CleanClaims(c)
    ensures Free(Fields(c), '|')
  {
    DecimalFree(c.issuedAt);
    DecimalFree(c.expiresAt);
    NamesFree(c.grant.tools);
    NamesFree(c.grant.caps);
    EightFree(c.runId, c.userId, c.executionToken, Decimal(c.issuedAt), Decimal(c.expiresAt), c.approvalMode,
              Join(Sort(c.grant.tools), ','), Join(Sort(c.grant.caps), ','), '|');
  }

  lemma EightFree(a: string, b: string, c: string, d: string, e: string, f: string, g: string, h: string, sep: char)
    requires sep !in a && sep !in b && sep !in c && sep !in d && sep !in e && sep !in f && sep !in g && sep !in h
    ensures Free([a, b, c, d, e, f, g, h], sep)
  {
  }

  lemma SameNames(a: seq<string>, b: seq<string>)
    requires CleanNames(a) && CleanNames(b) && Join(Sort(a), ',') == Join(Sort(b), ',')
    ensures multiset(a) == multiset(b)
  {
    SortClean(a);
    SortClean(b);
    JoinedNamesEqual(Sort(a), Sort(b));
    SortEqualIff(a, b);
  }

  lemma FieldsEqual(a: Claims, b: Claims)
    requires CleanClaims(a) && CleanClaims(b) && Fields(a) == Fields(b)
    ensures a.(grant := b.grant) == b
    ensures SameGrant(a.grant, b.grant)
  {
    var x, y := Fields(a), Fields(b);
    assert x[0] == y[0] && x[1] == y[1] && x[2] == y[2] && x[5] == y[5];
    assert x[3] == y[3] && x[4] == y[4] && x[6] == y[6] && x[7] == y[7];
    ParseDecimal(a.issuedAt);
    ParseDecimal(b.issuedAt);
    ParseDecimal(a.expiresAt);
    ParseDecimal(b.expiresAt);
    SameNames(a.grant.tools, b.grant.tools);
    SameNames(a.grant.caps, b.grant.caps);
  }

  /** The serialization of clean claims determines them, up to the order of the two lists. */
  lemma PayloadInjective(a: Claims, b: Claims)
    requires CleanClaims(a) && CleanClaims(b) && Payload(a) == Payload(b)
    ensures a.(grant := b.grant) == b
    ensures SameGrant(a.grant, b.grant)
  {
    FieldsFree(a);
    FieldsFree(b);
    SplitJoin(Fields(a), '|');
    SplitJoin(Fields(b), '|');
    FieldsEqual(a, b);
  }

  ghost predicate SameGrant(a: Grant, b: Grant) {
    multiset(a.tools) == multiset(b.tools) && multiset(a.caps) == multiset(b.caps)
  }

  ghost predicate CollisionFree(mac: Mac) {
    forall k, p, k', p' :: mac(k, p) == mac(k', p') ==> k == k' && p == p'
  }

  lemma NormalizedClean(reg: Registries, g: Grant)
    requires CleanNames(g.tools) && CleanNames(g.caps)
    ensures CleanNames(Normalized(reg, g).tools) && CleanNames(Normalized(reg, g).caps)
  {
    var n := Normalized(reg, g);
    forall i | 0 <= i < |n.tools| ensures n.tools[i] in g.tools { assert n.tools[i] in n.tools; }
    forall i | 0 <= i < |n.caps| ensures n.caps[i] in g.caps { assert n.caps[i] in n.caps; }
  }

  lemma ValidToken(reg: Registries, mac: Mac, ring: KeyRing, now: int, t: Token, runId: string, userId: string)
    requires ValidateToken(reg, mac, ring, now, Some(t), runId, userId).Valid?
    ensures t.runId == runId && t.userId == userId && now < t.expiresAt
    ensures ValidateToken(reg, mac, ring, now, Some(t), runId, userId) == Valid(Normalized(reg, t.grant), AgentTypeOr(t.agentType))
    ensures exists key :: InGrace(ring, key) && t.mac == mac(key, Payload(ClaimsOf(t).(grant := Normalized(reg, t.grant))))
  {
  }

  /**
   With a collision-free MAC, a token that validates under the MAC of an issued token makes
   the issued token's claims: its scope, times, mode and lists are the ones that were signed.
   */
  lemma ValidatedClaimsAreIssued(reg: Registries, mac: Mac, key: string, ring: KeyRing, now: int, issued: Claims, t: Token,
                                 runId: string, userId: string)
    requires CollisionFree(mac) && t.mac == mac(key, Payload(issued))
    requires CleanClaims(issued) && CleanClaims(ClaimsOf(t))
    requires ValidateToken(reg, mac, ring, now, Some(t), runId, userId).Valid?
    ensures InGrace(ring, key) && issued.runId == runId && issued.userId == userId && now < issued.expiresAt
    ensures issued == ClaimsOf(t).(grant := issued.grant)
    ensures SameGrant(ValidateToken(reg, mac, ring, now, Some(t), runId, userId).grant, issued.grant)
  {
    var c := ClaimsOf(t).(grant := Normalized(reg, t.grant));
    NormalizedClean(reg, t.grant);
    ValidToken(reg, mac, ring, now, t, runId, userId);
    var k :| InGrace(ring, k) && t.mac == mac(k, Payload(c));
    assert k == key && Payload(c) == Payload(issued);
    PayloadInjective(c, issued);
  }

  // ------------------------------------------------------------------ what a token admits

  lemma AcceptedIff(reg: Registries, mac: Mac, ring: KeyRing, now: int, ended: bool, token: Option<Token>,
                    runId: string, userId: string, tool: string, grant: Grant, agentType: string)
    ensures CheckToolCapability(reg, mac, ring, now, ended, token, runId, userId, tool) == Valid(grant, agentType) <==>
            (&& !ended && ValidateToken(reg, mac, ring, now, token, runId, userId) == Valid(grant, agentType)
             && Exercisable(reg, grant, agentType, tool))
  {
  }

  /**
   The check admits on a minted token exactly the planned tools whose own and whose agent
   type's capabilities were all granted.
   */
  lemma MintedAdmits(reg: Registries, auto: set<string>, mac: Mac, key: string, ring: KeyRing, issued: int, now: int,
                     nonce: string, q: Request, tool: string)
    requires InGrace(ring, key) && nonce != "" && (q.mode == "manual" || q.mode == "auto") && now < issued + TOKEN_TTL_SECONDS
    ensures MintToken(reg, auto, mac, key, issued, nonce, q).Some? ==>
              (CheckToolCapability(reg, mac, ring, now, false, MintToken(reg, auto, mac, key, issued, nonce, q),
                                   q.runId, q.userId, tool).Valid? <==>
               (&& Some(tool) in q.plan
                && (q.ceiling.Some? ==> forall c :: c in CapsForTool(reg, tool) ==> c in q.ceiling.value)
                && Covers(Grants(reg, auto, q).value.caps, CapsForAgent(reg, AgentTypeOr(q.agentType)))))
  {
    if Grants(reg, auto, q).Some? {
      var g, agentType := Grants(reg, auto, q).value, AgentTypeOr(q.agentType);
      var token := MintToken(reg, auto, mac, key, issued, nonce, q);
      MintedValidates(reg, auto, mac, key, ring, issued, now, nonce, q);
      AcceptedIff(reg, mac, ring, now, false, token, q.runId, q.userId, tool, g, agentType);
      AcceptedIsValid(reg, mac, ring, now, token, q.runId, q.userId, tool, g, agentType);
      ToolExercisableIff(reg, auto, q, tool);
    }
  }

  lemma AcceptedIsValid(reg: Registries, mac: Mac, ring: KeyRing, now: int, token: Option<Token>,
                        runId: string, userId: string, tool: string, grant: Grant, agentType: string)
    requires ValidateToken(reg, mac, ring, now, token, runId, userId) == Valid(grant, agentType)
    ensures var r := CheckToolCapability(reg, mac, ring, now, false, token, runId, userId, tool);
            r.Valid? ==> r == Valid(grant, agentType)
  {
  }

  /** Without a ceiling a minted token admits exactly the tools of its plan. */
  lemma MintedAdmitsThePlan(reg: Registries, auto: set<string>, mac: Mac, key: string, ring: KeyRing, issued: int, now: int,
                            nonce: string, q: Request, tool: string)
    requires InGrace(ring, key) && nonce != "" && (q.mode == "manual" || q.mode == "auto") && now < issued + TOKEN_TTL_SECONDS
    requires q.ceiling.None? && q.agentType != ""
    ensures MintToken(reg, auto, mac, key, issued, nonce, q).Some? ==>
              (CheckToolCapability(reg, mac, ring, now, false, MintToken(reg, auto, mac, key, issued, nonce, q),
                                   q.runId, q.userId, tool).Valid? <==>
               Some(tool) in q.plan)
  {
    if Grants(reg, auto, q).Some? {
      MintedAdmits(reg, auto, mac, key, ring, issued, now, nonce, q, tool);
      AgentCovered(reg, auto, q);
    }
  }

  /** What an accepted tool needs is on the token itself. */
  lemma AcceptedMeansGranted(reg: Registries, mac: Mac, ring: KeyRing, now: int, ended: bool, t: Token,
                             runId: string, userId: string, tool: string, cap: string)
    requires cap in CapsForTool(reg, tool)
    ensures CheckToolCapability(reg, mac, ring, now, ended, Some(t), runId, userId, tool).Valid? ==> cap in t.grant.caps
  {
    var grant, agentType := Normalized(reg, t.grant), AgentTypeOr(t.agentType);
    if CheckToolCapability(reg, mac, ring, now, ended, Some(t), runId, userId, tool).Valid? {
      ValidToken(reg, mac, ring, now, t, runId, userId);
      AcceptedIsValid(reg, mac, ring, now, Some(t), runId, userId, tool, grant, agentType);
      AcceptedIff(reg, mac, ring, now, ended, Some(t), runId, userId, tool, grant, agentType);
    }
  }
}
