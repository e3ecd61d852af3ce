/**
  PolicyRepository: who may be granted a delegated token, and what every later
  use of that token is checked against.  Statuses are kept as "is it ACTIVE".
 */
module Policy {
  import opened Base
  import opened Text
  import opened Tokens

  // ------------------------------------------------------------------ tables

  predicate Hex(c: char) {
    '0' <= c <= '9' || 'a' <= c <= 'f'
  }

  predicate HexGroup(s: string) {
    |s| == 4 && forall k :: 0 <= k < 4 ==> Hex(s[k])
  }

  predicate HexGroups(gs: seq<string>) {
    |gs| == 8 && forall k :: 0 <= k < 8 ==> HexGroup(gs[k])
  }

  /** The text PostgreSQL prints for a uuid, from its eight groups of four digits:
      hyphens stand after the second, third, fourth and fifth. */
  function UuidText(gs: seq<string>): string {
    if gs == [] then "" else gs[0] + (if 3 <= |gs| - 1 <= 6 then "-" else "") + UuidText(gs[1..])
  }

  ghost predicate CanonicalUuid(s: string) {
    exists gs :: HexGroups(gs) && UuidText(gs) == s
  }

  /** Reads n groups; a hyphen may stand between two of them. */
  function ReadGroups(s: string, n: nat): (r: Option<seq<string>>)
    ensures r.Some? ==> |r.value| == n && forall k :: 0 <= k < n ==> HexGroup(r.value[k])
  {
    if n == 0 then if s == "" then Some([]) else None
    else if |s| < 4 || !HexGroup(Lower(s[..4])) then None
    else
      var rest := if n > 1 && |s| > 4 && s[4] == '-' then s[5..] else s[4..];
      var groups := ReadGroups(rest, n - 1);
      if groups.None? then None else Some([Lower(s[..4])] + groups.value)
  }

  function Unbraced(s: string): string {
    if |s| >= 2 && s[0] == '{' && s[|s| - 1] == '}' then s[1..|s| - 1] else s
  }

  /** CAST(text AS uuid): either case, hyphens after any group or none, braces around
      it all; anything else is a database error. */
  function CastUuid(s: string): (r: Option<string>)
    ensures r.Some? ==> CanonicalUuid(r.value)
  {
    var groups := ReadGroups(Unbraced(s), 8);
    if groups.None? then None
    else
      assert HexGroups(groups.value);
      Some(UuidText(groups.value))
  }

  datatype Application = Application(clientId: string, tenant: string, product: string, active: bool)
  datatype Membership = Membership(tenant: string, subject: string, active: bool)
  datatype PolicyVersion = PolicyVersion(id: int, version: int, active: bool, effectiveFrom: int)
  datatype Entitlement = Entitlement(tenant: string, policyVersion: int, code: string, active: bool)
  datatype Lock = Lock(scopeType: string, scopeId: string, active: bool, expiresAt: Option<int>)
  datatype Revocation = Revocation(tokenId: string, expiresAt: int)

  datatype State = State(
    tenants: map<string, bool>, applications: set<Application>, memberships: set<Membership>,
    versions: set<PolicyVersion>, entitlements: set<Entitlement>, locks: set<Lock>, revocations: set<Revocation>)

  ghost predicate TypedTenants(st: State) {
    forall t :: t in st.tenants ==> CanonicalUuid(t)
  }

  datatype Verdict = Allowed | NoTenantBinding | NotEntitled | Locked | Revoked | DatabaseError

  type Grant = (string, int)

  // ------------------------------------------------------------- entitlement

  predicate TenantActive(st: State, tenant: string) {
    tenant in st.tenants && st.tenants[tenant]
  }

  predicate InForce(st: State, pv: PolicyVersion, tenant: string, now: int) {
    pv in st.versions && pv.active && pv.effectiveFrom <= now
    && Entitlement(tenant, pv.id, "LENS_ACCESS", true) in st.entitlements
  }

  predicate Enrolled(st: State, client: string, tenant: string, subject: string) {
    && Application(client, tenant, "LENS", true) in st.applications
    && TenantActive(st, tenant) && Membership(tenant, subject, true) in st.memberships
  }

  /** The join that enforcement asks for. */
  predicate Entitled(st: State, client: string, tenant: string, subject: string, version: int, now: int) {
    Enrolled(st, client, tenant, subject)
    && exists pv :: pv in st.versions && pv.version == version && InForce(st, pv, tenant, now)
  }

  /** The rows of the join that granting asks for: tenant and policy version. */
  function GrantRows(st: State, client: string, subject: string, now: int): set<Grant> {
    set a, pv | a in st.applications && pv in st.versions && a.clientId == client && a.product == "LENS" && a.active
                && TenantActive(st, a.tenant) && Membership(a.tenant, subject, true) in st.memberships
                && InForce(st, pv, a.tenant, now)
      :: (a.tenant, pv.version)
  }

  /** The grant query and the enforcement query join the same rows. */
  lemma GrantRowsAreTheEntitlements(st: State, client: string, subject: string, now: int, g: Grant)
    ensures g in GrantRows(st, client, subject, now) <==> Entitled(st, client, g.0, subject, g.1, now)
  {
    if Entitled(st, client, g.0, subject, g.1, now) {
      var a := Application(client, g.0, "LENS", true);
      var pv :| pv in st.versions && pv.version == g.1 && InForce(st, pv, g.0, now);
      assert a in st.applications && (a.tenant, pv.version) == g;
    }
  }

  // ------------------------------------------------------------------- locks

  predicate LockHolds(l: Lock, now: int) {
    l.active && (l.expiresAt.None? || l.expiresAt.value > now)
  }

  /** The scope pairs a check looks at; an empty identifier is skipped. */
  function Targets(tenant: string, client: string, subject: string, tokenId: string): set<(string, string)> {
    set p | p in {("GLOBAL", "*"), ("TENANT", tenant), ("APPLICATION", client), ("SUBJECT", subject),
                  ("CREDENTIAL", tokenId)}
            && p.1 != ""
  }

  predicate LockedOut(st: State, targets: set<(string, string)>, now: int) {
    exists l :: l in st.locks && LockHolds(l, now) && (l.scopeType, l.scopeId) in targets
  }

  predicate RevokedToken(st: State, tokenId: string, now: int) {
    tokenId != "" && exists r :: r in st.revocations && r.tokenId == tokenId && r.expiresAt > now
  }

  function LockCheck(st: State, tenant: string, client: string, subject: string, tokenId: string, now: int): Verdict {
    if LockedOut(st, Targets(tenant, client, subject, tokenId), now) then Locked
    else if RevokedToken(st, tokenId, now) then Revoked
    else Allowed
  }

  /** One disjunct of the generated lock query, by its two parameter names. */
  datatype Clause = Clause(typeParam: string, idParam: string)

  function TypeParam(index: nat): string { "scope_type_" + Decimal(index) }
  function IdParam(index: nat): string { "scope_id_" + Decimal(index) }

  predicate Bound(params: map<string, string>, c: Clause) {
    c.typeParam in params && c.idParam in params
  }

  predicate Satisfies(l: Lock, c: Clause, params: map<string, string>)
    requires Bound(params, c)
  {
    l.scopeType == params[c.typeParam] && l.scopeId == params[c.idParam]
  }

  lemma ParamNamesAreDistinct(i: nat, j: nat)
    ensures TypeParam(i) != IdParam(j)
    ensures i != j ==> TypeParam(i) != TypeParam(j) && IdParam(i) != IdParam(j)
  {
    DecimalIsInjective(i, j);
    assert TypeParam(i)[6] == 't' && IdParam(j)[6] == 'i';
    assert TypeParam(i)[|"scope_type_"|..] == Decimal(i) && TypeParam(j)[|"scope_type_"|..] == Decimal(j);
    assert IdParam(i)[|"scope_id_"|..] == Decimal(i) && IdParam(j)[|"scope_id_"|..] == Decimal(j);
  }

  function NonEmpty(scopes: seq<(string, string)>): (r: seq<(string, string)>)
    ensures forall p :: p in r <==> p in scopes && p.1 != ""
  {
    if scopes == [] then []
    else if scopes[0].1 != "" then [scopes[0]] + NonEmpty(scopes[1..])
    else NonEmpty(scopes[1..])
  }

  /** The generated parameters say exactly what the pairs say: every name is bound
      and none is overwritten by a later one. */
  ghost predicate ParamsAre(params: map<string, string>, pairs: seq<(string, string)>, n: nat)
    requires n <= |pairs|
  {
    forall k :: 0 <= k < n ==> ParamIs(params, pairs, k)
  }

  ghost predicate ParamIs(params: map<string, string>, pairs: seq<(string, string)>, k: nat)
    requires k < |pairs|
  {
    && TypeParam(k) in params && params[TypeParam(k)] == pairs[k].0
    && IdParam(k) in params && params[IdParam(k)] == pairs[k].1
  }

  lemma BindingKeepsEarlier(params: map<string, string>, pairs: seq<(string, string)>, n: nat)
    requires n < |pairs| && ParamsAre(params, pairs, n)
    ensures ParamsAre(params[TypeParam(n) := pairs[n].0][IdParam(n) := pairs[n].1], pairs, n + 1)
  {
    var params' := params[TypeParam(n) := pairs[n].0][IdParam(n) := pairs[n].1];
    forall k | 0 <= k < n + 1 ensures ParamIs(params', pairs, k) {
      ParamNamesAreDistinct(k, n);
      ParamNamesAreDistinct(n, k);
      if k < n {
        assert ParamIs(params, pairs, k);
      }
    }
  }

  /** One disjunct per pair, and the parameters the disjuncts name. */
  method BuildLockQuery(pairs: seq<(string, string)>) returns (clauses: seq<Clause>, params: map<string, string>)
    ensures ClausesFor(clauses, |pairs|) && ParamsAre(params, pairs, |pairs|)
  {
    clauses := [];
    for index := 0 to |pairs|
      invariant ClausesFor(clauses, index)
    {
      clauses := clauses + [Clause(TypeParam(index), IdParam(index))];
    }
    params := map[];
    for index := 0 to |pairs|
      invariant ParamsAre(params, pairs, index)
    {
      BindingKeepsEarlier(params, pairs, index);
      params := params[TypeParam(index) := pairs[index].0][IdParam(index) := pairs[index].1];
    }
  }

  ghost predicate ClausesFor(clauses: seq<Clause>, n: nat) {
    |clauses| == n && forall k :: 0 <= k < n ==> clauses[k] == Clause(TypeParam(k), IdParam(k))
  }

  /** The generated disjunction; a name without a parameter would be a database error. */
  predicate AnyClause(l: Lock, clauses: seq<Clause>, params: map<string, string>) {
    exists k :: 0 <= k < |clauses| && Bound(params, clauses[k]) && Satisfies(l, clauses[k], params)
  }

  /** The generated query matches a lock exactly when its pair is one of the pairs. */
  lemma ClausesMeanPairs(l: Lock, clauses: seq<Clause>, params: map<string, string>, pairs: seq<(string, string)>)
    requires ClausesFor(clauses, |pairs|) && ParamsAre(params, pairs, |pairs|)
    ensures forall k :: 0 <= k < |clauses| ==> Bound(params, clauses[k])
    ensures AnyClause(l, clauses, params) <==> (l.scopeType, l.scopeId) in pairs
  {
    var target := (l.scopeType, l.scopeId);
    forall k | 0 <= k < |clauses|
      ensures Bound(params, clauses[k]) && (Satisfies(l, clauses[k], params) <==> pairs[k] == target)
    {
      assert ParamIs(params, pairs, k);
    }
    if target in pairs {
      var k :| 0 <= k < |pairs| && pairs[k] == target;
      assert Satisfies(l, clauses[k], params);
    }
  }

  function ScopePairs(tenant: string, client: string, subject: string, tokenId: string): seq<(string, string)> {
    NonEmpty([("GLOBAL", "*"), ("TENANT", tenant), ("APPLICATION", client), ("SUBJECT", subject),
              ("CREDENTIAL", tokenId)])
  }

  lemma ScopePairsAreTargets(p: (string, string), tenant: string, client: string, subject: string, tokenId: string)
    ensures p in ScopePairs(tenant, client, subject, tokenId) <==> p in Targets(tenant, client, subject, tokenId)
  {
  }

  /** _assert_not_locked.  The pairs are never empty: the first is always there. */
  method AssertNotLocked(st: State, tenant: string, client: string, subject: string, tokenId: string, now: int)
    returns (verdict: Verdict)
    ensures verdict == LockCheck(st, tenant, client, subject, tokenId, now)
    ensures verdict == Locked <==>
      exists l :: l in st.locks && l.active && (l.expiresAt.None? || now < l.expiresAt.value)
                  && (l.scopeType, l.scopeId) in Targets(tenant, client, subject, tokenId)
  {
    var pairs := ScopePairs(tenant, client, subject, tokenId);
    var clauses, params := BuildLockQuery(pairs);
    forall l: Lock
      ensures AnyClause(l, clauses, params) <==> (l.scopeType, l.scopeId) in Targets(tenant, client, subject, tokenId)
    {
      ClausesMeanPairs(l, clauses, params, pairs);
      ScopePairsAreTargets((l.scopeType, l.scopeId), tenant, client, subject, tokenId);
    }
    if exists l :: l in st.locks && LockHolds(l, now) && AnyClause(l, clauses, params) {
      return Locked;
    }
    if RevokedToken(st, tokenId, now) {
      return Revoked;
    }
    return Allowed;
  }

  // ----------------------------------------------------- granting, enforcing

  /** What enforcement decides when no statement fails. */
  function Decide(st: State, p: Principal, now: int): Verdict {
    if p.delegated then
      if p.tenant == "" || p.clientId == "" || p.policyVersion.None? then NoTenantBinding
      else match CastUuid(p.tenant)
        case None => DatabaseError
        case Some(tenant) =>
          if !Entitled(st, p.clientId, tenant, p.subject, p.policyVersion.value, now) then NotEntitled
          else LockCheck(st, p.tenant, p.clientId, p.subject, p.tokenId, now)
    else if p.service && p.clientId != "" then LockCheck(st, "", p.clientId, "", p.tokenId, now)
    else Allowed
  }

  /** enforce_policy: `fault` is a statement of the check failing, which fails closed. */
  method Enforce(st: State, p: Principal, now: int, fault: bool) returns (verdict: Verdict)
    ensures !fault ==> verdict == Decide(st, p, now)
    ensures fault && p.delegated ==>
      verdict == if p.tenant == "" || p.clientId == "" || p.policyVersion.None? then NoTenantBinding else DatabaseError
    ensures fault && !p.delegated ==> verdict == if p.service && p.clientId != "" then DatabaseError else Allowed
  {
    if p.delegated {
      if p.tenant == "" || p.clientId == "" || p.policyVersion.None? {
        return NoTenantBinding;
      }
      var tenant := CastUuid(p.tenant);
      if fault || tenant.None? {
        return DatabaseError;
      }
      if !Entitled(st, p.clientId, tenant.value, p.subject, p.policyVersion.value, now) {
        return NotEntitled;
      }
      verdict := AssertNotLocked(st, p.tenant, p.clientId, p.subject, p.tokenId, now);
      return verdict;
    }
    if p.service && p.clientId != "" {
      if fault {
        return DatabaseError;
      }
      verdict := AssertNotLocked(st, "", p.clientId, "", p.tokenId, now);
      return verdict;
    }
    return Allowed;
  }

  // ------------------------------------- what the tables say, field by field

  /** The tenant, the application and the membership are active, and the policy version
      is active, effective and entitled to Lens. */
  ghost predicate Qualified(st: State, client: string, tenant: string, subject: string, version: int, now: int) {
    && tenant in st.tenants && st.tenants[tenant]
    && Application(client, tenant, "LENS", true) in st.applications
    && Membership(tenant, subject, true) in st.memberships
    && exists pv :: pv in st.versions && pv.version == version && pv.active && pv.effectiveFrom <= now
                    && Entitlement(tenant, pv.id, "LENS_ACCESS", true) in st.entitlements
  }

  /** The pairs the check of a principal looks at. */
  function TargetsOf(p: Principal): set<(string, string)> {
    if p.delegated then Targets(p.tenant, p.clientId, p.subject, p.tokenId) else Targets("", p.clientId, "", p.tokenId)
  }

  /** The lock names the principal: everybody, or its tenant, application, subject or
      credential; of a service only the application and the credential count. */
  predicate Names(l: Lock, p: Principal) {
    || (l.scopeType == "GLOBAL" && l.scopeId == "*")
    || (l.scopeType == "APPLICATION" && l.scopeId == p.clientId != "")
    || (l.scopeType == "CREDENTIAL" && l.scopeId == p.tokenId != "")
    || (p.delegated && l.scopeType == "TENANT" && l.scopeId == p.tenant != "")
    || (p.delegated && l.scopeType == "SUBJECT" && l.scopeId == p.subject != "")
  }

  lemma NamesIsTargeted(l: Lock, p: Principal)
    ensures Names(l, p) <==> (l.scopeType, l.scopeId) in TargetsOf(p)
  {
  }

  /** Neither a lock in force nor a revocation in force stands against the principal. */
  ghost predicate Unhindered(st: State, p: Principal, now: int) {
    && (forall l :: l in st.locks && l.active && Names(l, p) ==> l.expiresAt.Some? && l.expiresAt.value <= now)
    && (forall r :: r in st.revocations && r.tokenId == p.tokenId != "" ==> r.expiresAt <= now)
  }

  lemma CheckIsUnhindered(st: State, p: Principal, now: int)
    ensures LockedOut(st, TargetsOf(p), now) <==>
      exists l :: l in st.locks && l.active && Names(l, p) && (l.expiresAt.None? || now < l.expiresAt.value)
    ensures !LockedOut(st, TargetsOf(p), now) && !RevokedToken(st, p.tokenId, now) <==> Unhindered(st, p, now)
  {
    forall l: Lock ensures Names(l, p) <==> (l.scopeType, l.scopeId) in TargetsOf(p) {
      NamesIsTargeted(l, p);
    }
  }

  lemma RowsAreQualified(st: State, client: string, subject: string, now: int, g: Grant)
    ensures g in GrantRows(st, client, subject, now) <==> Qualified(st, client, g.0, subject, g.1, now)
  {
    GrantRowsAreTheEntitlements(st, client, subject, now, g);
    if Entitled(st, client, g.0, subject, g.1, now) {
      var pv :| pv in st.versions && pv.version == g.1 && InForce(st, pv, g.0, now);
      assert pv.active && Entitlement(g.0, pv.id, "LENS_ACCESS", true) in st.entitlements;
    }
    if Qualified(st, client, g.0, subject, g.1, now) {
      var pv :| pv in st.versions && pv.version == g.1 && pv.active && pv.effectiveFrom <= now
                && Entitlement(g.0, pv.id, "LENS_ACCESS", true) in st.entitlements;
      assert InForce(st, pv, g.0, now);
    }
  }

  /** The user a client asks to act for, under a granted version; no token yet. */
  function Delegate(client: string, subject: string, g: Grant): Principal {
    Principal(subject, false, {}, client, g.0, "LENS", "", Some(g.1), true)
  }

  ghost predicate NewestQualified(st: State, client: string, subject: string, g: Grant, now: int) {
    && Qualified(st, client, g.0, subject, g.1, now)
    && forall t, v :: Qualified(st, client, t, subject, v, now) ==> v <= g.1
  }

  ghost predicate Newest(rows: set<Grant>, g: Grant) {
    g in rows && forall r :: r in rows ==> r.1 <= g.1
  }

  lemma {:induction false} SomeRowIsNewest(rows: set<Grant>)
    requires rows != {}
    ensures exists g :: Newest(rows, g)
    decreases |rows|
  {
    var r :| r in rows;
    var rest := rows - {r};
    if rest == {} {
      assert rows == {r};
      assert Newest(rows, r);
    } else {
      SomeRowIsNewest(rest);
      var g :| Newest(rest, g);
      var best := if g.1 < r.1 then r else g;
      assert Newest(rows, best);
    }
  }

  /** Grants the newest entitled version, unless a lock stands in the way. */
  method GrantLensDelegation(st: State, client: string, subject: string, now: int)
    returns (grant: Result<Grant, Verdict>)
    ensures grant.Ok? ==> GrantOk(st, client, subject, now, grant.value)
    ensures grant.Err? ==> grant.error in {NotEntitled, Locked}
    ensures grant == Err(NotEntitled) <==> forall t, v :: !Qualified(st, client, t, subject, v, now)
    ensures grant == Err(Locked) ==>
      exists g, l :: NewestQualified(st, client, subject, g, now) && l in st.locks && l.active
                     && Names(l, Delegate(client, subject, g)) && (l.expiresAt.None? || now < l.expiresAt.value)
    ensures grant.Ok? ==> NewestQualified(st, client, subject, grant.value, now)
                          && Unhindered(st, Delegate(client, subject, grant.value), now)
  {
    var rows := GrantRows(st, client, subject, now);
    forall t, v ensures (t, v) in rows <==> Qualified(st, client, t, subject, v, now) {
      RowsAreQualified(st, client, subject, now, (t, v));
    }
    if rows == {} {
      return Err(NotEntitled);
    }
    SomeRowIsNewest(rows);
    var row: Grant :| row in rows && forall r :: r in rows ==> r.1 <= row.1;
    assert Newest(rows, row) && NewestQualified(st, client, subject, row, now);
    CheckIsUnhindered(st, Delegate(client, subject, row), now);
    var verdict := AssertNotLocked(st, row.0, client, subject, "", now);
    if verdict != Allowed {
      return Err(Locked);
    }
    return Ok(row);
  }

  ghost predicate GrantOk(st: State, client: string, subject: string, now: int, g: Grant) {
    Newest(GrantRows(st, client, subject, now), g) && !LockedOut(st, Targets(g.0, client, subject, ""), now)
  }

  // -------------------------------------------------------------- properties

  /** No lock and no revocation names the token. */
  ghost predicate FreshToken(st: State, jti: string) {
    (forall l :: l in st.locks ==> !(l.scopeType == "CREDENTIAL" && l.scopeId == jti))
    && (forall r :: r in st.revocations ==> r.tokenId != jti)
  }

  lemma ReadOneGroup(g: string, hyphen: bool, tail: string, n: nat)
    requires HexGroup(g) && (hyphen ==> n > 0) && (tail == "" || tail[0] != '-')
    ensures var read := ReadGroups(tail, n);
      ReadGroups(g + (if hyphen then "-" else "") + tail, n + 1) == if read.None? then None else Some([g] + read.value)
  {
    var s := g + (if hyphen then "-" else "") + tail;
    forall k | 0 <= k < 4 ensures LowerChar(g[k]) == g[k] {
      assert Hex(g[k]);
    }
    assert s[..4] == g && Lower(g) == g;
    if hyphen {
      assert s[4] == '-' && s[5..] == tail;
    } else {
      assert s[4..] == tail && (tail != "" ==> s[4] == tail[0]);
    }
  }

  lemma {:induction false} PrintedEnds(gs: seq<string>)
    requires gs != [] && forall k :: 0 <= k < |gs| ==> HexGroup(gs[k])
    ensures var t := UuidText(gs); t != "" && Hex(t[0]) && Hex(t[|t| - 1])
  {
    assert HexGroup(gs[0]) && Hex(gs[0][0]) && Hex(gs[0][3]);
    if |gs| == 1 {
      assert UuidText(gs[1..]) == "";
      assert UuidText(gs) == gs[0];
    } else {
      PrintedEnds(gs[1..]);
      assert UuidText(gs)[0] == gs[0][0];
    }
  }

  lemma PrintOneGroup(g: string, rest: seq<string>)
    ensures UuidText([g] + rest) == g + (if 3 <= |rest| <= 6 then "-" else "") + UuidText(rest)
  {
    assert ([g] + rest)[1..] == rest;
  }

  lemma OneMoreIsRead(g: string, rest: seq<string>, tail: string)
    requires HexGroup(g) && tail == UuidText(rest) && (tail == "" || tail[0] != '-')
    requires ReadGroups(tail, |rest|) == Some(rest)
    ensures ReadGroups(UuidText([g] + rest), |rest| + 1) == Some([g] + rest)
  {
    ReadOneGroup(g, 3 <= |rest| <= 6, tail, |rest|);
    PrintOneGroup(g, rest);
  }

  lemma {:induction false} PrintedIsRead(gs: seq<string>)
    requires forall k :: 0 <= k < |gs| ==> HexGroup(gs[k])
    ensures ReadGroups(UuidText(gs), |gs|) == Some(gs)
  {
    if gs == [] {
    } else {
      var rest := gs[1..];
      PrintedIsRead(rest);
      if rest != [] {
        PrintedEnds(rest);
      }
      OneMoreIsRead(gs[0], rest, UuidText(rest));
      assert gs == [gs[0]] + rest;
    }
  }

  /** The text spells the groups, in either case; a hyphen may stand between two. */
  predicate Spells(s: string, gs: seq<string>)
    decreases |gs|
  {
    if gs == [] then s == ""
    else
      && |s| >= 4 && Lower(s[..4]) == gs[0]
      && (Spells(s[4..], gs[1..]) || (|gs| > 1 && |s| > 4 && s[4] == '-' && Spells(s[5..], gs[1..])))
  }

  lemma {:induction false} ReadGroupsIff(s: string, gs: seq<string>)
    requires forall k :: 0 <= k < |gs| ==> HexGroup(gs[k])
    ensures ReadGroups(s, |gs|) == Some(gs) <==> Spells(s, gs)
    decreases |gs|
  {
    if gs == [] {
    } else if |s| >= 4 && Lower(s[..4]) == gs[0] {
      var rest := gs[1..];
      assert [gs[0]] + rest == gs;
      ReadGroupsIff(s[4..], rest);
      if |s| > 4 && s[4] == '-' {
        ReadGroupsIff(s[5..], rest);
        NoHyphenStartsAGroup(s[4..], rest);
      }
    }
  }

  lemma NoHyphenStartsAGroup(s: string, gs: seq<string>)
    requires s != "" && s[0] == '-' && forall k :: 0 <= k < |gs| ==> HexGroup(gs[k])
    ensures !Spells(s, gs)
  {
    if gs != [] && |s| >= 4 {
      assert Lower(s[..4])[0] == '-' && HexGroup(gs[0]) && Hex(gs[0][0]);
    }
  }

  lemma CastReadsOnlySpellings(s: string)
    requires CastUuid(s).Some?
    ensures exists gs :: HexGroups(gs) && UuidText(gs) == CastUuid(s).value && Spells(Unbraced(s), gs)
  {
    var gs := ReadGroups(Unbraced(s), 8).value;
    assert HexGroups(gs);
    ReadGroupsIff(Unbraced(s), gs);
  }

  lemma CastReadsEverySpelling(s: string, gs: seq<string>)
    requires HexGroups(gs) && Spells(Unbraced(s), gs)
    ensures CastUuid(s) == Some(UuidText(gs))
  {
    ReadGroupsIff(Unbraced(s), gs);
  }

  lemma HexIsSixteenDigits(c: char)
    ensures Hex(c) <==> c in "0123456789abcdef"
  {
    var digits := "0123456789abcdef";
    if '0' <= c <= '9' {
      assert digits[c as int - '0' as int] == c;
    } else if 'a' <= c <= 'f' {
      assert digits[10 + c as int - 'a' as int] == c;
    }
  }

  /** Braces around a spelling make no difference. */
  lemma BracesGo(s: string)
    requires s == "" || s[0] != '{'
    ensures CastUuid("{" + s + "}") == CastUuid(s)
  {
    assert Unbraced("{" + s + "}") == s;
  }

  /** The cast reads exactly the spellings of a uuid, with or without braces around. */
  lemma CastReadsSpellings(s: string, u: string)
    ensures CastUuid(s) == Some(u) <==> exists gs :: HexGroups(gs) && UuidText(gs) == u && Spells(Unbraced(s), gs)
  {
    if gs :| HexGroups(gs) && UuidText(gs) == u && Spells(Unbraced(s), gs) {
      CastReadsEverySpelling(s, gs);
    }
    if CastUuid(s) == Some(u) {
      CastReadsOnlySpellings(s);
    }
  }

  /** What is printed for a uuid is read back as it is. */
  lemma CanonicalIsItself(t: string)
    requires CanonicalUuid(t)
    ensures CastUuid(t) == Some(t) && t != "" && Stripped(t)
  {
    var gs :| HexGroups(gs) && UuidText(gs) == t;
    PrintedIsRead(gs);
    PrintedEnds(gs);
  }

  /** Whoever is granted a delegation passes enforcement with it, in that same state. */
  lemma GrantedPrincipalIsAllowed(st: State, p: Principal, now: int, g: Grant)
    requires TypedTenants(st) && GrantOk(st, p.clientId, p.subject, now, g)
    requires p.delegated && p.clientId != "" && p.tenant == g.0 && p.policyVersion == Some(g.1)
    requires FreshToken(st, p.tokenId)
    ensures Decide(st, p, now) == Allowed
  {
    GrantRowsAreTheEntitlements(st, p.clientId, p.subject, now, g);
    CanonicalIsItself(g.0);
    var wide, narrow := Targets(g.0, p.clientId, p.subject, p.tokenId), Targets(g.0, p.clientId, p.subject, "");
    forall l | l in st.locks && LockHolds(l, now) ensures (l.scopeType, l.scopeId) !in wide {
      assert (l.scopeType, l.scopeId) !in narrow;
    }
  }

  /** Grant, mint, decode, enforce: nothing is lost on the way. */
  lemma GrantedTokenPassesEnforcement(st: State, s: Settings, client: string, subject: string, now: int, g: Grant,
                                      scopes: seq<string>, jti: string, minted: real, minutes: nat, at: real)
    requires TypedTenants(st) && GrantOk(st, client, subject, now, g) && FreshToken(st, jti)
    requires s.EffectiveSigningSecret() != "" && (s.requireIssAud ==> s.issuer != "" && s.audience != "")
    requires Usable(client) && Usable(subject) && Usable(jti)
    requires minted <= at < (minted + 60.0 * minutes as real).Floor as real
    ensures var token := MintDelegated(s, subject, client, g.0, "LENS", scopes, g.1, jti, minted, minutes);
      var seen := DecodeAccessToken(s, token, at);
      seen.Someone? && Decide(st, seen.principal, now) == Allowed
  {
    GrantRowsAreTheEntitlements(st, client, subject, now, g);
    CanonicalIsItself(g.0);
    MintedDelegatedTokenDecodes(s, subject, client, g.0, "LENS", scopes, g.1, jti, minted, minutes, at);
    var p := Principal(subject, false, ParseScopes(Join(scopes, ' ')), client, g.0, "LENS", jti, Some(g.1), true);
    GrantedPrincipalIsAllowed(st, p, now, g);
  }

  /** A delegated principal passes exactly when it is bound to an active tenant, the
      application and the membership there are active, its policy version is active,
      effective and entitled, and nothing stands against it. */
  lemma DelegatedAllowedIff(st: State, p: Principal, now: int)
    requires p.delegated
    ensures Decide(st, p, now) == Allowed <==>
      && p.tenant != "" && p.clientId != "" && p.policyVersion.Some? && CastUuid(p.tenant).Some?
      && Qualified(st, p.clientId, CastUuid(p.tenant).value, p.subject, p.policyVersion.value, now)
      && Unhindered(st, p, now)
  {
    CheckIsUnhindered(st, p, now);
  }

  /** A service principal with a client passes exactly when nothing stands against it;
      every other principal that is not delegated is not checked. */
  lemma ServiceAllowedIff(st: State, p: Principal, now: int)
    requires !p.delegated
    ensures Decide(st, p, now) == Allowed <==> (p.service && p.clientId != "" ==> Unhindered(st, p, now))
  {
    CheckIsUnhindered(st, p, now);
  }

  /** Which refusal it is: binding, then the identifier, then entitlement; a lock goes
      before a revocation. */
  lemma RefusalsAreOrdered(st: State, p: Principal, now: int)
    requires p.delegated || (p.service && p.clientId != "")
    ensures var verdict := Decide(st, p, now);
      && (verdict == NoTenantBinding <==> p.delegated && (p.tenant == "" || p.clientId == "" || p.policyVersion.None?))
      && (verdict == Locked ==>
            exists l :: l in st.locks && l.active && Names(l, p) && (l.expiresAt.None? || now < l.expiresAt.value))
      && (verdict == Revoked ==>
            && (exists r :: r in st.revocations && r.tokenId == p.tokenId != "" && now < r.expiresAt)
            && !exists l :: l in st.locks && l.active && Names(l, p) && (l.expiresAt.None? || now < l.expiresAt.value))
      && (verdict == DatabaseError <==>
            p.delegated && p.tenant != "" && p.clientId != "" && p.policyVersion.Some? && CastUuid(p.tenant).None?)
      && (verdict == NotEntitled <==>
            && p.delegated && p.tenant != "" && p.clientId != "" && p.policyVersion.Some? && CastUuid(p.tenant).Some?
            && !Qualified(st, p.clientId, CastUuid(p.tenant).value, p.subject, p.policyVersion.value, now))
  {
    CheckIsUnhindered(st, p, now);
  }

  /** Setting one more lock: while it is in force it shuts out exactly the principals
      it names; an inactive or expired one, or one that names somebody else, changes
      no verdict. */
  lemma LockShutsOutExactlyItsTargets(st: State, l: Lock, p: Principal, now: int)
    requires p.delegated || (p.service && p.clientId != "")
    ensures var before, after := Decide(st, p, now), Decide(st.(locks := st.locks + {l}), p, now);
      if l.active && Names(l, p) && (l.expiresAt.None? || now < l.expiresAt.value) then after != Allowed
      else after == before
  {
    var st' := st.(locks := st.locks + {l});
    forall client, tenant, subject, version ensures Entitled(st, client, tenant, subject, version, now)
                                                     == Entitled(st', client, tenant, subject, version, now) {
      SameEntitlement(st, st', client, tenant, subject, version, now);
    }
    assert l in st'.locks;
    CheckIsUnhindered(st, p, now);
    CheckIsUnhindered(st', p, now);
  }

  /** A lock with an end holds until then and no longer. */
  lemma LockEndsWhenItExpires(st: State, l: Lock, p: Principal, now: int)
    requires p.delegated || (p.service && p.clientId != "")
    requires l.active && l.expiresAt.Some? && Names(l, p) && Decide(st, p, now) == Allowed
    ensures Decide(st.(locks := st.locks + {l}), p, now) == Allowed <==> l.expiresAt.value <= now
  {
    LockShutsOutExactlyItsTargets(st, l, p, now);
  }

  lemma SameEntitlement(st: State, st': State, client: string, tenant: string, subject: string, version: int, now: int)
    requires st' == st.(locks := st'.locks)
    ensures Entitled(st, client, tenant, subject, version, now) == Entitled(st', client, tenant, subject, version, now)
  {
    forall pv: PolicyVersion ensures InForce(st, pv, tenant, now) == InForce(st', pv, tenant, now) {
    }
  }
}
