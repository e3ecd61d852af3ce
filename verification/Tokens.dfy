/**
  Access tokens: minting, the verification loop over candidate keys, and the
  principal a route sees.  A signature is idealised: a token verifies under
  exactly the key that signed it.
 */
module Tokens {
  import opened Base
  import opened Text
  import opened Scopes

  datatype Claims = Claims(
    sub: string, clientId: string, tokenUse: string, scope: string, iat: int, exp: int, iss: string, aud: string,
    tenant: string, product: string, jti: string, policyVersion: Option<int>)

  datatype Token = Signed(key: string, claims: Claims)

  datatype Settings = Settings(
    jwtSecret: string, signingCurrent: Option<string>, signingPrevious: Option<string>,
    issuer: string, audience: string, requireIssAud: bool)
  {
    function EffectiveSigningSecret(): string {
      if signingCurrent.Some? && signingCurrent.value != "" then signingCurrent.value else jwtSecret
    }

    /** Current, then previous. */
    function VerifySecrets(): seq<string> {
      var current := EffectiveSigningSecret();
      if signingPrevious.Some? && signingPrevious.value != "" && signingPrevious.value != current
      then [current, signingPrevious.value]
      else [current]
    }
  }

  datatype Principal = Principal(subject: string, service: bool, scopes: set<string>, clientId: string,
                                 tenant: string, product: string, tokenId: string, policyVersion: Option<int>,
                                 delegated: bool)

  // ------------------------------------------------------------------ minting

  function ServiceClaims(s: Settings, subject: string, clientId: string, scopes: seq<string>, now: real,
                         minutes: nat): Claims
  {
    Claims(subject, clientId, "service", Join(scopes, ' '), now.Floor, (now + 60.0 * minutes as real).Floor,
           s.issuer, s.audience, "", "", "", None)
  }

  function MintService(s: Settings, subject: string, clientId: string, scopes: seq<string>, now: real,
                       minutes: nat): Token
  {
    Signed(s.EffectiveSigningSecret(), ServiceClaims(s, subject, clientId, scopes, now, minutes))
  }

  function MintDelegated(s: Settings, subject: string, actor: string, tenant: string, product: string,
                         scopes: seq<string>,
                         version: int, jti: string, now: real, minutes: nat): Token
  {
    Signed(s.EffectiveSigningSecret(),
           Claims(subject, actor, "delegated", Join(scopes, ' '), now.Floor, (now + 60.0 * minutes as real).Floor,
                  s.issuer, s.audience, tenant, product, jti, Some(version)))
  }

  // ----------------------------------------------------------------- decoding

  /** jwt.decode with one key: signature, lifetime, and iss/aud when enforced. */
  predicate Accepts(s: Settings, key: string, t: Token, now: real) {
    && t.key == key
    && t.claims.iat as real <= now < t.claims.exp as real
    && (s.requireIssAud ==> t.claims.iss == s.issuer && t.claims.aud == s.audience)
  }

  predicate Verifies(s: Settings, keys: seq<string>, t: Token, now: real) {
    (s.requireIssAud ==> s.issuer != "" && s.audience != "")
    && exists k :: k in keys && k != "" && Accepts(s, k, t, now)
  }

  /** The verification loop: each usable candidate in order, until one accepts. */
  method DecodeSignedClaims(s: Settings, keys: seq<string>, t: Token, now: real) returns (claims: Option<Claims>)
    ensures claims == if Verifies(s, keys, t, now) then Some(t.claims) else None
  {
    if s.requireIssAud && (s.issuer == "" || s.audience == "") {
      return None;
    }
    for i := 0 to |keys|
      invariant forall j :: 0 <= j < i ==> keys[j] == "" || !Accepts(s, keys[j], t, now)
    {
      if keys[i] != "" && Accepts(s, keys[i], t, now) {
        return Some(t.claims);
      }
    }
    return None;
  }

  /** The scope claim of the service's own tokens: a space-separated string. */
  function ParseScopes(scope: string): set<string> {
    set p | p in Split(scope, ' ') && Strip(p) != "" :: Strip(p)
  }

  datatype Decoded = Nobody | Malformed | Someone(principal: Principal)

  function ServicePrincipal(c: Claims): Decoded {
    var subject, client := Strip(c.sub), Strip(c.clientId);
    if c.tokenUse != "service" then Nobody
    else if subject == "" || client == "" then Malformed
    else Someone(Principal(subject, true, ParseScopes(c.scope), client, "", "", "", None, false))
  }

  function DelegatedPrincipal(c: Claims): Decoded {
    var subject, client, jti := Strip(c.sub), Strip(c.clientId), Strip(c.jti);
    var tenant, product := Strip(c.tenant), Strip(c.product);
    if c.tokenUse != "delegated" then Nobody
    else if "" in {subject, client, tenant, product, jti} || c.policyVersion.None? then Malformed
    else Someone(Principal(subject, false, ParseScopes(c.scope), client, tenant, product, jti, c.policyVersion, true))
  }

  /** decode_access_token for the service's own tokens; user tokens are not part of this model. */
  function DecodeAccessToken(s: Settings, t: Token, now: real): Decoded {
    if !Verifies(s, s.VerifySecrets(), t, now) then Nobody
    else
      var service := ServicePrincipal(t.claims);
      if !service.Nobody? then service else DelegatedPrincipal(t.claims)
  }

  // --------------------------------------------------------- scope round trip

  /** Survives being joined with spaces, split and stripped. */
  predicate Plain(s: string) {
    s != "" && Free(s, ' ') && Stripped(s)
  }

  lemma ParsedScopesArePlain(scope: string)
    ensures forall x :: x in ParseScopes(scope) ==> Plain(x)
  {
    forall x | x in ParseScopes(scope) ensures Plain(x) {
      var p :| p in Split(scope, ' ') && Strip(p) == x;
      SplitPiecesAreFree(scope, ' ');
      StripKeepsFree(p, ' ');
      StripIsStripped(p);
    }
  }

  lemma PlainScopesParseBack(scopes: seq<string>)
    requires forall x :: x in scopes ==> Plain(x)
    ensures ParseScopes(Join(scopes, ' ')) == set x | x in scopes
  {
    if scopes == [] {
      assert Split("", ' ') == [""];
    } else {
      SplitOfJoin(scopes, ' ');
      forall x | x in scopes ensures Strip(x) == x {
        StripIsStripped(x);
      }
    }
  }

  /** The scopes a token was minted with are the scopes it is decoded with exactly
      when each of them is plain: not empty, without spaces, stripped. */
  lemma ScopesRoundTripIffPlain(scopes: seq<string>)
    ensures ParseScopes(Join(scopes, ' ')) == (set x | x in scopes) <==> forall x :: x in scopes ==> Plain(x)
  {
    if forall x :: x in scopes ==> Plain(x) {
      PlainScopesParseBack(scopes);
    }
    ParsedScopesArePlain(Join(scopes, ' '));
    if ParseScopes(Join(scopes, ' ')) == set x | x in scopes {
      forall x | x in scopes ensures Plain(x) {
        assert x in ParseScopes(Join(scopes, ' '));
      }
    }
  }

  // ------------------------------------------------------------- end to end

  /** validate_requested_scopes: nothing requested means everything granted. */
  function ValidateRequestedScopes(grants: seq<string>, requested: seq<string>): Option<seq<string>> {
    if requested == [] then Some(grants)
    else if HasRequired((set g | g in grants), (set r | r in requested)) then Some(requested)
    else None
  }

  /** An identifier a claim can carry without loss. */
  predicate Usable(x: string) {
    x != "" && Stripped(x)
  }

  lemma UsableIsKept(x: string)
    requires Usable(x)
    ensures Strip(x) == x
  {
    StripIsStripped(x);
  }

  lemma OwnTokensVerifyUntilTheyExpire(s: Settings, c: Claims, now: real, at: real)
    requires s.EffectiveSigningSecret() != "" && (s.requireIssAud ==> s.issuer != "" && s.audience != "")
    requires c.iat == now.Floor && now <= at && c.iss == s.issuer && c.aud == s.audience
    ensures Verifies(s, s.VerifySecrets(), Signed(s.EffectiveSigningSecret(), c), at) <==> at < c.exp as real
  {
    var key := s.EffectiveSigningSecret();
    assert s.VerifySecrets()[0] == key;
    assert now.Floor as real <= now;
    assert Accepts(s, key, Signed(key, c), at) <==> at < c.exp as real;
  }

  lemma NotAServiceToken(c: Claims)
    requires c.tokenUse == "delegated"
    ensures ServicePrincipal(c) == Nobody
  {
    var delegated, service := "delegated", "service";
    assert delegated[0] == 'd' && service[0] == 's';
  }

  /** A freshly minted service token decodes to its subject, its client and the parts
      of its scope claim, for as long as it has not expired. */
  lemma MintedServiceTokenDecodes(s: Settings, subject: string, clientId: string, scopes: seq<string>,
                                  now: real, minutes: nat, at: real)
    requires s.EffectiveSigningSecret() != "" && (s.requireIssAud ==> s.issuer != "" && s.audience != "")
    requires Usable(subject) && Usable(clientId) && now <= at
    ensures DecodeAccessToken(s, MintService(s, subject, clientId, scopes, now, minutes), at)
            == if at < (now + 60.0 * minutes as real).Floor as real
               then Someone(Principal(subject, true, ParseScopes(Join(scopes, ' ')), clientId, "", "", "", None, false))
               else Nobody
  {
    var t := MintService(s, subject, clientId, scopes, now, minutes);
    OwnTokensVerifyUntilTheyExpire(s, t.claims, now, at);
    UsableIsKept(subject);
    UsableIsKept(clientId);
  }

  /** A freshly minted delegated token decodes to the user, client, tenant and policy
      version it was granted for, until it expires. */
  lemma MintedDelegatedTokenDecodes(s: Settings, subject: string, actor: string, tenant: string, product: string,
                                    scopes: seq<string>, version: int, jti: string, now: real, minutes: nat, at: real)
    requires s.EffectiveSigningSecret() != "" && (s.requireIssAud ==> s.issuer != "" && s.audience != "")
    requires Usable(subject) && Usable(actor) && Usable(tenant) && Usable(product) && Usable(jti)
    requires now <= at
    ensures DecodeAccessToken(s, MintDelegated(s, subject, actor, tenant, product, scopes, version, jti, now, minutes),
                              at)
            == if at < (now + 60.0 * minutes as real).Floor as real
               then Someone(Principal(subject, false, ParseScopes(Join(scopes, ' ')), actor,
                                      tenant, product, jti, Some(version), true))
               else Nobody
  {
    var t := MintDelegated(s, subject, actor, tenant, product, scopes, version, jti, now, minutes);
    OwnTokensVerifyUntilTheyExpire(s, t.claims, now, at);
    UsableIsKept(subject);
    UsableIsKept(actor);
    UsableIsKept(tenant);
    UsableIsKept(product);
    UsableIsKept(jti);
    NotAServiceToken(t.claims);
  }

  /** The scopes of a delegated token, in any order. */
  ghost predicate DelegableScopes(grants: set<string>, scopes: seq<string>) {
    (set x | x in scopes) == grants * LENS_DELEGATED_READ_SCOPES
  }

  /** The scope claim of a delegated token is read back as the delegable scopes. */
  lemma DelegatedScopesParseBack(grants: set<string>, scopes: seq<string>)
    requires DelegableScopes(grants, scopes)
    ensures ParseScopes(Join(scopes, ' ')) == grants * LENS_DELEGATED_READ_SCOPES
  {
    forall x | x in scopes ensures Plain(x) {
      var all := set y | y in scopes;
      assert x in all && all == grants * LENS_DELEGATED_READ_SCOPES;
      LensScopeIsPlain(x);
    }
    PlainScopesParseBack(scopes);
  }

  lemma LensScopeIsPlain(x: string)
    requires x in LENS_DELEGATED_READ_SCOPES
    ensures Plain(x) && x[|x| - 1] != '*'
  {
  }

  lemma DecodedScopesAreTheClaim(s: Settings, t: Token, at: real)
    requires DecodeAccessToken(s, t, at).Someone?
    ensures DecodeAccessToken(s, t, at).principal.scopes == ParseScopes(t.claims.scope)
  {
  }

  /** A delegated token covers only the four Lens read scopes, and of those only
      what the delegating client was granted. */
  lemma DelegatedTokensStayReadOnly(s: Settings, t: Token, grants: set<string>, scopes: seq<string>, at: real,
                                    required: string)
    requires t.claims.scope == Join(scopes, ' ') && DelegableScopes(grants, scopes)
    requires DecodeAccessToken(s, t, at).Someone? && Covers(DecodeAccessToken(s, t, at).principal.scopes, required)
    ensures required in {"market:read", "symbols:read", "analytics:read", "signals:read"} && required in grants
  {
    var delegable := grants * LENS_DELEGATED_READ_SCOPES;
    DecodedScopesAreTheClaim(s, t, at);
    DelegatedScopesParseBack(grants, scopes);
    DelegableCoverThemselves(grants, required);
  }

  lemma DelegableCoverThemselves(grants: set<string>, required: string)
    ensures Covers(grants * LENS_DELEGATED_READ_SCOPES, required) <==> required in grants * LENS_DELEGATED_READ_SCOPES
  {
    forall g | g in grants * LENS_DELEGATED_READ_SCOPES ensures g == "" || g[|g| - 1] != '*' {
      LensScopeIsPlain(g);
    }
    PlainScopesCoverThemselves(grants * LENS_DELEGATED_READ_SCOPES, required);
  }

  // -------------------------------------------------- which tokens open anything

  /** A token is somebody's exactly when it was signed with the current or the previous
      secret, is within its lifetime, names the right issuer and audience where that is
      enforced, and carries the claims of a service or of a delegated user. */
  lemma DecodesIff(s: Settings, t: Token, at: real)
    ensures var c := t.claims;
      var current := if s.signingCurrent.Some? && s.signingCurrent.value != "" then s.signingCurrent.value
                     else s.jwtSecret;
      DecodeAccessToken(s, t, at).Someone? <==>
        && t.key != "" && (t.key == current || s.signingPrevious == Some(t.key))
        && c.iat as real <= at < c.exp as real
        && (s.requireIssAud ==> s.issuer != "" && s.audience != "" && c.iss == s.issuer && c.aud == s.audience)
        && (|| (c.tokenUse == "service" && Strip(c.sub) != "" && Strip(c.clientId) != "")
            || (c.tokenUse == "delegated" && Strip(c.sub) != "" && Strip(c.clientId) != "" && Strip(c.tenant) != ""
                && Strip(c.product) != "" && Strip(c.jti) != "" && c.policyVersion.Some?))
  {
    var keys := s.VerifySecrets();
    VerifiesByTheTwoSecrets(s, t, at);
    NotBothUses(t.claims);
  }

  lemma VerifiesByTheTwoSecrets(s: Settings, t: Token, at: real)
    ensures Verifies(s, s.VerifySecrets(), t, at) <==>
      && t.key != ""
      && (t.key == (if s.signingCurrent.Some? && s.signingCurrent.value != "" then s.signingCurrent.value
                    else s.jwtSecret)
          || s.signingPrevious == Some(t.key))
      && t.claims.iat as real <= at < t.claims.exp as real
      && (s.requireIssAud ==>
            s.issuer != "" && s.audience != "" && t.claims.iss == s.issuer && t.claims.aud == s.audience)
  {
    var keys := s.VerifySecrets();
    assert t.key in keys || t.key == "" || (t.key != s.EffectiveSigningSecret() && s.signingPrevious != Some(t.key));
  }

  lemma NotBothUses(c: Claims)
    ensures c.tokenUse == "delegated" ==> ServicePrincipal(c) == Nobody
  {
    if c.tokenUse == "delegated" {
      NotAServiceToken(c);
    }
  }

  /** Whose it is: every field is the stripped claim of that name, and nothing of a
      delegation is read from a service token. */
  lemma DecodedPrincipalIsTheClaims(s: Settings, t: Token, at: real)
    requires DecodeAccessToken(s, t, at).Someone?
    ensures var p, c := DecodeAccessToken(s, t, at).principal, t.claims;
      && p.subject == Strip(c.sub) && p.clientId == Strip(c.clientId) && p.scopes == ParseScopes(c.scope)
      && p.service == (c.tokenUse == "service") && p.delegated == !p.service
      && (p.delegated ==>
            && p.tenant == Strip(c.tenant) && p.product == Strip(c.product) && p.tokenId == Strip(c.jti)
            && p.policyVersion == c.policyVersion)
      && (p.service ==> p.tenant == "" && p.product == "" && p.tokenId == "" && p.policyVersion.None?)
  {
    NotBothUses(t.claims);
  }
}
