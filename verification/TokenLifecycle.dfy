/**
  A client from issuance to its refreshes.  Issuance lets a client ask for
  anything its grants cover, wildcards included; a refresh keeps only the scopes
  that are literally among the grants.
 */
module TokenLifecycle {
  import opened Base
  import opened RefreshTable
  import opened RefreshRepository
  import RequestedScopes
  import Scopes
  import Text
  import Tokens

  /** A row the given client may refresh at the given time, as far as the row goes. */
  ghost predicate Presentable(t: Table, i: TokenId, raw: string, client: ServiceClient, at: int) {
    && WellFormed(t) && i in t && t[i].hash == Sha256(raw)
    && t[i].Live() && at < t[i].expiresAt && BoundTo(t[i], client) && client.shortLived
  }

  ghost function RefreshAt(t: Table, raw: string, client: ServiceClient, r: Renewal): Effect<Record> {
    RefreshSpec(t, raw, client, r.newRaw, r.expires, r.newId, r.at, r.at, 0, 0)
  }

  datatype Renewal = Renewal(newRaw: string, newId: TokenId, expires: int, at: int)

  ghost predicate Fresh(t: Table, r: Renewal) {
    r.newId !in t && HashFree(t, Sha256(r.newRaw))
  }

  lemma UniqueRow(t: Table, i: TokenId, raw: string)
    requires WellFormed(t) && i in t && t[i].hash == Sha256(raw)
    ensures Find(t, Sha256(raw)) == Some(i)
  {
    assert UniqueHashes(t);
  }

  /** One refresh of a presentable token succeeds exactly when some scope of the
      token is literally granted; otherwise every token of the client is revoked. */
  lemma RefreshSucceedsIffAScopeIsHeld(t: Table, i: TokenId, raw: string, client: ServiceClient, r: Renewal)
    requires Presentable(t, i, raw, client, r.at) && Fresh(t, r)
    ensures var (t', result) := RefreshAt(t, raw, client, r);
      if t[i].scopes * client.scopes == {} then
        result == Err(ScopesGone) && (forall k :: k in t' && t'[k].client == client.id ==> !t'[k].Live())
      else
        && result == Ok(Record(r.newId, t[i].subject, client.id, t[i].scopes * client.scopes, r.expires))
        && t' == RefreshTable.Rotated(t, i, r.newId, Sha256(r.newRaw), t[i].scopes * client.scopes, r.expires, r.at)
  {
    UniqueRow(t, i, raw);
  }

  /** The renewals of one client in sequence, each presenting the token the one
      before returned, up to the first failure. */
  ghost function Renew(t: Table, raw: string, client: ServiceClient, rs: seq<Renewal>): (Table, bool)
    decreases |rs|
  {
    if rs == [] then (t, true)
    else
      var (t', result) := RefreshAt(t, raw, client, rs[0]);
      if result.Ok? then Renew(t', rs[0].newRaw, client, rs[1..]) else (t', false)
  }

  ghost predicate AllFresh(t: Table, rs: seq<Renewal>) {
    && (forall k :: 0 <= k < |rs| ==> Fresh(t, rs[k]))
    && (forall j, k :: 0 <= j < k < |rs| ==> rs[j].newId != rs[k].newId && rs[j].newRaw != rs[k].newRaw)
  }

  ghost predicate Timely(expiresAt: int, rs: seq<Renewal>)
    decreases |rs|
  {
    rs != [] ==> rs[0].at < expiresAt && Timely(rs[0].expires, rs[1..])
  }

  lemma StillFresh(t: Table, i: TokenId, rs: seq<Renewal>, scopes: set<string>)
    requires i in t && rs != [] && AllFresh(t, rs)
    ensures AllFresh(RefreshTable.Rotated(t, i, rs[0].newId, Sha256(rs[0].newRaw), scopes, rs[0].expires, rs[0].at),
                     rs[1..])
  {
    var t' := RefreshTable.Rotated(t, i, rs[0].newId, Sha256(rs[0].newRaw), scopes, rs[0].expires, rs[0].at);
    forall k | 0 <= k < |rs[1..]| ensures Fresh(t', rs[1..][k]) {
      assert rs[1..][k] == rs[k + 1] && Fresh(t, rs[k + 1]);
      assert rs[0].newId != rs[k + 1].newId && rs[0].newRaw != rs[k + 1].newRaw;
    }
  }

  /** The token a refresh returns is as presentable as the one it replaced. */
  lemma NextIsPresentable(t: Table, i: TokenId, raw: string, client: ServiceClient, r: Renewal, at: int)
    requires Presentable(t, i, raw, client, r.at) && Fresh(t, r) && t[i].scopes * client.scopes != {} && at < r.expires
    ensures var t' := RefreshAt(t, raw, client, r).0;
      Presentable(t', r.newId, r.newRaw, client, at) && t'[r.newId].scopes == t[i].scopes * client.scopes
      && t'[r.newId].expiresAt == r.expires
  {
    RefreshSucceedsIffAScopeIsHeld(t, i, raw, client, r);
    WriteKeepsWellFormed(t, Rotate(i, r.newId, Sha256(r.newRaw), t[i].scopes * client.scopes, r.expires, r.at));
  }

  /** An unchanged client whose token holds a literal grant can go on refreshing
      for ever; one whose token holds none cannot refresh at all. */
  lemma {:induction false} UnchangedClientRefreshesIffAScopeIsHeld(t: Table, i: TokenId, raw: string,
                                                                   client: ServiceClient, rs: seq<Renewal>)
    requires rs != [] && Presentable(t, i, raw, client, rs[0].at)
    requires AllFresh(t, rs) && Timely(t[i].expiresAt, rs)
    ensures Renew(t, raw, client, rs).1 <==> t[i].scopes * client.scopes != {}
    decreases |rs|
  {
    RefreshSucceedsIffAScopeIsHeld(t, i, raw, client, rs[0]);
    var kept := t[i].scopes * client.scopes;
    if kept == {} || |rs| == 1 {
    } else {
      var t' := RefreshAt(t, raw, client, rs[0]).0;
      StillFresh(t, i, rs, kept);
      assert rs[1..][0] == rs[1];
      NextIsPresentable(t, i, raw, client, rs[0], rs[1].at);
      assert kept * client.scopes == kept;
      UnchangedClientRefreshesIffAScopeIsHeld(t', rs[0].newId, rs[0].newRaw, client, rs[1..]);
    }
  }

  /** The table after a service token has been issued with a refresh token. */
  function AfterIssue(t: Table, client: ServiceClient, issued: seq<string>, newId: TokenId, raw: string,
                      expiresAt: int): Table
  {
    t[newId := FreshRow(Sha256(raw), ServiceSubject(client.id), client.id, RequestedScopes.Own(issued), expiresAt)]
  }

  /** From the request on: what is issued can be refreshed exactly when one of its
      scopes is literally among the grants.  Otherwise the first refresh is refused
      and revokes every token of the client. */
  lemma IssuedTokenRefreshesIffALiteralGrant(t: Table, client: ServiceClient, grants: seq<string>, values: seq<string>,
                                             newId: TokenId, raw: string, expiresAt: int, r: Renewal)
    requires WellFormed(t) && client.shortLived && client.scopes == RequestedScopes.Own(grants)
    requires RequestedScopes.Issued(grants, values).Some?
    requires newId !in t && HashFree(t, Sha256(raw)) && r.at < expiresAt
    requires Fresh(AfterIssue(t, client, RequestedScopes.Issued(grants, values).value, newId, raw, expiresAt), r)
    ensures var issued := RequestedScopes.Issued(grants, values).value;
      var (t', result) := RefreshAt(AfterIssue(t, client, issued, newId, raw, expiresAt), raw, client, r);
      if exists x :: x in issued && x in grants then
        result.Ok? && result.value.scopes == RequestedScopes.Own(issued) * RequestedScopes.Own(grants)
      else result == Err(ScopesGone) && forall k :: k in t' && t'[k].client == client.id ==> !t'[k].Live()
  {
    var issued := RequestedScopes.Issued(grants, values).value;
    var t' := AfterIssue(t, client, issued, newId, raw, expiresAt);
    WriteKeepsWellFormed(t, Insert(newId, t'[newId]));
    RefreshSucceedsIffAScopeIsHeld(t', newId, raw, client, r);
    var both := RequestedScopes.Own(issued) * RequestedScopes.Own(grants);
    if x :| x in issued && x in grants {
      assert x in both;
    } else {
      assert both == {};
    }
  }

  /** Asking for nothing means everything granted, so such a token can be refreshed
      unless nothing is granted. */
  lemma DefaultScopesStayRefreshable(t: Table, client: ServiceClient, grants: seq<string>, values: seq<string>,
                                     newId: TokenId, raw: string, expiresAt: int, r: Renewal)
    requires WellFormed(t) && client.shortLived && client.scopes == RequestedScopes.Own(grants)
    requires RequestedScopes.NormalizeRequested(values) == []
    requires newId !in t && HashFree(t, Sha256(raw)) && r.at < expiresAt
    requires Fresh(AfterIssue(t, client, grants, newId, raw, expiresAt), r)
    ensures RequestedScopes.Issued(grants, values) == Some(grants)
    ensures var result := RefreshAt(AfterIssue(t, client, grants, newId, raw, expiresAt), raw, client, r).1;
      if grants == [] then result == Err(ScopesGone) else result.Ok? && result.value.scopes == client.scopes
  {
    assert grants != [] ==> grants[0] in grants;
    IssuedTokenRefreshesIffALiteralGrant(t, client, grants, values, newId, raw, expiresAt, r);
  }

  /** A request that is issued and then fails that condition: an admin wildcard. */
  lemma WildcardOnlyRequestIsIssued()
    ensures RequestedScopes.Issued(["admin:*"], ["admin:read"]) == Some(["admin:read"])
    ensures !exists x :: x in ["admin:read"] && x in ["admin:*"]
  {
    var wildcard, read := "admin:*", "admin:read";
    assert wildcard[..6] == read[..6] && wildcard[6] == '*' && read[6] == 'r';
    assert Scopes.Matches(wildcard, read) && wildcard in RequestedScopes.Own([wildcard]);
    Text.StripIsStripped(read);
    assert [read][..0] == [];
    assert RequestedScopes.NormalizeRequested([read]) == [read];
  }

  /** The access token returned with a refresh is decoded, while it lasts, as a
      service principal whose scopes the presented token and the client both hold. */
  lemma RefreshedAccessTokenIsWithinBoth(t: Table, i: TokenId, raw: string, client: ServiceClient, r: Renewal,
                                         s: Tokens.Settings, scopes: seq<string>, now: real, minutes: nat, at: real)
    requires Presentable(t, i, raw, client, r.at) && Fresh(t, r) && RefreshAt(t, raw, client, r).1.Ok?
    requires (set x | x in scopes) == RefreshAt(t, raw, client, r).1.value.scopes
    requires forall g :: g in client.scopes ==> Scopes.WellFormedScope(g)
    requires s.EffectiveSigningSecret() != "" && (s.requireIssAud ==> s.issuer != "" && s.audience != "")
    requires Tokens.Usable(client.id)
    requires now <= at < (now + 60.0 * minutes as real).Floor as real
    ensures var rec := RefreshAt(t, raw, client, r).1.value;
      var seen := Tokens.DecodeAccessToken(s, Tokens.MintService(s, rec.subject, rec.client, scopes, now, minutes), at);
      && seen.Someone? && seen.principal.service && seen.principal.subject == "service:" + client.id
      && seen.principal.clientId == client.id
      && seen.principal.scopes == t[i].scopes * client.scopes
  {
    RefreshSucceedsIffAScopeIsHeld(t, i, raw, client, r);
    var kept := set x | x in scopes;
    assert kept == t[i].scopes * client.scopes;
    forall x | x in scopes ensures Tokens.Plain(x) {
      assert x in kept;
      Scopes.WellFormedScopeIsPlain(x);
    }
    Tokens.PlainScopesParseBack(scopes);
    var subject := ServiceSubject(client.id);
    assert subject[0] == 's' && subject[|subject| - 1] == client.id[|client.id| - 1];
    Tokens.MintedServiceTokenDecodes(s, subject, client.id, scopes, now, minutes, at);
  }
}
