/**
  AuthTokenService: access tokens, and refresh tokens for the clients that opted in.
 */
module AuthTokens {
  import opened Base
  import opened RefreshRepository
  import opened RefreshTable
  import opened Text
  import opened Tokens
  import RequestedScopes

  datatype Refreshable = Refreshable(raw: string, expiresAt: int)

  datatype Response = Response(accessToken: Token, minutes: nat, scopes: seq<string>, refresh: Option<Refreshable>)

  /** Lifetimes of access tokens, in minutes. */
  datatype Lifetimes = Lifetimes(short: nat, service: nat)

  /** Presented at any later time, the token is the service principal of the client,
      with the parts of the scopes, until its minutes are over, and nobody after. */
  ghost predicate OpensFor(s: Settings, t: Token, client: string, scopes: seq<string>, now: real, minutes: nat) {
    forall at: real {:trigger DecodeAccessToken(s, t, at)} :: now <= at ==>
      DecodeAccessToken(s, t, at)
      == if at < (now + 60.0 * minutes as real).Floor as real
         then Someone(Principal("service:" + client, true, ParseScopes(Join(scopes, ' ')), client, "", "", "", None,
                                false))
         else Nobody
  }

  /** The service can sign, and the client's identifier survives the claims. */
  predicate CanIssue(s: Settings, client: string) {
    && s.EffectiveSigningSecret() != "" && (s.requireIssAud ==> s.issuer != "" && s.audience != "")
    && Tokens.Usable(client)
  }

  lemma MintedTokenOpens(s: Settings, client: string, scopes: seq<string>, now: real, minutes: nat)
    requires CanIssue(s, client)
    ensures var token := MintService(s, ServiceSubject(client), client, scopes, now, minutes);
      OpensFor(s, token, client, scopes, now, minutes)
  {
    var subject := ServiceSubject(client);
    assert subject[0] == 's' && subject[|subject| - 1] == client[|client| - 1];
    forall at: real | now <= at
      ensures DecodeAccessToken(s, MintService(s, subject, client, scopes, now, minutes), at)
              == if at < (now + 60.0 * minutes as real).Floor as real
                 then Someone(Principal("service:" + client, true, ParseScopes(Join(scopes, ' ')), client, "", "", "",
                                        None, false))
                 else Nobody
    {
      MintedServiceTokenDecodes(s, subject, client, scopes, now, minutes, at);
    }
  }

  class AuthTokenService {
    /** Null when the service has no database. */
    const repo: RefreshTokenRepository?
    const settings: Settings
    const lifetimes: Lifetimes

    constructor (r: RefreshTokenRepository?, s: Settings, l: Lifetimes)
      ensures repo == r && settings == s && lifetimes == l
    {
      repo, settings, lifetimes := r, s, l;
    }

    /** An access token, good for the client's own subject and the granted scopes for
        the minutes its kind is given; a refresh token besides, stored with the same,
        when the client opted in and there is storage. */
    method IssueServiceToken(client: ServiceClient, granted: seq<string>, raw: string, refreshExpires: int,
                             newId: TokenId, now: real, faultAt: nat) returns (r: Result<Response, Error>)
      modifies if repo != null then {repo.session, repo.session.db} else {}
      ensures r.Ok? ==>
        && r.value.scopes == granted
        && r.value.minutes == (if client.shortLived then lifetimes.short else lifetimes.service)
        && (CanIssue(settings, client.id) ==>
              OpensFor(settings, r.value.accessToken, client.id, granted, now, r.value.minutes))
      ensures !client.shortLived || repo == null ==>
        r.Ok? && r.value.refresh == None && (repo != null ==> repo.session.db.rows == old(repo.session.db.rows))
      ensures client.shortLived && repo != null ==>
        var before := old(repo.session.db.rows);
        if 1 <= faultAt <= 2 || newId in before || !HashFree(before, Sha256(raw)) then
          r == Err(DatabaseUnavailable) && repo.session.db.rows == before
        else
          && r.Ok? && r.value.refresh == Some(Refreshable(raw, refreshExpires))
          && repo.session.db.rows
             == before[newId := Row(Sha256(raw), "service:" + client.id, client.id, (set x | x in granted),
                                    refreshExpires, None, None)]
    {
      var minutes := if client.shortLived then lifetimes.short else lifetimes.service;
      var token := MintService(settings, ServiceSubject(client.id), client.id, granted, now, minutes);
      if CanIssue(settings, client.id) {
        MintedTokenOpens(settings, client.id, granted, now, minutes);
      }
      if !client.shortLived || repo == null {
        return Ok(Response(token, minutes, granted, None));
      }
      var stored := repo.Insert(ServiceSubject(client.id), client.id, raw, RequestedScopes.Own(granted),
                                refreshExpires, newId, faultAt);
      if stored.Err? {
        return Err(stored.error);
      }
      return Ok(Response(token, minutes, granted, Some(Refreshable(raw, refreshExpires))));
    }

    /** Rotates a refresh token for the authenticated `client`: the rows and the refusal
        are those of RefreshSpec, and success carries an access token for exactly the
        scopes of the new record, listed in order. */
    method Refresh(raw: string, client: ServiceClient, newRaw: string, newExpires: int, newId: TokenId, now: real,
                   lookupTime: int, writeTime: int, lookupFault: nat, writeFault: nat)
      returns (r: Result<Response, Error>)
      requires repo != null ==> UniqueHashes(repo.session.db.rows)
      modifies if repo != null then {repo.session, repo.session.db} else {}
      ensures repo == null ==> r == Err(StorageRequired)
      ensures repo != null ==>
        var (after, result) := RefreshSpec(old(repo.session.db.rows), raw, client, newRaw, newExpires, newId,
                                           lookupTime, writeTime, lookupFault, writeFault);
        && repo.session.staged == repo.session.db.rows == after
        && match result
           case Err(e) => r == Err(e)
           case Ok(rec) =>
             && r.Ok? && SortedListOf(r.value.scopes, rec.scopes)
             && r.value.minutes == lifetimes.short && r.value.refresh == Some(Refreshable(newRaw, rec.expiresAt))
             && (CanIssue(settings, client.id) ==>
                   OpensFor(settings, r.value.accessToken, client.id, r.value.scopes, now, lifetimes.short))
    {
      if repo == null {
        return Err(StorageRequired);
      }
      var found := repo.LookupActive(raw, lookupTime, lookupFault);
      if found.Err? {
        return Err(found.error);
      }
      var presented := found.value;
      if presented.client != client.id || presented.subject != ServiceSubject(client.id) {
        var ok := repo.RevokeFamily(presented.id, writeTime, 1, writeFault);
        return Err(if ok then InvalidToken else DatabaseUnavailable);
      }
      if !client.shortLived {
        var ok := repo.RevokeActiveForClient(presented.client, writeTime, writeFault);
        return Err(if ok then RefreshDisabled else DatabaseUnavailable);
      }
      var live := Sorted(presented.scopes * client.scopes);
      if live == [] {
        var ok := repo.RevokeActiveForClient(presented.client, writeTime, writeFault);
        return Err(if ok then ScopesGone else DatabaseUnavailable);
      }
      assert live[0] in RequestedScopes.Own(live);
      var kept := Some(RequestedScopes.Own(live));
      var rotated := repo.Rotate(raw, newRaw, newExpires, kept, newId, writeTime, writeFault);
      if rotated.Err? {
        return Err(rotated.error);
      }
      var rec := rotated.value;
      if CanIssue(settings, client.id) {
        MintedTokenOpens(settings, client.id, live, now, lifetimes.short);
      }
      return Ok(Response(MintService(settings, rec.subject, rec.client, live, now, lifetimes.short),
                         lifetimes.short, live, Some(Refreshable(newRaw, rec.expiresAt))));
    }
  }
}
