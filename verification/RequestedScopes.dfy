/**
  From a token request to the routes it opens: normalise, validate against the
  grants, mint, decode, check.  Validation looks at a requested scope whole; the
  scope claim is cut at blanks.
 */
module RequestedScopes {
  import opened Base
  import opened Scopes
  import opened Text
  import opened Tokens

  // ---------------------------------------------------------------- a request

  /** The request's own clean-up: outer blanks, empty entries and repetitions go. */
  function NormalizeRequested(values: seq<string>): seq<string> {
    if values == [] then []
    else
      var earlier, value := NormalizeRequested(values[..|values| - 1]), Strip(values[|values| - 1]);
      if value == "" || value in earlier then earlier else earlier + [value]
  }

  lemma {:induction false} NormalizedIs(values: seq<string>, r: string)
    ensures r in NormalizeRequested(values) <==> r != "" && exists k :: 0 <= k < |values| && Strip(values[k]) == r
  {
    if values == [] {
    } else {
      var init, last := values[..|values| - 1], values[|values| - 1];
      NormalizedIs(init, r);
      assert forall k :: 0 <= k < |init| ==> init[k] == values[k];
    }
  }

  function Own(grants: seq<string>): set<string> {
    set g | g in grants
  }

  /** The scopes a request is issued with, if it is. */
  function Issued(grants: seq<string>, values: seq<string>): Option<seq<string>> {
    ValidateRequestedScopes(grants, NormalizeRequested(values))
  }

  lemma IssuedIsCovered(grants: seq<string>, values: seq<string>, r: string)
    requires Issued(grants, values).Some? && r in Issued(grants, values).value
    ensures Covers(Own(grants), r)
  {
    var requested := NormalizeRequested(values);
    if requested == [] {
      assert r in Own(grants) && Matches(r, r);
    } else {
      assert r in set x | x in requested;
    }
  }

  // ----------------------------------------------------------------- a token

  /** When and for whom a token is minted, and when it is presented. */
  datatype Use = Use(settings: Settings, subject: string, clientId: string, now: real, minutes: nat, at: real) {
    /** The service can sign, the identifiers survive, and the token has not expired. */
    predicate Live() {
      && settings.EffectiveSigningSecret() != ""
      && (settings.requireIssAud ==> settings.issuer != "" && settings.audience != "")
      && Tokens.Usable(subject) && Tokens.Usable(clientId)
      && now <= at < (now + 60.0 * minutes as real).Floor as real
    }

    function Present(scopes: seq<string>): Decoded {
      DecodeAccessToken(settings, MintService(settings, subject, clientId, scopes, now, minutes), at)
    }
  }

  /** A route with this requirement lets the minted token through. */
  predicate Passes(u: Use, scopes: seq<string>, required: string) {
    u.Present(scopes).Someone? && Covers(u.Present(scopes).principal.scopes, required)
  }

  lemma PassesByItsParts(u: Use, scopes: seq<string>, required: string)
    requires u.Live()
    ensures Passes(u, scopes, required) <==> Covers(ParseScopes(Join(scopes, ' ')), required)
  {
    MintedServiceTokenDecodes(u.settings, u.subject, u.clientId, scopes, u.now, u.minutes, u.at);
  }

  // ------------------------------------------- one request, and its condition

  /** What an issued request opens is covered by the client's grants exactly when the
      blank-separated parts of what was issued are. */
  lemma RoutesNeverExceedGrants(u: Use, grants: seq<string>, values: seq<string>)
    requires u.Live() && Issued(grants, values).Some?
    requires forall g :: g in grants ==> !EndsInTwoStars(g)
    ensures var issued := Issued(grants, values).value;
      (forall required :: Passes(u, issued, required) ==> Covers(Own(grants), required))
      <==> HasRequired(Own(grants), ParseScopes(Join(issued, ' ')))
  {
    var issued := Issued(grants, values).value;
    var parts := ParseScopes(Join(issued, ' '));
    forall required ensures Passes(u, issued, required) <==> Covers(parts, required) {
      PassesByItsParts(u, issued, required);
    }
    if HasRequired(Own(grants), parts) {
      forall required | Passes(u, issued, required) ensures Covers(Own(grants), required) {
        CoverageIsTransitive(Own(grants), parts, required);
      }
    }
    if forall required :: Passes(u, issued, required) ==> Covers(Own(grants), required) {
      forall p | p in parts ensures Covers(Own(grants), p) {
        assert Matches(p, p) && Covers(parts, p);
        assert Passes(u, issued, p);
      }
    }
  }

  /** In particular when no issued scope has a blank inside. */
  lemma PlainRequestsNeverExceedGrants(u: Use, grants: seq<string>, values: seq<string>, required: string)
    requires u.Live() && Issued(grants, values).Some? && Passes(u, Issued(grants, values).value, required)
    requires forall g :: g in grants ==> !EndsInTwoStars(g)
    requires forall x :: x in Issued(grants, values).value ==> Plain(x)
    ensures Covers(Own(grants), required)
  {
    var issued := Issued(grants, values).value;
    PlainScopesParseBack(issued);
    forall r | r in ParseScopes(Join(issued, ' ')) ensures Covers(Own(grants), r) {
      assert r in set x | x in issued;
      IssuedIsCovered(grants, values, r);
    }
    RoutesNeverExceedGrants(u, grants, values);
  }

  // --------------------------------------------- every request of one client

  /** Whatever the client requests, it never passes what its grants do not cover. */
  ghost predicate StaysWithin(u: Use, grants: seq<string>) {
    forall values, required ::
      Issued(grants, values).Some? ==>
        Passes(u, Issued(grants, values).value, required) ==> Covers(Own(grants), required)
  }

  predicate NoWildcard(grants: seq<string>) {
    forall g :: g in grants ==> g == "" || g[|g| - 1] != '*'
  }

  lemma StarlessGrantsStayWithin(u: Use, grants: seq<string>)
    requires u.Live() && NoWildcard(grants) && forall g :: g in grants ==> WellFormedScope(g)
    ensures StaysWithin(u, grants)
  {
    forall values, required | Issued(grants, values).Some? && Passes(u, Issued(grants, values).value, required)
      ensures Covers(Own(grants), required)
    {
      forall x | x in Issued(grants, values).value ensures Plain(x) {
        IssuedIsCovered(grants, values, x);
        PlainScopesCoverThemselves(Own(grants), x);
        WellFormedScopeIsPlain(x);
      }
      PlainRequestsNeverExceedGrants(u, grants, values, required);
    }
  }

  /** A requested scope with a blank inside: a wildcard grant accepts it by its first
      part, and the token carries both. */
  lemma BlankCarriesASecondScope(u: Use, grants: seq<string>, g: string, tail: string)
    requires u.Live() && g in grants && WellFormedScope(g) && g[|g| - 1] == '*' && Plain(tail)
    ensures var request := g[..|g| - 1] + "x " + tail;
      && Issued(grants, [request]) == Some([request])
      && tail in ParseScopes(Join([request], ' ')) && Passes(u, [request], tail)
  {
    var head := g[..|g| - 1] + "x";
    var request := g[..|g| - 1] + "x " + tail;
    assert request == head + [' '] + tail;
    WellFormedScopeIsPlain(g);
    assert request[0] == g[0] && request[|request| - 1] == tail[|tail| - 1];
    StripIsStripped(request);
    assert [request][..0] == [];
    assert NormalizeRequested([request]) == [request];
    assert request[..|g| - 1] == g[..|g| - 1] && Matches(g, request);
    PartsOfTwo(head, tail);
    PassesByItsParts(u, [request], tail);
    assert Matches(tail, tail);
  }

  lemma PartsOfTwo(head: string, tail: string)
    requires Free(head, ' ') && Plain(tail)
    ensures tail in ParseScopes(Join([head + [' '] + tail], ' '))
  {
    SplitAtFirst(head, ' ', tail);
    SplitOfFree(tail, ' ');
    StripIsStripped(tail);
    assert Split(head + [' '] + tail, ' ')[1] == tail;
  }

  /** Grants never cover everything: some scope of the grammar is outside them. */
  function LongestLength(grants: seq<string>): (n: nat)
    ensures forall g :: g in grants ==> |g| <= n
  {
    if grants == [] then 0
    else
      var rest := LongestLength(grants[1..]);
      if |grants[0]| > rest then |grants[0]| else rest
  }

  function Outside(grants: seq<string>): string {
    seq(LongestLength(grants) + 1, _ => 'z') + ":a"
  }

  lemma OutsideIsNotCovered(grants: seq<string>)
    requires forall g :: g in grants ==> WellFormedScope(g)
    ensures WellFormedScope(Outside(grants)) && !Covers(Own(grants), Outside(grants))
  {
    var n, out := LongestLength(grants), Outside(grants);
    assert ColonAt(out, n + 1);
    forall g | g in Own(grants) ensures !Matches(g, out) {
      assert WellFormedScope(g);
      var i :| 0 <= i < |g| && ColonAt(g, i);
      assert g[..|g| - 1][i] == ':' && out[..|g| - 1][i] == 'z';
    }
  }

  /** For grants within the scope grammar: every request stays within the grants
      exactly when none of them is a wildcard. */
  lemma RequestsStayWithinIffNoWildcard(u: Use, grants: seq<string>)
    requires u.Live() && forall g :: g in grants ==> WellFormedScope(g)
    ensures StaysWithin(u, grants) <==> NoWildcard(grants)
  {
    if NoWildcard(grants) {
      StarlessGrantsStayWithin(u, grants);
    } else {
      var g :| g in grants && g != "" && g[|g| - 1] == '*';
      var tail := Outside(grants);
      OutsideIsNotCovered(grants);
      WellFormedScopeIsPlain(tail);
      BlankCarriesASecondScope(u, grants, g, tail);
      var values := [g[..|g| - 1] + "x " + tail];
      assert Issued(grants, values) == Some(values) && Passes(u, values, tail);
    }
  }

  lemma MarketAndAdmin()
    ensures WellFormedScope("market:*") && Plain("admin:*") && WellFormedScope("admin:write")
    ensures Matches("admin:*", "admin:write") && !Matches("market:*", "admin:write")
  {
    var market, admin, wanted := "market:*", "admin:*", "admin:write";
    assert ColonAt(market, 6) && ColonAt(admin, 5) && ColonAt(wanted, 5);
    WellFormedScopeIsPlain(admin);
    assert wanted[..6] == admin[..6];
    assert wanted[0] == 'a' && market[0] == 'm' && market[..7][0] == 'm' && wanted[..7][0] == 'a';
  }

  /** One instance: a market wildcard, and a request that ends up with admin scopes. */
  lemma WildcardRequestCanExceedItsGrant(u: Use)
    requires u.Live()
    ensures Issued(["market:*"], ["market:x admin:*"]) == Some(["market:x admin:*"])
    ensures Passes(u, ["market:x admin:*"], "admin:write") && !Covers({"market:*"}, "admin:write")
  {
    var market, admin, request := "market:*", "admin:*", "market:x admin:*";
    MarketAndAdmin();
    assert market[..7] + "x " + admin == request;
    BlankCarriesASecondScope(u, [market], market, admin);
    PassesMore(u, [request], admin, "admin:write");
  }

  lemma PassesMore(u: Use, scopes: seq<string>, held: string, required: string)
    requires u.Live() && Matches(held, required)
    requires held in ParseScopes(Join(scopes, ' '))
    ensures Passes(u, scopes, required)
  {
    PassesByItsParts(u, scopes, required);
  }
}
