/**
  Scope strings and what a set of grants covers.  A grant ending in a star covers
  everything that starts with what precedes the star.
 */
module Scopes {
  import opened Text

  const LENS_DELEGATED_READ_SCOPES: set<string> := {"market:read", "symbols:read", "analytics:read", "signals:read"}

  predicate Matches(granted: string, required: string) {
    granted == required
    || (granted != "" && granted[|granted| - 1] == '*' && Prefixed(required, granted[..|granted| - 1]))
  }

  predicate Covers(grants: set<string>, required: string) {
    exists g :: g in grants && Matches(g, required)
  }

  predicate HasRequired(grants: set<string>, required: set<string>) {
    forall r :: r in required ==> Covers(grants, r)
  }

  predicate EndsInTwoStars(s: string) {
    |s| >= 2 && s[|s| - 1] == '*' && s[|s| - 2] == '*'
  }

  // ------------------------------------------------------ the scope grammar

  predicate Word(c: char) {
    'a' <= c <= 'z' || '0' <= c <= '9' || c == '-'
  }

  /** '^[a-z][a-z0-9-]*:[a-z*][a-z0-9*-]*$' with the colon at position i. */
  predicate ColonAt(s: string, i: nat) {
    && 0 < i < |s| - 1 && s[i] == ':'
    && 'a' <= s[0] <= 'z' && (forall k :: 0 < k < i ==> Word(s[k]))
    && ('a' <= s[i + 1] <= 'z' || s[i + 1] == '*') && (forall k :: i + 1 < k < |s| ==> Word(s[k]) || s[k] == '*')
  }

  predicate WellFormedScope(s: string) {
    exists i :: 0 <= i < |s| && ColonAt(s, i)
  }

  /** Words of lower-case letters, digits and hyphens; a letter first, or in the second
      part a star, which may stand anywhere there. */
  predicate ResourceText(t: string) {
    && t != "" && 'a' <= t[0] <= 'z'
    && forall k :: 0 <= k < |t| ==> 'a' <= t[k] <= 'z' || '0' <= t[k] <= '9' || t[k] == '-'
  }

  predicate ActionText(t: string) {
    && t != "" && ('a' <= t[0] <= 'z' || t[0] == '*')
    && forall k :: 0 <= k < |t| ==> 'a' <= t[k] <= 'z' || '0' <= t[k] <= '9' || t[k] == '-' || t[k] == '*'
  }

  /** A scope is a resource, a colon and an action. */
  lemma ScopeIsResourceAndAction(s: string)
    ensures WellFormedScope(s) <==>
      exists resource, action :: s == resource + [':'] + action && ResourceText(resource) && ActionText(action)
  {
    if i :| 0 <= i < |s| && ColonAt(s, i) {
      var resource, action := s[..i], s[i + 1..];
      assert s == resource + [':'] + action;
      SplitAtColon(s, i);
    }
    forall resource, action | s == resource + [':'] + action && ResourceText(resource) && ActionText(action)
      ensures ColonAt(s, |resource|)
    {
      ColonBetween(resource, action);
    }
  }

  lemma SplitAtColon(s: string, i: nat)
    requires ColonAt(s, i)
    ensures ResourceText(s[..i]) && ActionText(s[i + 1..])
  {
    var action := s[i + 1..];
    assert action[0] == s[i + 1];
    forall k | 0 <= k < |action| ensures Word(action[k]) || action[k] == '*' {
      assert action[k] == s[i + 1 + k];
    }
    forall k | 0 <= k < i ensures Word(s[..i][k]) {
      assert s[..i][k] == s[k];
    }
  }

  lemma ColonBetween(resource: string, action: string)
    requires ResourceText(resource) && ActionText(action)
    ensures ColonAt(resource + [':'] + action, |resource|)
  {
    var s, n := resource + [':'] + action, |resource|;
    forall k | 0 <= k < n ensures Word(s[k]) {
      assert s[k] == resource[k];
    }
    forall k | n < k < |s| ensures Word(s[k]) || s[k] == '*' {
      assert s[k] == action[k - n - 1];
    }
    assert s[n + 1] == action[0] && s[0] == resource[0];
  }

  /** The grammar keeps out everything the space-separated scope claim could split or strip. */
  lemma WellFormedScopeIsPlain(s: string)
    requires WellFormedScope(s)
    ensures s != "" && Free(s, ' ') && Stripped(s)
  {
    var i :| 0 <= i < |s| && ColonAt(s, i);
    forall k | 0 <= k < |s| ensures !IsSpace(s[k]) {
      assert k < i || k == i || k == i + 1 || k > i + 1;
    }
  }

  // ------------------------------------------------------- coverage as order

  /** The grant `g` covers whatever the scopes it covers cover. */
  ghost predicate TransitiveFrom(g: string) {
    forall r, s :: Matches(g, r) && Matches(r, s) ==> Matches(g, s)
  }

  /** Coverage composes through a grant exactly when it does not end in two stars. */
  lemma CoverageComposesIffNoTwoStars(g: string)
    ensures TransitiveFrom(g) <==> !EndsInTwoStars(g)
  {
    if EndsInTwoStars(g) {
      var p := g[..|g| - 1];
      var s := p[..|p| - 1];
      assert Matches(g, p) && Matches(p, s) && !Matches(g, s);
    } else {
      forall r, s | Matches(g, r) && Matches(r, s) ensures Matches(g, s) {
        MatchesCompose(g, r, s);
      }
    }
  }

  lemma MatchesCompose(g: string, r: string, s: string)
    requires !EndsInTwoStars(g) && Matches(g, r) && Matches(r, s)
    ensures Matches(g, s)
  {
    if g != r && r != s {
      var p, q := g[..|g| - 1], r[..|r| - 1];
      assert |p| < |r|;
      assert q[..|p|] == r[..|p|] == p;
      assert s[..|p|] == s[..|q|][..|p|];
    }
  }

  /** What a covered set covers, the grants cover: no chain of delegations through
      scopes reaches beyond the first set of grants. */
  lemma CoverageIsTransitive(grants: set<string>, middle: set<string>, required: string)
    requires forall g :: g in grants ==> !EndsInTwoStars(g)
    requires HasRequired(grants, middle) && Covers(middle, required)
    ensures Covers(grants, required)
  {
    var r :| r in middle && Matches(r, required);
    var g :| g in grants && Matches(g, r);
    MatchesCompose(g, r, required);
  }

  /** Without the condition it fails: "a:**" covers "a:*", which covers "a:b". */
  lemma TwoStarsBreakCoverage()
    ensures HasRequired({"a:**"}, {"a:*"}) && Covers({"a:*"}, "a:b") && !Covers({"a:**"}, "a:b")
    ensures WellFormedScope("a:**")
  {
    assert Matches("a:**", "a:*") && Matches("a:*", "a:b");
    assert ColonAt("a:**", 1);
    var covered, prefix := "a:b", "a:*";
    assert covered[2] == 'b' && prefix[2] == '*';
    assert !Matches("a:**", "a:b");
  }

  /** A set of starless scopes covers exactly its members. */
  lemma PlainScopesCoverThemselves(grants: set<string>, required: string)
    requires forall g :: g in grants ==> g == "" || g[|g| - 1] != '*'
    ensures Covers(grants, required) <==> required in grants
  {
    if required in grants {
      assert Matches(required, required);
    }
  }
}
