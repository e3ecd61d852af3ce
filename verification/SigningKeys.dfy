/**
  Rotating the signing secrets: the script moves the current secret to the
  previous slot, and the service verifies with both.
 */
module SigningKeys {
  import opened Base
  import opened Tokens

  datatype Name =
    | JwtSecret | JwtSigningSecretCurrent | JwtSigningSecretPrevious
    | UserJwtSecret | UserJwtSecretPrevious
    | Other(name: string)

  type Env = map<Name, string>

  datatype ClientConfig = Configured(secret: string) | NotAnObject

  function Get(v: Env, key: Name): string {
    if key in v then v[key] else ""
  }

  function Or(a: string, b: string): string {
    if a != "" then a else b
  }

  function Optional(v: Env, key: Name): Option<string> {
    if Get(v, key) == "" then None else Some(v[key])
  }

  /** The settings a service started on this environment runs with. */
  function Load(v: Env, issuer: string, audience: string, requireIssAud: bool): Settings {
    Settings(Get(v, JwtSecret), Optional(v, JwtSigningSecretCurrent), Optional(v, JwtSigningSecretPrevious),
             issuer, audience, requireIssAud)
  }

  function SigningSecret(v: Env): string {
    Or(Get(v, JwtSigningSecretCurrent), Get(v, JwtSecret))
  }

  /** Verification secrets for user tokens: current, then previous. */
  function UserVerifySecrets(v: Env): seq<string> {
    var current, previous := Get(v, UserJwtSecret), Get(v, UserJwtSecretPrevious);
    (if current != "" then [current] else []) + (if previous != "" && previous != current then [previous] else [])
  }

  function Set(v: Env, key: Name, value: string): Env {
    v[key := value]
  }

  /** One rotation of the environment's secrets. */
  function Rotated(v: Env, newSigning: string, newUser: string): Env {
    var oldSigning, oldUser := SigningSecret(v), Get(v, UserJwtSecret);
    var v1 := if oldSigning != "" then Set(v, JwtSigningSecretPrevious, oldSigning) else v;
    var v2 := Set(Set(v1, JwtSigningSecretCurrent, newSigning), JwtSecret, newSigning);
    var v3 := if oldUser != "" then Set(v2, UserJwtSecretPrevious, oldUser) else v2;
    Set(v3, UserJwtSecret, newUser)
  }

  class EnvironmentFile {
    var values: Env
    var clients: map<string, ClientConfig>

    constructor (v: Env, c: map<string, ClientConfig>)
      ensures values == v && clients == c
    {
      values := v;
      clients := c;
    }

    /** The rotation step of the script: aborts before writing when the client
        configuration does not parse, otherwise replaces every secret. */
    method Rotate(newSigning: string, newUser: string, clientsParse: bool, newSecrets: map<string, string>)
      returns (ok: bool)
      requires forall c :: c in clients ==> c in newSecrets
      modifies this
      ensures ok <==> clientsParse
      ensures !ok ==> values == old(values) && clients == old(clients)
      ensures ok ==> values == Rotated(old(values), newSigning, newUser)
      ensures ok ==> clients.Keys == old(clients).Keys
                     && forall c :: c in clients ==>
                          clients[c] == if old(clients)[c].Configured? then Configured(newSecrets[c]) else NotAnObject
    {
      var staged := values;
      var oldSigning := Or(Get(staged, JwtSigningSecretCurrent), Get(staged, JwtSecret));
      if oldSigning != "" {
        staged := staged[JwtSigningSecretPrevious := oldSigning];
      }
      staged := staged[JwtSigningSecretCurrent := newSigning];
      staged := staged[JwtSecret := newSigning];
      var oldUser := Get(staged, UserJwtSecret);
      if oldUser != "" {
        staged := staged[UserJwtSecretPrevious := oldUser];
      }
      staged := staged[UserJwtSecret := newUser];
      if !clientsParse {
        return false;
      }
      var rotated := clients;
      var left := clients.Keys;
      while left != {}
        invariant left <= clients.Keys && rotated.Keys == clients.Keys
        invariant forall c :: c in left ==> rotated[c] == clients[c]
        invariant forall c :: c in clients.Keys - left ==>
                    rotated[c] == if clients[c].Configured? then Configured(newSecrets[c]) else NotAnObject
        decreases left
      {
        var c :| c in left;
        left := left - {c};
        if rotated[c].Configured? {
          rotated := rotated[c := Configured(newSecrets[c])];
        }
      }
      values := staged;
      clients := rotated;
      return true;
    }
  }

  // ------------------------------------------------------------------ epochs

  /** The environment after the first n rotations. */
  function After(v: Env, signing: seq<string>, user: seq<string>, n: nat): Env
    requires n <= |signing| && n <= |user|
  {
    if n == 0 then v else Rotated(After(v, signing, user, n - 1), signing[n - 1], user[n - 1])
  }

  /** The secret of epoch n, by the first one and those the rotations brought. */
  function Secret(first: string, later: seq<string>, n: nat): string
    requires n <= |later|
  {
    if n == 0 then first else later[n - 1]
  }

  /** No secret, the first included, is empty or used in two epochs. */
  ghost predicate DistinctSecrets(first: string, later: seq<string>) {
    && (forall i :: 0 <= i <= |later| ==> Secret(first, later, i) != "")
    && (forall i, j :: 0 <= i < j <= |later| ==> Secret(first, later, i) != Secret(first, later, j))
  }

  /** One rotation, name by name: what was current is previous, the alias and the
      current slot are new, and no other variable changes. */
  lemma RotationByName(v: Env, newSigning: string, newUser: string)
    ensures var v', live := Rotated(v, newSigning, newUser), Get(v, JwtSigningSecretCurrent);
      var signing := if live != "" then live else Get(v, JwtSecret);
      && Get(v', JwtSigningSecretCurrent) == Get(v', JwtSecret) == newSigning && Get(v', UserJwtSecret) == newUser
      && Get(v', JwtSigningSecretPrevious) == (if signing != "" then signing else Get(v, JwtSigningSecretPrevious))
      && Get(v', UserJwtSecretPrevious)
         == (if Get(v, UserJwtSecret) != "" then Get(v, UserJwtSecret) else Get(v, UserJwtSecretPrevious))
      && forall name :: Get(v', Other(name)) == Get(v, Other(name))
  {
  }

  lemma RotationMovesTheSecret(v: Env, newSigning: string, newUser: string)
    requires SigningSecret(v) != "" && newSigning != ""
    ensures SigningSecret(Rotated(v, newSigning, newUser)) == newSigning
    ensures Get(Rotated(v, newSigning, newUser), JwtSigningSecretPrevious) == SigningSecret(v)
  {
  }

  lemma {:induction false} EpochSecrets(v: Env, signing: seq<string>, user: seq<string>, n: nat)
    requires n <= |signing| && n <= |user| && DistinctSecrets(SigningSecret(v), signing)
    ensures SigningSecret(After(v, signing, user, n)) == Secret(SigningSecret(v), signing, n)
    ensures n > 0 ==>
      Get(After(v, signing, user, n), JwtSigningSecretPrevious) == Secret(SigningSecret(v), signing, n - 1)
  {
    if n == 0 {
    } else {
      EpochSecrets(v, signing, user, n - 1);
      assert Secret(SigningSecret(v), signing, n - 1) != "" && Secret(SigningSecret(v), signing, n) != "";
      RotationMovesTheSecret(After(v, signing, user, n - 1), signing[n - 1], user[n - 1]);
    }
  }

  /** What the service verifies with, by the two slots of its environment. */
  lemma LoadedSecrets(v: Env, issuer: string, audience: string, enforce: bool)
    requires SigningSecret(v) != ""
    ensures var s, previous := Load(v, issuer, audience, enforce), Get(v, JwtSigningSecretPrevious);
      && s.EffectiveSigningSecret() == SigningSecret(v)
      && s.VerifySecrets() == if previous == "" || previous == SigningSecret(v) then [SigningSecret(v)]
                              else [SigningSecret(v), previous]
  {
  }

  /** The candidates of epoch n: its own secret first, then the one before. */
  lemma KeysOfEpoch(v: Env, signing: seq<string>, user: seq<string>, n: nat, issuer: string, audience: string,
                    enforce: bool)
    requires n <= |signing| && n <= |user| && DistinctSecrets(SigningSecret(v), signing)
    ensures var s, first := Load(After(v, signing, user, n), issuer, audience, enforce), SigningSecret(v);
      && s.EffectiveSigningSecret() == s.VerifySecrets()[0] == Secret(first, signing, n)
      && (n > 0 ==> s.VerifySecrets() == [Secret(first, signing, n), Secret(first, signing, n - 1)])
  {
    EpochSecrets(v, signing, user, n);
    assert Secret(SigningSecret(v), signing, n) != "";
    LoadedSecrets(After(v, signing, user, n), issuer, audience, enforce);
    if n > 0 {
      var first := SigningSecret(v);
      assert Secret(first, signing, n - 1) != "" && Secret(first, signing, n - 1) != Secret(first, signing, n);
    }
  }

  /** A secret of epoch i is accepted in epoch n exactly for n - i <= 1. */
  lemma SecretVerifiesIffAtMostOneEpochOld(v: Env, signing: seq<string>, user: seq<string>, i: nat, n: nat,
                                           issuer: string, audience: string, enforce: bool)
    requires i <= n <= |signing| && n <= |user| && DistinctSecrets(SigningSecret(v), signing)
    ensures var s := Load(After(v, signing, user, n), issuer, audience, enforce);
      && s.EffectiveSigningSecret() == Secret(SigningSecret(v), signing, n)
      && (Secret(SigningSecret(v), signing, i) in s.VerifySecrets() <==> n - i <= 1)
  {
    KeysOfEpoch(v, signing, user, n, issuer, audience, enforce);
    var first := SigningSecret(v);
    var keys := Load(After(v, signing, user, n), issuer, audience, enforce).VerifySecrets();
    if i == n {
      assert keys[0] == Secret(first, signing, i);
    } else if i + 1 == n {
      assert keys[1] == Secret(first, signing, i);
    } else {
      assert Secret(first, signing, i) != Secret(first, signing, n);
      assert Secret(first, signing, i) != Secret(first, signing, n - 1);
    }
  }

  // ---------------------------------------------------------------- schedules

  /** How many of the rotations have happened by time t. */
  function Epoch(rotations: seq<real>, t: real): (n: nat)
    ensures n <= |rotations|
  {
    if rotations == [] then 0
    else (if rotations[0] <= t then 1 else 0) + Epoch(rotations[1..], t)
  }

  /** An installation whose secrets are rotated at the given times. */
  datatype Schedule = Schedule(start: Env, signing: seq<string>, user: seq<string>, rotations: seq<real>,
                               issuer: string, audience: string, enforce: bool)
  {
    ghost predicate Ok() {
      && |signing| == |user| == |rotations| && DistinctSecrets(SigningSecret(start), signing)
      && (forall i, j :: 0 <= i < j < |rotations| ==> rotations[i] <= rotations[j])
      && (enforce ==> issuer != "" && audience != "")
    }

    /** The settings in force at time t. */
    function At(t: real): Settings
      requires |signing| == |user| == |rotations|
    {
      Load(After(start, signing, user, Epoch(rotations, t)), issuer, audience, enforce)
    }
  }

  /** The claims of a token minted at `minted` with a lifetime of `ttl` seconds. */
  predicate Lives(d: Schedule, c: Claims, minted: real, ttl: real) {
    c.iat == minted.Floor && c.exp == (minted + ttl).Floor && c.iss == d.issuer && c.aud == d.audience
  }

  /** Signed at `minted`, presented at `at`. */
  predicate Accepted(d: Schedule, c: Claims, minted: real, at: real)
    requires |d.signing| == |d.user| == |d.rotations|
  {
    Verifies(d.At(at), d.At(at).VerifySecrets(), Signed(d.At(minted).EffectiveSigningSecret(), c), at)
  }

  /** A token that has not expired is accepted exactly when at most one rotation has
      happened since it was signed. */
  lemma TokenVerifiesIffAtMostOneRotation(d: Schedule, c: Claims, minted: real, ttl: real, at: real)
    requires d.Ok() && Lives(d, c, minted, ttl) && minted <= at < c.exp as real
    ensures Accepted(d, c, minted, at) <==> Epoch(d.rotations, at) - Epoch(d.rotations, minted) <= 1
  {
    var i, n := Epoch(d.rotations, minted), Epoch(d.rotations, at);
    EpochsAdvance(d.rotations, minted, at);
    SecretVerifiesIffAtMostOneEpochOld(d.start, d.signing, d.user, i, i, d.issuer, d.audience, d.enforce);
    SecretVerifiesIffAtMostOneEpochOld(d.start, d.signing, d.user, i, n, d.issuer, d.audience, d.enforce);
    var key := Secret(SigningSecret(d.start), d.signing, i);
    assert minted.Floor as real <= minted && key != "";
    assert Accepts(d.At(at), key, Signed(key, c), at);
  }

  lemma {:induction false} EpochsAdvance(rotations: seq<real>, m: real, t: real)
    requires m <= t
    ensures Epoch(rotations, m) <= Epoch(rotations, t)
  {
    if rotations == [] {
    } else {
      EpochsAdvance(rotations[1..], m, t);
    }
  }

  predicate Between(m: real, r: real, t: real) {
    m < r <= t
  }

  lemma {:induction false} NoneBetween(rotations: seq<real>, m: real, t: real)
    requires forall j :: 0 <= j < |rotations| ==> !Between(m, rotations[j], t)
    requires m <= t
    ensures Epoch(rotations, t) == Epoch(rotations, m)
  {
    if rotations == [] {
    } else {
      NoneBetween(rotations[1..], m, t);
    }
  }

  lemma {:induction false} AtMostOneBetween(rotations: seq<real>, m: real, t: real)
    requires forall i, j :: 0 <= i < j < |rotations| ==> !Between(m, rotations[i], t) || !Between(m, rotations[j], t)
    requires m <= t
    ensures Epoch(rotations, t) <= Epoch(rotations, m) + 1
  {
    if rotations == [] {
    } else {
      var rest := rotations[1..];
      assert forall j :: 0 <= j < |rest| ==> rest[j] == rotations[j + 1];
      if Between(m, rotations[0], t) {
        NoneBetween(rest, m, t);
      } else {
        AtMostOneBetween(rest, m, t);
      }
    }
  }

  lemma {:induction false} OneBetween(rotations: seq<real>, k: nat, m: real, t: real)
    requires k < |rotations| && Between(m, rotations[k], t)
    ensures Epoch(rotations, t) >= Epoch(rotations, m) + 1
  {
    EpochsAdvance(rotations[1..], m, t);
    if k == 0 {
    } else {
      OneBetween(rotations[1..], k - 1, m, t);
    }
  }

  lemma {:induction false} TwoBetween(rotations: seq<real>, i: nat, j: nat, m: real, t: real)
    requires i < j < |rotations| && Between(m, rotations[i], t) && Between(m, rotations[j], t)
    ensures Epoch(rotations, t) >= Epoch(rotations, m) + 2
  {
    if i == 0 {
      OneBetween(rotations[1..], j - 1, m, t);
    } else {
      TwoBetween(rotations[1..], i - 1, j - 1, m, t);
    }
  }

  // -------------------------------------------------------- the exact spacing

  /** What was signed just before a rotation has expired by the first whole second
      after the next one (expiry times are whole seconds). */
  ghost predicate Spaced(rotations: seq<real>, ttl: real) {
    forall i, j :: 0 <= i < j < |rotations| ==> rotations[j].Floor as real + 1.0 >= rotations[i] + ttl
  }

  ghost predicate EveryTokenLasts(d: Schedule, ttl: real)
    requires |d.signing| == |d.user| == |d.rotations|
  {
    forall c, minted, at {:trigger Lives(d, c, minted, ttl), Accepted(d, c, minted, at)} ::
      Lives(d, c, minted, ttl) && minted <= at < c.exp as real ==> Accepted(d, c, minted, at)
  }

  lemma SpacedTokensLast(d: Schedule, ttl: real, c: Claims, minted: real, at: real)
    requires d.Ok() && Spaced(d.rotations, ttl) && Lives(d, c, minted, ttl) && minted <= at < c.exp as real
    ensures Accepted(d, c, minted, at)
  {
    assert c.exp as real <= minted + ttl;
    forall i, j | 0 <= i < j < |d.rotations|
      ensures !Between(minted, d.rotations[i], at) || !Between(minted, d.rotations[j], at)
    {
      assert d.rotations[j] <= at ==> c.exp >= d.rotations[j].Floor + 1;
    }
    AtMostOneBetween(d.rotations, minted, at);
    TokenVerifiesIffAtMostOneRotation(d, c, minted, ttl, at);
  }

  /** A token signed early enough before two rotations that come too close. */
  lemma CloseRotationsLoseAToken(d: Schedule, ttl: real, i: nat, j: nat) returns (c: Claims, minted: real, at: real)
    requires d.Ok() && i < j < |d.rotations| && d.rotations[j].Floor as real + 1.0 < d.rotations[i] + ttl
    ensures Lives(d, c, minted, ttl) && minted <= at < c.exp as real && !Accepted(d, c, minted, at)
  {
    var exp := d.rotations[j].Floor + 1;
    minted, at := exp as real - ttl, d.rotations[j];
    c := Claims("service:a", "a", "service", "", minted.Floor, exp, d.issuer, d.audience, "", "", "", None);
    assert (minted + ttl).Floor == exp;
    TwoBetween(d.rotations, i, j, minted, at);
    TokenVerifiesIffAtMostOneRotation(d, c, minted, ttl, at);
  }

  /** Every token is accepted until it expires exactly when the rotations are spaced. */
  lemma EveryTokenLastsIffSpaced(d: Schedule, ttl: real)
    requires d.Ok()
    ensures EveryTokenLasts(d, ttl) <==> Spaced(d.rotations, ttl)
  {
    if Spaced(d.rotations, ttl) {
      forall c, minted, at | Lives(d, c, minted, ttl) && minted <= at < c.exp as real
        ensures Accepted(d, c, minted, at)
      {
        SpacedTokensLast(d, ttl, c, minted, at);
      }
    } else {
      var i, j :| 0 <= i < j < |d.rotations| && !(d.rotations[j].Floor as real + 1.0 >= d.rotations[i] + ttl);
      var c, minted, at := CloseRotationsLoseAToken(d, ttl, i, j);
      assert Lives(d, c, minted, ttl) && !Accepted(d, c, minted, at);
    }
  }

  /** The runbook's rule, rotations at least one token lifetime apart, is enough. */
  lemma OneLifetimeApartIsSpaced(rotations: seq<real>, ttl: real)
    requires forall i, j :: 0 <= i < j < |rotations| ==> rotations[j] - rotations[i] >= ttl
    ensures Spaced(rotations, ttl)
  {
    forall i, j | 0 <= i < j < |rotations| ensures rotations[j].Floor as real + 1.0 >= rotations[i] + ttl {
      assert rotations[j] - rotations[i] >= ttl;
    }
  }

  /** Service and delegated tokens alike. */
  lemma MintedTokensLast(d: Schedule, minutes: nat, minted: real, at: real, subject: string, client: string,
                         scopes: seq<string>, tenant: string, version: int, jti: string)
    requires d.Ok() && Spaced(d.rotations, 60.0 * minutes as real)
    requires minted <= at < (minted + 60.0 * minutes as real).Floor as real
    ensures var signer, keys := d.At(minted), d.At(at).VerifySecrets();
      && Verifies(d.At(at), keys, MintService(signer, subject, client, scopes, minted, minutes), at)
      && Verifies(d.At(at), keys,
                  MintDelegated(signer, subject, client, tenant, "LENS", scopes, version, jti, minted, minutes), at)
  {
    var ttl := 60.0 * minutes as real;
    var service := MintService(d.At(minted), subject, client, scopes, minted, minutes);
    var delegated := MintDelegated(d.At(minted), subject, client, tenant, "LENS", scopes, version, jti, minted,
                                   minutes);
    SpacedTokensLast(d, ttl, service.claims, minted, at);
    SpacedTokensLast(d, ttl, delegated.claims, minted, at);
  }

  // ------------------------------------------------------- secrets of users

  /** What is accepted: the two slots, current first, blanks and a repetition left out. */
  lemma UserSecretsAre(v: Env)
    ensures var current, previous := Get(v, UserJwtSecret), Get(v, UserJwtSecretPrevious);
      && (forall x :: x in UserVerifySecrets(v) <==> x != "" && (x == current || x == previous))
      && (forall i, j :: 0 <= i < j < |UserVerifySecrets(v)| ==> UserVerifySecrets(v)[i] != UserVerifySecrets(v)[j])
      && (current != "" ==> UserVerifySecrets(v)[0] == current)
  {
  }

  lemma RotationMovesTheUserSecret(v: Env, newSigning: string, newUser: string)
    requires Get(v, UserJwtSecret) != "" && newUser != ""
    ensures Get(Rotated(v, newSigning, newUser), UserJwtSecret) == newUser
    ensures Get(Rotated(v, newSigning, newUser), UserJwtSecretPrevious) == Get(v, UserJwtSecret)
  {
  }

  /** The two slots for user tokens after n rotations. */
  lemma {:induction false} UserEpochSecrets(v: Env, signing: seq<string>, user: seq<string>, n: nat)
    requires n <= |signing| && n <= |user| && DistinctSecrets(Get(v, UserJwtSecret), user)
    ensures var first, env := Get(v, UserJwtSecret), After(v, signing, user, n);
      && Get(env, UserJwtSecret) == Secret(first, user, n)
      && (n > 0 ==> Get(env, UserJwtSecretPrevious) == Secret(first, user, n - 1))
  {
    if n == 0 {
    } else {
      UserEpochSecrets(v, signing, user, n - 1);
      var first := Get(v, UserJwtSecret);
      assert Secret(first, user, n - 1) != "" && Secret(first, user, n) != "";
      RotationMovesTheUserSecret(After(v, signing, user, n - 1), signing[n - 1], user[n - 1]);
    }
  }

  /** User tokens have the same overlap: from the first rotation on the secrets
      accepted are the current one and the one before, so that of epoch i is accepted
      in epoch n exactly for n - i <= 1. */
  lemma UserSecretsOverlapOneRotation(v: Env, signing: seq<string>, user: seq<string>, i: nat, n: nat)
    requires i <= n <= |signing| && n <= |user| && DistinctSecrets(Get(v, UserJwtSecret), user)
    ensures var first, accepted := Get(v, UserJwtSecret), UserVerifySecrets(After(v, signing, user, n));
      && (n > 0 ==> accepted == [Secret(first, user, n), Secret(first, user, n - 1)])
      && (Secret(first, user, i) in accepted <==> n - i <= 1)
  {
    var first := Get(v, UserJwtSecret);
    UserEpochSecrets(v, signing, user, n);
    assert Secret(first, user, n) != "";
    if n > 0 {
      assert Secret(first, user, n - 1) != "" && Secret(first, user, n - 1) != Secret(first, user, n);
    }
    if i + 1 < n {
      assert Secret(first, user, i) != Secret(first, user, n) && Secret(first, user, i) != Secret(first, user, n - 1);
    }
  }

  /** Two rotations after it was signed a token is never accepted, expired or not. */
  lemma TwoRotationsRetireAToken(v: Env, signing: seq<string>, user: seq<string>, i: nat, n: nat,
                                 issuer: string, audience: string, enforce: bool, t: Token, at: real)
    requires i + 2 <= n <= |signing| && n <= |user| && DistinctSecrets(SigningSecret(v), signing)
    requires t.key == Secret(SigningSecret(v), signing, i)
    ensures var s := Load(After(v, signing, user, n), issuer, audience, enforce); !Verifies(s, s.VerifySecrets(), t, at)
  {
    SecretVerifiesIffAtMostOneEpochOld(v, signing, user, i, n, issuer, audience, enforce);
  }
}
