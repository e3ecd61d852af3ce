/**
  The service-client registry: clients, their scope grants and secrets, the
  triggers on them, and the provisioning script that runs as one transaction.
 */
module ServiceClients {
  import opened Base
  import opened Draws
  import opened Scopes
  import opened Text

  type SecretId = nat

  datatype Client = Client(appType: string, active: bool, revokedAt: Option<int>, scopes: set<string>)

  datatype Secret = Secret(client: string, prefix: string, hash: Hash, active: bool,
                           revokedAt: Option<int>, expiresAt: Option<int>)
  {
    predicate Usable(now: int) {
      active && revokedAt.None? && (expiresAt.None? || now < expiresAt.value)
    }
  }

  datatype Event =
    | ClientDisabled(client: string)
    | SecretIssued(client: string, secret: SecretId)
    | ServiceTokenIssued(client: string)

  type Clients = map<string, Client>
  type Secrets = map<SecretId, Secret>

  datatype Registry = Registry(clients: Clients, secrets: Secrets, events: seq<Event>)

  /** Default scopes per application type; a type may opt out of them. */
  datatype Template = Template(types: set<string>, defaults: map<string, set<string>>,
                               leastPrivilegeTypes: set<string>) {
    function ScopesFor(appType: string): set<string> {
      if appType in leastPrivilegeTypes || appType !in defaults then {} else defaults[appType]
    }
  }

  datatype Draw = Draw(id: SecretId, prefix: string, secret: string) {
    function Raw(): string {
      "teb_sk_" + prefix + "_" + secret
    }
  }

  datatype Args = Args(client: string, appType: string, requested: seq<string>, leastPrivilege: bool,
                       secret: string, expiresAt: Option<int>, allowExisting: bool, keepExisting: bool)

  datatype Outcome = Provisioned(secret: SecretId, raw: string) | Refused

  // ------------------------------------------------------------- statements

  function NormalizeScopes(values: seq<string>): (r: set<string>)
    ensures forall s :: s in r <==> s != "" && exists v :: v in values && Strip(v) == s
  {
    set v | v in values && Strip(v) != "" :: Strip(v)
  }

  function DeactivateSecrets(secrets: Secrets, client: string, now: int): Secrets {
    map k | k in secrets ::
      if secrets[k].client == client && secrets[k].active then
        secrets[k].(active := false,
                    revokedAt := if secrets[k].revokedAt.Some? then secrets[k].revokedAt else Some(now))
      else secrets[k]
  }

  /** UPDATE iam.service_clients SET is_active, with the revoke-on-disable trigger. */
  function SetActive(r: Registry, c: string, active: bool, revokedAt: Option<int>, now: int): Registry
    requires c in r.clients
  {
    var clients := r.clients[c := r.clients[c].(active := active, revokedAt := revokedAt)];
    if r.clients[c].active && !active then
      Registry(clients, DeactivateSecrets(r.secrets, c, now), r.events + [ClientDisabled(c)])
    else r.(clients := clients)
  }

  /** Updates and reactivates a known client, or inserts one with its template scopes;
      the application type must be a known one. */
  function UpsertClient(r: Registry, t: Template, a: Args, now: int): Option<Registry> {
    if a.appType !in t.types then None
    else if a.client in r.clients then
      if !a.allowExisting then None
      else
        var updated := SetActive(r, a.client, true, None, now);
        Some(updated.(clients := updated.clients[a.client := updated.clients[a.client].(appType := a.appType)]))
    else Some(r.(clients := r.clients[a.client := Client(a.appType, true, None, t.ScopesFor(a.appType))]))
  }

  function GrantScopes(clients: Clients, c: string, scopes: set<string>): Clients
    requires c in clients
  {
    clients[c := clients[c].(scopes := clients[c].scopes + scopes)]
  }

  predicate Taken(secrets: Secrets, c: string, d: Draw) {
    d.id in secrets || exists k :: k in secrets && secrets[k].client == c && secrets[k].prefix == d.prefix
  }

  function TakenBy(secrets: Secrets, c: string): Draw -> bool {
    d => Taken(secrets, c, d)
  }

  function NewSecret(c: string, d: Draw, raw: string, expiresAt: Option<int>): Secret {
    Secret(c, d.prefix, Bcrypt(raw), true, None, expiresAt)
  }

  /** An explicit secret is inserted once; a generated one is redrawn until its
      prefix is free, and logged. */
  function IssueSecret(r: Registry, a: Args, draws: seq<Draw>): Option<(Registry, SecretId, string)> {
    if Strip(a.secret) != "" then
      if draws == [] || Taken(r.secrets, a.client, draws[0]) then None
      else
        Some((r.(secrets := r.secrets[draws[0].id := NewSecret(a.client, draws[0], Strip(a.secret), a.expiresAt)]),
              draws[0].id, Strip(a.secret)))
    else if a.client !in r.clients || !r.clients[a.client].active then None
    else
      var n := FirstFree(draws, TakenBy(r.secrets, a.client));
      if n == |draws| then None
      else
        var d := draws[n];
        Some((Registry(r.clients, r.secrets[d.id := NewSecret(a.client, d, d.Raw(), a.expiresAt)],
                       r.events + [SecretIssued(a.client, d.id)]),
              d.id, d.Raw()))
  }

  /** The whole script: all of it is committed, or none. */
  function Provision(r: Registry, t: Template, a: Args, draws: seq<Draw>, now: int): (Registry, Outcome) {
    var manual := NormalizeScopes(a.requested);
    var created := a.client !in r.clients;
    var upserted := UpsertClient(r, t, a, now);
    if upserted.None? then (r, Refused)
    else if created && a.leastPrivilege && manual == {} then (r, Refused)
    else if exists s :: s in manual && !WellFormedScope(s) then (r, Refused)
    else
      var r1 := upserted.value;
      var cleared :=
        if created && a.leastPrivilege then r1.clients[a.client := r1.clients[a.client].(scopes := {})]
        else r1.clients;
      var r2 := r1.(clients := GrantScopes(cleared, a.client, manual));
      var r3 := if a.keepExisting then r2 else r2.(secrets := DeactivateSecrets(r2.secrets, a.client, now));
      match IssueSecret(r3, a, draws)
      case None => (r, Refused)
      case Some((r4, id, raw)) => (r4, Provisioned(id, raw))
  }

  datatype Op =
    | Run(t: Template, a: Args, draws: seq<Draw>, now: int)
    | Administer(client: string, active: bool, revokedAt: Option<int>, now: int)
    | Authenticate(client: string, raw: string, now: int)

  /** get_service_client and the secret lookup, in database mode. */
  predicate Authenticates(r: Registry, c: string, raw: string, now: int) {
    && c in r.clients && r.clients[c].active && r.clients[c].revokedAt.None?
    && exists k ::
         k in r.secrets && r.secrets[k].client == c && r.secrets[k].hash == Bcrypt(raw) && r.secrets[k].Usable(now)
  }

  function Apply(r: Registry, op: Op): Registry {
    match op
    case Run(t, a, draws, now) => Provision(r, t, a, draws, now).0
    case Administer(c, active, revokedAt, now) => if c in r.clients then SetActive(r, c, active, revokedAt, now) else r
    case Authenticate(c, raw, now) =>
      if raw != "" && Authenticates(r, c, raw, now) then r.(events := r.events + [ServiceTokenIssued(c)]) else r
  }

  function RunAll(r: Registry, ops: seq<Op>): Registry
    decreases |ops|
  {
    if ops == [] then r else RunAll(Apply(r, ops[0]), ops[1..])
  }

  // -------------------------------------------------------------- invariant

  /** An active secret is unrevoked and belongs to an active client. */
  predicate SecretOk(r: Registry, k: SecretId) {
    k in r.secrets && r.secrets[k].client in r.clients
    && (r.secrets[k].active ==> r.secrets[k].revokedAt.None? && r.clients[r.secrets[k].client].active)
  }

  ghost predicate Inv(r: Registry) {
    forall k {:trigger SecretOk(r, k)} :: k in r.secrets ==> SecretOk(r, k)
  }

  /** The same secret, and no more usable than before. */
  predicate SecretPersists(r: Registry, r': Registry, k: SecretId) {
    k in r.secrets && k in r'.secrets
    && r'.secrets[k].client == r.secrets[k].client && r'.secrets[k].hash == r.secrets[k].hash
    && (r'.secrets[k].active ==> r.secrets[k].active)
  }

  ghost predicate StepOk(r: Registry, r': Registry) {
    && Inv(r')
    && r.clients.Keys <= r'.clients.Keys
    && forall k {:trigger SecretPersists(r, r', k)} :: k in r.secrets ==> SecretPersists(r, r', k)
  }

  /** The secrets of every other client are as they were. */
  ghost predicate OthersKept(r: Registry, r': Registry, client: string) {
    forall k :: k in r.secrets && r.secrets[k].client != client ==> k in r'.secrets && r'.secrets[k] == r.secrets[k]
  }

  function ActiveSecrets(r: Registry, c: string): set<SecretId> {
    set k | k in r.secrets && r.secrets[k].client == c && r.secrets[k].active
  }

  lemma StepsCompose(r: Registry, mid: Registry, r': Registry)
    requires StepOk(r, mid) && StepOk(mid, r')
    ensures StepOk(r, r')
  {
    forall k | k in r.secrets ensures SecretPersists(r, r', k) {
      assert SecretPersists(r, mid, k) && SecretPersists(mid, r', k);
    }
  }

  lemma SetActiveKeepsInv(r: Registry, c: string, active: bool, revokedAt: Option<int>, now: int)
    requires Inv(r) && c in r.clients
    ensures StepOk(r, SetActive(r, c, active, revokedAt, now))
  {
    var r' := SetActive(r, c, active, revokedAt, now);
    forall k | k in r.secrets ensures SecretOk(r', k) && SecretPersists(r, r', k) {
      assert SecretOk(r, k);
    }
  }

  /** Writing a client that stays active, or was never there, leaves the secrets right. */
  lemma ClientWriteKeepsInv(r: Registry, c: string, client: Client)
    requires Inv(r) && client.active
    ensures StepOk(r, r.(clients := r.clients[c := client]))
  {
    var r' := r.(clients := r.clients[c := client]);
    forall k | k in r.secrets ensures SecretOk(r', k) && SecretPersists(r, r', k) {
      assert SecretOk(r, k);
    }
  }

  lemma DeactivationKeepsInv(r: Registry, c: string, now: int)
    requires Inv(r)
    ensures StepOk(r, r.(secrets := DeactivateSecrets(r.secrets, c, now)))
    ensures ActiveSecrets(r.(secrets := DeactivateSecrets(r.secrets, c, now)), c) == {}
  {
    var r' := r.(secrets := DeactivateSecrets(r.secrets, c, now));
    forall k | k in r.secrets ensures SecretOk(r', k) && SecretPersists(r, r', k) {
      assert SecretOk(r, k);
    }
  }

  lemma NewSecretKeepsInv(r: Registry, id: SecretId, s: Secret, events: seq<Event>)
    requires Inv(r) && id !in r.secrets && s.client in r.clients && r.clients[s.client].active && s.revokedAt.None?
    ensures StepOk(r, Registry(r.clients, r.secrets[id := s], events))
  {
    var r' := Registry(r.clients, r.secrets[id := s], events);
    forall k | k in r'.secrets ensures SecretOk(r', k) {
      assert k != id ==> SecretOk(r, k);
    }
  }

  lemma UpsertKeepsInv(r: Registry, t: Template, a: Args, now: int)
    requires Inv(r) && UpsertClient(r, t, a, now).Some?
    ensures var r' := UpsertClient(r, t, a, now).value;
      StepOk(r, r') && a.client in r'.clients && r'.clients[a.client].active && r'.clients[a.client].revokedAt.None?
      && r'.secrets == r.secrets
  {
    if a.client in r.clients {
      SetActiveKeepsInv(r, a.client, true, None, now);
      var mid := SetActive(r, a.client, true, None, now);
      ClientWriteKeepsInv(mid, a.client, mid.clients[a.client].(appType := a.appType));
      StepsCompose(r, mid, UpsertClient(r, t, a, now).value);
    } else {
      ClientWriteKeepsInv(r, a.client, Client(a.appType, true, None, t.ScopesFor(a.appType)));
    }
  }

  lemma IssueKeepsInv(r: Registry, a: Args, draws: seq<Draw>)
    requires Inv(r) && a.client in r.clients && r.clients[a.client].active && IssueSecret(r, a, draws).Some?
    ensures var (r', id, raw) := IssueSecret(r, a, draws).value;
      && StepOk(r, r') && r'.clients == r.clients && id !in r.secrets
      && id in r'.secrets && r'.secrets == r.secrets[id := r'.secrets[id]]
      && r'.secrets[id].client == a.client && r'.secrets[id].hash == Bcrypt(raw)
      && r'.secrets[id].active && r'.secrets[id].revokedAt.None? && r'.secrets[id].expiresAt == a.expiresAt
  {
    var d := if Strip(a.secret) != "" then draws[0] else draws[FirstFree(draws, TakenBy(r.secrets, a.client))];
    var (r', id, raw) := IssueSecret(r, a, draws).value;
    NewSecretKeepsInv(r, d.id, NewSecret(a.client, d, raw, a.expiresAt), r'.events);
  }

  /** The registry just before the secret is issued. */
  function Prepared(r: Registry, t: Template, a: Args, now: int): Registry
    requires UpsertClient(r, t, a, now).Some?
  {
    var r1 := UpsertClient(r, t, a, now).value;
    var cleared :=
      if a.client !in r.clients && a.leastPrivilege then r1.clients[a.client := r1.clients[a.client].(scopes := {})]
      else r1.clients;
    var r2 := r1.(clients := GrantScopes(cleared, a.client, NormalizeScopes(a.requested)));
    if a.keepExisting then r2 else r2.(secrets := DeactivateSecrets(r2.secrets, a.client, now))
  }

  lemma PreparedKeepsInv(r: Registry, t: Template, a: Args, now: int)
    requires Inv(r) && UpsertClient(r, t, a, now).Some?
    ensures var r' := Prepared(r, t, a, now);
      && StepOk(r, r') && a.client in r'.clients && r'.clients[a.client].active && r'.clients[a.client].revokedAt.None?
      && OthersKept(r, r', a.client)
      && ActiveSecrets(r', a.client) == if a.keepExisting then ActiveSecrets(r, a.client) else {}
  {
    UpsertKeepsInv(r, t, a, now);
    var r1 := UpsertClient(r, t, a, now).value;
    var cleared :=
      if a.client !in r.clients && a.leastPrivilege then r1.clients[a.client].(scopes := {}) else r1.clients[a.client];
    var granted := cleared.(scopes := cleared.scopes + NormalizeScopes(a.requested));
    ClientWriteKeepsInv(r1, a.client, granted);
    var r2 := r1.(clients := r1.clients[a.client := granted]);
    StepsCompose(r, r1, r2);
    DeactivationKeepsInv(r2, a.client, now);
    assert Prepared(r, t, a, now)
           == if a.keepExisting then r2 else r2.(secrets := DeactivateSecrets(r2.secrets, a.client, now));
    if !a.keepExisting {
      StepsCompose(r, r2, Prepared(r, t, a, now));
    }
  }

  /** Provisioning leaves the new secret, and besides it no active secret of the
      client unless told to keep the old ones; other clients' secrets are untouched. */
  lemma ProvisioningLeavesOneSecret(r: Registry, t: Template, a: Args, draws: seq<Draw>, now: int)
    requires Inv(r)
    ensures var (r', outcome) := Provision(r, t, a, draws, now);
      if outcome.Provisioned? then
        && StepOk(r, r')
        && outcome.secret !in r.secrets && outcome.secret in r'.secrets
        && r'.secrets[outcome.secret].hash == Bcrypt(outcome.raw)
        && ActiveSecrets(r', a.client) == (if a.keepExisting then ActiveSecrets(r, a.client) else {}) + {outcome.secret}
        && OthersKept(r, r', a.client)
      else r' == r
  {
    var effect := Provision(r, t, a, draws, now);
    if effect.1.Provisioned? {
      PreparedKeepsInv(r, t, a, now);
      var r3 := Prepared(r, t, a, now);
      IssueKeepsInv(r3, a, draws);
      assert effect.0 == IssueSecret(r3, a, draws).value.0;
      StepsCompose(r, r3, effect.0);
    }
  }

  /** After a rotation, the secret handed out authenticates and no other does. */
  lemma OnlyTheNewSecretAuthenticates(r: Registry, t: Template, a: Args, draws: seq<Draw>, now: int, raw: string,
                                      at: int)
    requires Inv(r) && Provision(r, t, a, draws, now).1.Provisioned? && !a.keepExisting
    ensures var (r', outcome) := Provision(r, t, a, draws, now);
      Authenticates(r', a.client, raw, at) <==> raw == outcome.raw && (a.expiresAt.None? || at < a.expiresAt.value)
  {
    PreparedKeepsInv(r, t, a, now);
    var r3 := Prepared(r, t, a, now);
    IssueKeepsInv(r3, a, draws);
    ProvisioningLeavesOneSecret(r, t, a, draws, now);
    var effect := Provision(r, t, a, draws, now);
    assert effect.0 == IssueSecret(r3, a, draws).value.0;
    forall k | k in effect.0.secrets && effect.0.secrets[k].client == a.client && effect.0.secrets[k].Usable(at)
      ensures k == effect.1.secret
    {
      assert k in ActiveSecrets(effect.0, a.client);
    }
  }

  /** The scopes of a client before those requested are added. */
  function OwnScopes(r: Registry, t: Template, a: Args): set<string> {
    if a.client in r.clients then r.clients[a.client].scopes
    else if a.leastPrivilege || a.appType in t.leastPrivilegeTypes || a.appType !in t.defaults then {}
    else t.defaults[a.appType]
  }

  lemma PreparedClient(r: Registry, t: Template, a: Args, now: int)
    requires UpsertClient(r, t, a, now).Some?
    ensures var r' := Prepared(r, t, a, now);
      && r'.clients == r.clients[a.client := Client(a.appType, true, None,
                                                    OwnScopes(r, t, a) + NormalizeScopes(a.requested))]
      && r'.events == r.events
  {
  }

  /** The client a provisioning leaves: of the asked type, active, not revoked; its
      scopes are those it had, or for a new one those of its type unless least privilege
      is asked for, with the requested ones.  No other client changes. */
  lemma ProvisionedClient(r: Registry, t: Template, a: Args, draws: seq<Draw>, now: int)
    requires Provision(r, t, a, draws, now).1.Provisioned?
    ensures var (r', outcome) := Provision(r, t, a, draws, now);
      && r'.clients == r.clients[a.client := Client(a.appType, true, None,
                                                    OwnScopes(r, t, a) + NormalizeScopes(a.requested))]
      && r'.events == r.events + (if Strip(a.secret) != "" then [] else [SecretIssued(a.client, outcome.secret)])
      && (Strip(a.secret) != "" ==> outcome.raw == Strip(a.secret))
  {
    PreparedClient(r, t, a, now);
    var r3 := Prepared(r, t, a, now);
    assert Provision(r, t, a, draws, now).0 == IssueSecret(r3, a, draws).value.0;
  }

  /** A generated secret is the text of one of the draws, and is stored under its prefix. */
  lemma GeneratedSecretIsADraw(r: Registry, t: Template, a: Args, draws: seq<Draw>, now: int)
    requires Provision(r, t, a, draws, now).1.Provisioned? && Strip(a.secret) == ""
    ensures var (r', outcome) := Provision(r, t, a, draws, now);
      exists i :: 0 <= i < |draws| && outcome.secret == draws[i].id
                  && outcome.raw == "teb_sk_" + draws[i].prefix + "_" + draws[i].secret
                  && draws[i].id in r'.secrets
                  && r'.secrets[draws[i].id]
                     == Secret(a.client, draws[i].prefix, Bcrypt(outcome.raw), true, None, a.expiresAt)
  {
    var r3 := Prepared(r, t, a, now);
    assert Provision(r, t, a, draws, now).0 == IssueSecret(r3, a, draws).value.0;
    var n := FirstFree(draws, TakenBy(r3.secrets, a.client));
    assert Provision(r, t, a, draws, now).1.secret == draws[n].id;
  }

  /** The identifier is in use, or the prefix is in use by the client. */
  predicate Collides(r: Registry, c: string, d: Draw) {
    d.id in r.secrets || exists k :: k in r.secrets && r.secrets[k].client == c && r.secrets[k].prefix == d.prefix
  }

  /** What provisioning refuses: an unknown type, a known client that was not to be
      touched, a new one with no scopes at all, a scope outside the grammar, and draws
      that all collide (for an explicit secret, the first). */
  lemma ProvisioningRefusedIff(r: Registry, t: Template, a: Args, draws: seq<Draw>, now: int)
    ensures Provision(r, t, a, draws, now).1 == Refused <==>
      || a.appType !in t.types
      || (a.client in r.clients && !a.allowExisting)
      || (a.client !in r.clients && a.leastPrivilege && forall v :: v in a.requested ==> Strip(v) == "")
      || (exists v :: v in a.requested && Strip(v) != "" && !WellFormedScope(Strip(v)))
      || draws == []
      || (if Strip(a.secret) != "" then Collides(r, a.client, draws[0])
          else forall i :: 0 <= i < |draws| ==> Collides(r, a.client, draws[i]))
  {
    RefusedBeforeIssuing(r, t, a);
    if UpsertClient(r, t, a, now).Some? {
      SameCollisions(r, t, a, now);
      IssueRefusedIff(Prepared(r, t, a, now), a, draws);
    }
  }

  lemma RefusedBeforeIssuing(r: Registry, t: Template, a: Args)
    ensures NormalizeScopes(a.requested) == {} <==> forall v :: v in a.requested ==> Strip(v) == ""
    ensures (exists s :: s in NormalizeScopes(a.requested) && !WellFormedScope(s))
            <==> exists v :: v in a.requested && Strip(v) != "" && !WellFormedScope(Strip(v))
  {
    forall v | v in a.requested && Strip(v) != "" ensures Strip(v) in NormalizeScopes(a.requested) {
    }
  }

  lemma SameCollisions(r: Registry, t: Template, a: Args, now: int)
    requires UpsertClient(r, t, a, now).Some?
    ensures forall d :: Collides(Prepared(r, t, a, now), a.client, d) <==> Collides(r, a.client, d)
    ensures a.client in Prepared(r, t, a, now).clients && Prepared(r, t, a, now).clients[a.client].active
  {
    var r' := Prepared(r, t, a, now);
    assert r'.secrets.Keys == r.secrets.Keys;
    assert forall k :: k in r.secrets ==>
      r'.secrets[k].client == r.secrets[k].client && r'.secrets[k].prefix == r.secrets[k].prefix;
  }

  /** An explicit secret needs a first draw that collides with nothing; a generated one
      an active client and some draw that does not. */
  lemma IssueRefusedIff(r: Registry, a: Args, draws: seq<Draw>)
    ensures IssueSecret(r, a, draws).None? <==>
      || draws == []
      || (if Strip(a.secret) != "" then Collides(r, a.client, draws[0])
          else || a.client !in r.clients || !r.clients[a.client].active
               || forall i :: 0 <= i < |draws| ==> Collides(r, a.client, draws[i]))
  {
  }

  /** A token is issued, and logged, exactly to an active, unrevoked client that presents
      a secret of its own that is active, unrevoked and not past its expiry. */
  lemma TokenIsIssuedIff(r: Registry, c: string, raw: string, now: int)
    ensures Apply(r, Authenticate(c, raw, now))
            == if && raw != "" && c in r.clients && r.clients[c].active && r.clients[c].revokedAt.None?
                  && exists k :: k in r.secrets && r.secrets[k].client == c && r.secrets[k].hash == Bcrypt(raw)
                                 && r.secrets[k].active && r.secrets[k].revokedAt.None?
                                 && (r.secrets[k].expiresAt.None? || now < r.secrets[k].expiresAt.value)
               then r.(events := r.events + [ServiceTokenIssued(c)]) else r
  {
  }

  /** Disabling: the client is inactive, its active secrets are revoked, the event is
      logged; nothing else changes, and no secret authenticates for it. */
  lemma DisablingByField(r: Registry, c: string, revokedAt: Option<int>, now: int)
    requires Inv(r) && c in r.clients && r.clients[c].active
    ensures var r' := Apply(r, Administer(c, false, revokedAt, now));
      && r'.clients == r.clients[c := r.clients[c].(active := false, revokedAt := revokedAt)]
      && r'.events == r.events + [ClientDisabled(c)] && r'.secrets.Keys == r.secrets.Keys
      && (forall k :: k in r.secrets ==>
            r'.secrets[k] == if r.secrets[k].client == c && r.secrets[k].active
                             then r.secrets[k].(active := false, revokedAt := Some(now)) else r.secrets[k])
      && forall raw, at :: Apply(r', Authenticate(c, raw, at)) == r'
  {
    forall k | k in r.secrets ensures r.secrets[k].active ==> r.secrets[k].revokedAt.None? {
      assert SecretOk(r, k);
    }
  }

  /** Every operation keeps the invariant: an inactive client owns no active secret. */
  lemma ApplyKeepsInv(r: Registry, op: Op)
    requires Inv(r)
    ensures StepOk(r, Apply(r, op))
  {
    match op {
      case Run(t, a, draws, now) =>
        ProvisioningLeavesOneSecret(r, t, a, draws, now);
        NoStepIsOk(r);
      case Administer(c, active, revokedAt, now) =>
        NoStepIsOk(r);
        if c in r.clients {
          SetActiveKeepsInv(r, c, active, revokedAt, now);
        }
      case Authenticate(c, _, _) =>
        NoStepIsOk(r);
        var r' := r.(events := r.events + [ServiceTokenIssued(c)]);
        forall k | k in r.secrets ensures SecretOk(r', k) && SecretPersists(r, r', k) {
          assert SecretOk(r, k);
        }
    }
  }

  /** Over any run: an active secret is unrevoked and its client active; secrets stay,
      with their client and hash, and none that was inactive becomes active. */
  lemma {:induction false} RunKeepsSecretsRetired(r: Registry, ops: seq<Op>)
    requires Inv(r)
    ensures var end := RunAll(r, ops);
      && Inv(end)
      && (forall k :: k in end.secrets && end.secrets[k].active ==>
            && end.secrets[k].revokedAt.None?
            && end.secrets[k].client in end.clients && end.clients[end.secrets[k].client].active)
      && (forall k :: k in r.secrets ==>
            && k in end.secrets
            && end.secrets[k].client == r.secrets[k].client && end.secrets[k].hash == r.secrets[k].hash
            && (end.secrets[k].active ==> r.secrets[k].active))
    decreases |ops|
  {
    if ops == [] {
      forall k | k in r.secrets ensures SecretOk(r, k) {
      }
    } else {
      var next := Apply(r, ops[0]);
      ApplyKeepsInv(r, ops[0]);
      RunKeepsSecretsRetired(next, ops[1..]);
      forall k | k in r.secrets ensures SecretPersists(r, next, k) {
      }
    }
  }

  lemma NoStepIsOk(r: Registry)
    requires Inv(r)
    ensures StepOk(r, r)
  {
  }

  lemma {:induction false} InactiveSecretsStayInactive(r: Registry, ops: seq<Op>, k: SecretId)
    requires Inv(r) && k in r.secrets && !r.secrets[k].active
    ensures var r' := RunAll(r, ops);
      Inv(r') && k in r'.secrets && !r'.secrets[k].active && r'.secrets[k].client == r.secrets[k].client
    decreases |ops|
  {
    if ops == [] {
    } else {
      ApplyKeepsInv(r, ops[0]);
      assert SecretPersists(r, Apply(r, ops[0]), k);
      InactiveSecretsStayInactive(Apply(r, ops[0]), ops[1..], k);
    }
  }

  /** Disabling a client retires every secret it had, for good: provisioning the
      client again brings the client back, never those secrets. */
  lemma DisablingRetiresSecrets(r: Registry, c: string, revokedAt: Option<int>, now: int, later: seq<Op>, k: SecretId)
    requires Inv(r) && c in r.clients && r.clients[c].active && k in r.secrets && r.secrets[k].client == c
    ensures var end := RunAll(Apply(r, Administer(c, false, revokedAt, now)), later);
      k in end.secrets && !end.secrets[k].active && forall at :: !end.secrets[k].Usable(at)
  {
    ApplyKeepsInv(r, Administer(c, false, revokedAt, now));
    InactiveSecretsStayInactive(Apply(r, Administer(c, false, revokedAt, now)), later, k);
  }
}
