/**
  scripts/provision_db_service_client.py as it runs: ordered statements on one
  session, any of which may fail, committed at the end or rolled back.
 */
module ProvisioningScript {
  import opened Base
  import opened Draws
  import opened Scopes
  import opened ServiceClients
  import opened Sessions
  import opened Text

  /** One INSERT ... ON CONFLICT DO NOTHING per scope, statements `first` and up; a
      scope outside the grammar violates the CHECK constraint. */
  method GrantManualScopes(clients: Clients, c: string, scopes: set<string>, first: nat, faultAt: nat)
    returns (granted: Clients, ok: bool)
    requires c in clients
    ensures ok <==> (forall s :: s in scopes ==> WellFormedScope(s)) && !(first <= faultAt < first + |scopes|)
    ensures ok ==> granted == GrantScopes(clients, c, scopes)
  {
    granted := clients;
    var left, statement := scopes, first;
    ghost var done: set<string> := {};
    NothingGranted(clients, c);
    while left != {}
      invariant done + left == scopes && done !! left && |done| + |left| == |scopes| && statement == first + |done|
      invariant !(first <= faultAt < statement)
      invariant forall s :: s in done ==> WellFormedScope(s)
      invariant c in granted && granted == GrantScopes(clients, c, done)
      decreases left
    {
      var s :| s in left;
      if faultAt == statement {
        return granted, false;
      }
      if !WellFormedScope(s) {
        return granted, false;
      }
      OneMoreGranted(clients, c, done, s);
      granted := granted[c := granted[c].(scopes := granted[c].scopes + {s})];
      done, left, statement := done + {s}, left - {s}, statement + 1;
    }
    return granted, true;
  }

  lemma NothingGranted(clients: Clients, c: string)
    requires c in clients
    ensures GrantScopes(clients, c, {}) == clients
  {
    assert clients[c].scopes + {} == clients[c].scopes;
  }

  lemma OneMoreGranted(clients: Clients, c: string, done: set<string>, s: string)
    requires c in clients
    ensures GrantScopes(GrantScopes(clients, c, done), c, {s}) == GrantScopes(clients, c, done + {s})
  {
    assert clients[c].scopes + (done + {s}) == clients[c].scopes + done + {s};
  }

  method Issue(r: Registry, a: Args, draws: seq<Draw>) returns (issued: Option<(Registry, SecretId, string)>)
    ensures issued == IssueSecret(r, a, draws)
  {
    var explicit := Strip(a.secret);
    if explicit != "" {
      if draws == [] || Taken(r.secrets, a.client, draws[0]) {
        return None;
      }
      var secrets := r.secrets[draws[0].id := NewSecret(a.client, draws[0], explicit, a.expiresAt)];
      return Some((r.(secrets := secrets), draws[0].id, explicit));
    }
    if a.client !in r.clients || !r.clients[a.client].active {
      return None;
    }
    var n := DrawUntilFree(draws, TakenBy(r.secrets, a.client));
    if n == |draws| {
      return None;
    }
    var d := draws[n];
    var secrets := r.secrets[d.id := NewSecret(a.client, d, d.Raw(), a.expiresAt)];
    return Some((Registry(r.clients, secrets, r.events + [SecretIssued(a.client, d.id)]), d.id, d.Raw()));
  }

  /** Statements: select (1), upsert (2), clearing the template scopes of a new client,
      one per granted scope, deactivation, issue, fetch and commit. */
  function StatementCount(r: Registry, a: Args): nat {
    5 + (if a.client !in r.clients && a.leastPrivilege then 1 else 0)
    + |NormalizeScopes(a.requested)| + (if a.keepExisting then 0 else 1)
  }

  /** The script: the statements amount to the provisioning step, and a failure of any
      of them, the commit included, leaves the registry as it was. */
  method ProvisionMain(session: Session<Registry>, t: Template, a: Args, draws: seq<Draw>, now: int, faultAt: nat)
    returns (outcome: Outcome)
    modifies session, session.db
    ensures session.staged == session.db.rows
    ensures var before := old(session.db.rows);
      (session.db.rows, outcome)
      == if 1 <= faultAt <= StatementCount(before, a) then (before, Refused) else Provision(before, t, a, draws, now)
  {
    session.Begin();
    var ok, statement := Prepare(session, t, a, now, faultAt);
    if !ok {
      session.Rollback();
      return Refused;
    }
    var issued := Issue(session.staged, a, draws);
    if issued.None? || faultAt == statement {
      session.Rollback();
      return Refused;
    }
    session.staged := issued.value.0;
    if faultAt == statement + 1 || faultAt == statement + 2 {
      session.Rollback();
      return Refused;
    }
    session.Commit();
    return Provisioned(issued.value.1, issued.value.2);
  }

  /** What the script refuses before it issues a secret. */
  predicate Acceptable(r: Registry, t: Template, a: Args, now: int) {
    && UpsertClient(r, t, a, now).Some?
    && !(a.client !in r.clients && a.leastPrivilege && NormalizeScopes(a.requested) == {})
    && forall s :: s in NormalizeScopes(a.requested) ==> WellFormedScope(s)
  }

  /** Everything up to the issue; `next` is the number of the statement that issues. */
  method Prepare(session: Session<Registry>, t: Template, a: Args, now: int, faultAt: nat) returns (ok: bool, next: nat)
    requires session.staged == session.db.rows
    modifies session
    ensures next == StatementCount(old(session.staged), a) - 2
    ensures ok <==> Acceptable(old(session.staged), t, a, now) && !(1 <= faultAt < next)
    ensures ok ==> session.staged == Prepared(old(session.staged), t, a, now)
  {
    var manual := NormalizeScopes(a.requested);
    var created := a.client !in session.staged.clients;
    next := StatementCount(session.staged, a) - 2;
    var upserted := UpsertClient(session.staged, t, a, now);
    if faultAt == 1 || faultAt == 2 || upserted.None? {
      return false, next;
    }
    session.staged := upserted.value;
    var clients, first := session.staged.clients, 3;
    if created && a.leastPrivilege {
      if manual == {} || faultAt == 3 {
        return false, next;
      }
      clients, first := clients[a.client := clients[a.client].(scopes := {})], 4;
    }
    var granted, grantsOk := GrantManualScopes(clients, a.client, manual, first, faultAt);
    if !grantsOk {
      return false, next;
    }
    session.staged := session.staged.(clients := granted);
    if !a.keepExisting {
      if faultAt == first + |manual| {
        return false, next;
      }
      session.staged := session.staged.(secrets := DeactivateSecrets(session.staged.secrets, a.client, now));
    }
    return true, next;
  }
}
