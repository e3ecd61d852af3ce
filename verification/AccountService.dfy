/**
  The same operations as the code runs them: statements on a session, any of which
  may fail, then a commit or a rollback.  Each method is proved equal to its step
  in the state machine of module Accounts.
 */
module AccountService {
  import opened Accounts
  import opened Base
  import opened Draws
  import opened KeyFormat
  import opened Scopes
  import opened Sessions
  import opened Text

  /** iam.validate_scope_array: stops at the first scope outside the grammar. */
  method ValidateScopeArray(scopes: seq<string>) returns (ok: bool)
    ensures ok <==> ScopesValid(scopes)
  {
    for i := 0 to |scopes|
      invariant forall k :: 0 <= k < i ==> WellFormedScope(scopes[k])
    {
      if !WellFormedScope(scopes[i]) {
        return false;
      }
    }
    return true;
  }

  method IssueUserApiKey(s: Store, u: UserId, scopes: seq<string>, draws: seq<Draw>, expiresAt: Option<int>)
    returns (staged: Store, o: Outcome)
    ensures (staged, o) == IssueKey(s, u, scopes, draws, expiresAt)
  {
    if u !in s.users {
      return s, NotFound;
    }
    if !s.users[u].active {
      return s, UserIsInactive;
    }
    var valid := ValidateScopeArray(scopes);
    if !valid {
      return s, InvalidScope;
    }
    var n := DrawUntilFree(draws, TakenIn(s.keys));
    if n == |draws| || !draws[n].Ok() {
      return s, Unavailable;
    }
    var d := draws[n];
    staged := s.(keys := s.keys[d.id := NewKey(u, d, scopes, expiresAt)]);
    staged := staged.(events := staged.events + [KeyIssued(u, d.id)]);
    o := Issued(u, d.id, d.Raw());
  }

  /** INSERT INTO iam.users violates a unique constraint. */
  predicate Conflicts(s: Store, email: string, newUser: UserId) {
    newUser in s.users || exists u :: u in s.users && s.users[u].email == Lower(email)
  }

  predicate ActiveUser(s: Store, u: UserId) {
    u in s.users && s.users[u].active
  }

  class AccountService {
    const session: Session<Store>

    constructor (s: Session<Store>)
      ensures session == s
    {
      session := s;
    }

    method LogEvent(e: Event)
      modifies session
      ensures session.staged == old(session.staged).(events := old(session.staged).events + [e])
    {
      session.staged := session.staged.(events := session.staged.events + [e]);
    }

    /** INSERT INTO iam.users; false on a unique violation. */
    method InsertUser(email: string, newUser: UserId) returns (ok: bool)
      modifies session
      ensures ok <==> !Conflicts(old(session.staged), email, newUser)
      ensures var before := old(session.staged);
        session.staged == if ok then before.(users := before.users[newUser := User(Lower(email), true)]) else before
    {
      ok := !Conflicts(session.staged, email, newUser);
      if ok {
        session.staged := session.staged.(users := session.staged.users[newUser := User(Lower(email), true)]);
      }
    }

    /** Statements: the account (1), its event (2), the commit (3).  Whichever fails,
        nothing is left behind, neither committed nor in the session. */
    method CreateAccount(email: string, newUser: UserId, faultAt: nat) returns (o: Outcome)
      modifies session, session.db
      ensures session.staged == session.db.rows
      ensures var before := old(session.db.rows);
        var fault := faultAt == 1 || (2 <= faultAt <= 3 && !Conflicts(before, email, newUser));
        (session.db.rows, o) == Apply(before, Create(email, newUser, fault))
    {
      session.Begin();
      if faultAt == 1 {
        session.Rollback();
        return Unavailable;
      }
      var inserted := InsertUser(email, newUser);
      if !inserted {
        session.Rollback();
        return Conflict;
      }
      if faultAt == 2 {
        session.Rollback();
        return Unavailable;
      }
      LogEvent(UserCreated(newUser));
      if faultAt == 3 {
        session.Rollback();
        return Unavailable;
      }
      session.Commit();
      return Created(newUser);
    }

    /** Nothing is touched without a valid approval code.  Statements: the update with
        its trigger (1), the event (2), the commit (3). */
    method DeleteAccount(target: UserId, expected: Option<string>, provided: Option<string>, now: int, faultAt: nat)
      returns (o: Outcome)
      modifies session, session.db
      ensures Approved(expected, provided) ==> session.staged == session.db.rows
      ensures var before := old(session.db.rows);
        var fault := faultAt == 1 || (2 <= faultAt <= 3 && ActiveUser(before, target));
        (session.db.rows, o) == Apply(before, Delete(target, expected, provided, now, fault))
    {
      if !Approved(expected, provided) {
        return ApprovalRequired;
      }
      session.Begin();
      if faultAt == 1 {
        session.Rollback();
        return Unavailable;
      }
      if !ActiveUser(session.staged, target) {
        session.Rollback();
        return NotFound;
      }
      session.staged := SetActive(session.staged, target, false, now);
      if faultAt == 2 {
        session.Rollback();
        return Unavailable;
      }
      LogEvent(UserDeletedViaApi(target));
      if faultAt == 3 {
        session.Rollback();
        return Unavailable;
      }
      session.Commit();
      return Deleted(target);
    }

    /** One SQL function: upserts by email (reactivating a known account) and issues a
        key; an exception takes the reactivation back with it. */
    method ProvisionUserApiKey(email: string, newUser: UserId, scopes: seq<string>, draws: seq<Draw>,
                               expiresAt: Option<int>, now: int) returns (o: Outcome)
      requires UniqueEmails(session.db.rows.users)
      modifies session, session.db
      ensures session.staged == session.db.rows
      ensures (session.db.rows, o)
              == Apply(old(session.db.rows), Provision(email, newUser, scopes, draws, expiresAt, now))
    {
      session.Begin();
      var address, owner := Lower(TrimBlanks(email)), newUser;
      if u :| u in session.staged.users.Keys && session.staged.users[u].email == address {
        owner := u;
        session.staged := SetActive(session.staged, u, true, now);
      } else if newUser in session.staged.users {
        session.Rollback();
        return Unavailable;
      } else {
        session.staged := session.staged.(users := session.staged.users[newUser := User(address, true)]);
      }
      var issued, outcome := IssueUserApiKey(session.staged, owner, scopes, draws, expiresAt);
      if !outcome.Issued? {
        session.Rollback();
        return outcome;
      }
      session.staged := issued;
      session.Commit();
      return outcome;
    }

    /** The join of iam.user_api_keys and iam.users on the presented key. */
    method SelectKey(prefix: string, raw: string) returns (row: Option<KeyId>)
      requires UniquePrefixes(session.staged.keys)
      ensures row == Presented(session.staged, prefix, raw)
    {
      row := None;
      if k :| k in session.staged.keys.Keys && session.staged.keys[k].prefix == prefix
              && session.staged.keys[k].hash == Bcrypt(raw) {
        if session.staged.keys[k].user in session.staged.users {
          row := Some(k);
        }
      }
    }

    /** Statements: the lookup (1), then the audit event or the last use (2), then the
        commit (3).  A refusal is committed before the error is raised, so the
        rollback in the handler does not take it back. */
    method VerifyUserApiKey(raw: string, now: int, faultAt: nat) returns (o: Outcome)
      requires UniquePrefixes(session.db.rows.keys)
      modifies session, session.db
      ensures ExtractKeyPrefix(raw).Some? ==> session.staged == session.db.rows
      ensures (session.db.rows, o) == Apply(old(session.db.rows), Verify(raw, now, 1 <= faultAt <= 3))
    {
      var prefix := ExtractKeyPrefix(raw);
      if prefix.None? {
        return InvalidApiKey;
      }
      session.Begin();
      if faultAt == 1 {
        session.Rollback();
        return Unavailable;
      }
      var row := SelectKey(prefix.value, raw);
      var failure := Judge(session.staged, row, now);
      if faultAt == 2 {
        session.Rollback();
        return Unavailable;
      }
      if failure.Some? {
        LogEvent(KeyRejected(row, failure.value));
        if faultAt == 3 {
          session.Rollback();
          return Unavailable;
        }
        session.Commit();
        session.Rollback();
        return RefusalOf(failure.value);
      }
      var key := session.staged.keys[row.value];
      session.staged := session.staged.(keys := session.staged.keys[row.value := key.(lastUsedAt := Some(now))]);
      if faultAt == 3 {
        session.Rollback();
        return Unavailable;
      }
      session.Commit();
      return Verified(key.user, key.scopes);
    }
  }
}
