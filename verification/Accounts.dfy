/**
  End-user accounts, their API keys and the audit log, as one state machine: the
  account service, key verification, and the triggers and functions of the schema.
 */
module Accounts {
  import opened Base
  import opened Draws
  import opened KeyFormat
  import opened Scopes
  import opened Text

  type UserId = nat
  type KeyId = nat

  datatype User = User(email: string, active: bool)

  datatype Key = Key(user: UserId, prefix: string, hash: Hash, scopes: seq<string>, active: bool,
                     revokedAt: Option<int>, expiresAt: Option<int>, lastUsedAt: Option<int>)
  {
    predicate Enabled() {
      active && revokedAt.None?
    }

    predicate ExpiredAt(now: int) {
      expiresAt.Some? && expiresAt.value <= now
    }
  }

  datatype Reason = UnknownKey | RevokedKey | ExpiredKey | InactiveUser

  datatype Event =
    | UserCreated(user: UserId)
    | UserDisabled(user: UserId)
    | UserDeletedViaApi(user: UserId)
    | KeyIssued(user: UserId, key: KeyId)
    | KeyRejected(presented: Option<KeyId>, reason: Reason)

  type Users = map<UserId, User>
  type Keys = map<KeyId, Key>

  datatype Store = Store(users: Users, keys: Keys, events: seq<Event>)

  datatype Outcome =
    | Created(user: UserId)
    | Deleted(user: UserId)
    | Updated
    | Issued(user: UserId, key: KeyId, raw: string)
    | Verified(user: UserId, scopes: seq<string>)
    | Conflict
    | NotFound
    | ApprovalRequired
    | UserIsInactive
    | InvalidScope
    | InvalidApiKey
    | ApiKeyExpired
    | Unavailable

  // ------------------------------------------------------------- statements

  function DisableKeys(keys: Keys, u: UserId, now: int): Keys {
    map k | k in keys ::
      if keys[k].user == u && keys[k].active then
        keys[k].(active := false, revokedAt := if keys[k].revokedAt.Some? then keys[k].revokedAt else Some(now))
      else keys[k]
  }

  /** UPDATE iam.users SET is_active, with the revoke-on-disable trigger. */
  function SetActive(s: Store, u: UserId, active: bool, now: int): Store
    requires u in s.users
  {
    var users := s.users[u := s.users[u].(active := active)];
    if s.users[u].active && !active then
      Store(users, DisableKeys(s.keys, u, now), s.events + [UserDisabled(u)])
    else Store(users, s.keys, s.events)
  }

  ghost function FindEmail(users: Users, email: string): (r: Option<UserId>)
    ensures r.Some? ==> r.value in users && users[r.value].email == email
    ensures r.None? ==> forall u :: u in users ==> users[u].email != email
  {
    if u :| u in users && users[u].email == email then Some(u) else None
  }

  ghost function FindKey(keys: Keys, prefix: string, raw: string): (r: Option<KeyId>)
    ensures r.Some? ==> r.value in keys && keys[r.value].prefix == prefix && keys[r.value].hash == Bcrypt(raw)
    ensures r.None? ==> forall k :: k in keys && keys[k].prefix == prefix ==> keys[k].hash != Bcrypt(raw)
  {
    if k :| k in keys && keys[k].prefix == prefix && keys[k].hash == Bcrypt(raw) then Some(k) else None
  }

  predicate Taken(keys: Keys, d: Draw) {
    d.id in keys || exists k :: k in keys && keys[k].prefix == d.prefix
  }

  function TakenIn(keys: Keys): Draw -> bool {
    d => Taken(keys, d)
  }

  predicate ScopesValid(scopes: seq<string>) {
    forall i :: 0 <= i < |scopes| ==> WellFormedScope(scopes[i])
  }

  function NewKey(u: UserId, d: Draw, scopes: seq<string>, expiresAt: Option<int>): Key {
    Key(u, d.prefix, Bcrypt(d.Raw()), scopes, true, None, expiresAt, None)
  }

  /** iam.issue_user_api_key; an exception leaves the caller's transaction aborted. */
  function IssueKey(s: Store, u: UserId, scopes: seq<string>, draws: seq<Draw>,
                    expiresAt: Option<int>): (Store, Outcome)
  {
    if u !in s.users then (s, NotFound)
    else if !s.users[u].active then (s, UserIsInactive)
    else if !ScopesValid(scopes) then (s, InvalidScope)
    else
      var n := FirstFree(draws, TakenIn(s.keys));
      if n == |draws| || !draws[n].Ok() then (s, Unavailable)
      else
        (Store(s.users, s.keys[draws[n].id := NewKey(u, draws[n], scopes, expiresAt)],
               s.events + [KeyIssued(u, draws[n].id)]),
         Issued(u, draws[n].id, draws[n].Raw()))
  }

  // ------------------------------------------------------------- operations

  datatype Op =
    | Create(email: string, newUser: UserId, fault: bool)
    | Delete(target: UserId, expected: Option<string>, provided: Option<string>, now: int, fault: bool)
    | Administer(target: UserId, active: bool, now: int)
    | Issue(owner: UserId, scopes: seq<string>, draws: seq<Draw>, expiresAt: Option<int>)
    | Provision(email: string, newUser: UserId, scopes: seq<string>, draws: seq<Draw>, expiresAt: Option<int>, now: int)
    | Verify(raw: string, now: int, fault: bool)

  /** require_account_approval: fails closed without a configured code. */
  predicate Approved(expected: Option<string>, provided: Option<string>) {
    && expected.Some? && Strip(expected.value) != ""
    && provided.Some? && provided.value != "" && Strip(provided.value) == Strip(expected.value)
  }

  ghost function ApplyCreate(s: Store, op: Op): (Store, Outcome)
    requires op.Create?
  {
    if op.fault then (s, Unavailable)
    else if FindEmail(s.users, Lower(op.email)).Some? || op.newUser in s.users then (s, Conflict)
    else (Store(s.users[op.newUser := User(Lower(op.email), true)], s.keys, s.events + [UserCreated(op.newUser)]),
          Created(op.newUser))
  }

  function ApplyDelete(s: Store, op: Op): (Store, Outcome)
    requires op.Delete?
  {
    if !Approved(op.expected, op.provided) then (s, ApprovalRequired)
    else if op.fault then (s, Unavailable)
    else if op.target !in s.users || !s.users[op.target].active then (s, NotFound)
    else
      var disabled := SetActive(s, op.target, false, op.now);
      (disabled.(events := disabled.events + [UserDeletedViaApi(op.target)]), Deleted(op.target))
  }

  /** INSERT ... ON CONFLICT (email) DO UPDATE SET is_active = true. */
  ghost function UpsertUser(s: Store, email: string, newUser: UserId, now: int): (Store, Option<UserId>) {
    match FindEmail(s.users, email)
    case Some(u) => (SetActive(s, u, true, now), Some(u))
    case None =>
      if newUser in s.users then (s, None)
      else (s.(users := s.users[newUser := User(email, true)]), Some(newUser))
  }

  ghost function ApplyProvision(s: Store, op: Op): (Store, Outcome)
    requires op.Provision?
  {
    var (staged, u) := UpsertUser(s, Lower(TrimBlanks(op.email)), op.newUser, op.now);
    if u.None? then (s, Unavailable)
    else
      var (issued, outcome) := IssueKey(staged, u.value, op.scopes, op.draws, op.expiresAt);
      if outcome.Issued? then (issued, outcome) else (s, outcome)
  }

  function Judge(s: Store, k: Option<KeyId>, now: int): Option<Reason>
    requires k.Some? ==> k.value in s.keys && s.keys[k.value].user in s.users
  {
    if k.None? then Some(UnknownKey)
    else
      var key := s.keys[k.value];
      if !key.Enabled() then Some(RevokedKey)
      else if key.ExpiredAt(now) then Some(ExpiredKey)
      else if !s.users[key.user].active then Some(InactiveUser)
      else None
  }

  /** The lookup joins keys with their users. */
  ghost function Presented(s: Store, prefix: string, raw: string): (r: Option<KeyId>)
    ensures r.Some? ==> r.value in s.keys && s.keys[r.value].user in s.users && s.keys[r.value].hash == Bcrypt(raw)
  {
    var k := FindKey(s.keys, prefix, raw);
    if k.Some? && s.keys[k.value].user in s.users then k else None
  }

  function RefusalOf(reason: Reason): Outcome {
    if reason == ExpiredKey then ApiKeyExpired else InvalidApiKey
  }

  ghost function ApplyVerify(s: Store, op: Op): (Store, Outcome)
    requires op.Verify?
  {
    var prefix := ExtractKeyPrefix(op.raw);
    if prefix.None? then (s, InvalidApiKey)
    else if op.fault then (s, Unavailable)
    else
      var k := Presented(s, prefix.value, op.raw);
      match Judge(s, k, op.now)
      case Some(reason) => (s.(events := s.events + [KeyRejected(k, reason)]), RefusalOf(reason))
      case None =>
        (s.(keys := s.keys[k.value := s.keys[k.value].(lastUsedAt := Some(op.now))]),
         Verified(s.keys[k.value].user, s.keys[k.value].scopes))
  }

  ghost function Apply(s: Store, op: Op): (Store, Outcome) {
    match op
    case Create(_, _, _) => ApplyCreate(s, op)
    case Delete(_, _, _, _, _) => ApplyDelete(s, op)
    case Administer(u, active, now) => if u in s.users then (SetActive(s, u, active, now), Updated) else (s, NotFound)
    case Issue(u, scopes, draws, expiresAt) => IssueKey(s, u, scopes, draws, expiresAt)
    case Provision(_, _, _, _, _, _) => ApplyProvision(s, op)
    case Verify(_, _, _) => ApplyVerify(s, op)
  }

  ghost function Run(s: Store, ops: seq<Op>): Store
    decreases |ops|
  {
    if ops == [] then s else Run(Apply(s, ops[0]).0, ops[1..])
  }

  // -------------------------------------------------------------- invariant

  /** The number of issue events of a key. */
  function IssueCount(events: seq<Event>, k: KeyId): nat {
    if events == [] then 0
    else IssueCount(events[..|events| - 1], k)
         + (if events[|events| - 1].KeyIssued? && events[|events| - 1].key == k then 1 else 0)
  }

  function DisableCount(events: seq<Event>, u: UserId): nat {
    if events == [] then 0
    else DisableCount(events[..|events| - 1], u) + (if events[|events| - 1] == UserDisabled(u) then 1 else 0)
  }

  ghost predicate KeyOk(s: Store, k: KeyId) {
    k in s.keys && var key := s.keys[k];
    && key.user in s.users
    && (key.active <==> key.revokedAt.None?)
    && (key.active ==> s.users[key.user].active)
    && (forall x :: x in key.scopes ==> WellFormedScope(x))
    && IssueCount(s.events, k) == 1
  }

  /** The raw key leads back to the row it was issued as. */
  predicate LeadsBack(key: Key) {
    ExtractKeyPrefix(key.hash.raw) == Some(key.prefix)
  }

  ghost predicate AllLeadBack(keys: Keys) {
    forall k {:trigger LeadsBack(keys[k])} :: k in keys ==> LeadsBack(keys[k])
  }

  ghost predicate UniqueEmails(users: Users) {
    forall u, v :: u in users && v in users && users[u].email == users[v].email ==> u == v
  }

  ghost predicate UniquePrefixes(keys: Keys) {
    forall k, l :: k in keys && l in keys && keys[k].prefix == keys[l].prefix ==> k == l
  }

  ghost predicate Inv(s: Store) {
    && UniqueEmails(s.users)
    && UniquePrefixes(s.keys)
    && AllLeadBack(s.keys)
    && (forall k {:trigger KeyOk(s, k)} :: k in s.keys ==> KeyOk(s, k))
    && (forall k {:trigger IssueCount(s.events, k)} :: k !in s.keys ==> IssueCount(s.events, k) == 0)
  }

  lemma IssueCountOfAppend(events: seq<Event>, e: Event, k: KeyId)
    ensures IssueCount(events + [e], k) == IssueCount(events, k) + if e.KeyIssued? && e.key == k then 1 else 0
  {
    assert (events + [e])[..|events|] == events;
  }

  lemma DisableCountOfAppend(events: seq<Event>, e: Event, u: UserId)
    ensures DisableCount(events + [e], u) == DisableCount(events, u) + if e == UserDisabled(u) then 1 else 0
  {
    assert (events + [e])[..|events|] == events;
  }

  /** The log has grown by one event that issues no key. */
  lemma SameIssueCounts(events: seq<Event>, e: Event)
    requires !e.KeyIssued?
    ensures forall k {:trigger IssueCount(events + [e], k)} :: IssueCount(events + [e], k) == IssueCount(events, k)
  {
    forall k ensures IssueCount(events + [e], k) == IssueCount(events, k) {
      IssueCountOfAppend(events, e, k);
    }
  }

  /** Was active, is no longer. */
  predicate Dropped(s: Store, s': Store, u: UserId) {
    u in s.users && s.users[u].active && !(u in s'.users && s'.users[u].active)
  }

  /** user_disabled was logged for exactly the accounts that were dropped. */
  ghost predicate Counted(s: Store, s': Store) {
    forall u {:trigger Dropped(s, s', u)} ::
      DisableCount(s'.events, u) == DisableCount(s.events, u) + if Dropped(s, s', u) then 1 else 0
  }

  /** The same key, and no more usable than before. */
  predicate KeyPersists(s: Store, s': Store, k: KeyId) {
    k in s.keys && k in s'.keys
    && s'.keys[k].hash == s.keys[k].hash && s'.keys[k].user == s.keys[k].user && s'.keys[k].prefix == s.keys[k].prefix
    && s'.keys[k].scopes == s.keys[k].scopes && s'.keys[k].expiresAt == s.keys[k].expiresAt
    && (s'.keys[k].Enabled() ==> s.keys[k].Enabled())
  }

  ghost predicate StepOk(s: Store, s': Store) {
    && Inv(s')
    && Counted(s, s')
    && s.users.Keys <= s'.users.Keys
    && (forall k {:trigger KeyPersists(s, s', k)} :: k in s.keys ==> KeyPersists(s, s', k))
  }

  lemma SetActiveKeepsInv(s: Store, u: UserId, active: bool, now: int)
    requires Inv(s) && u in s.users
    ensures StepOk(s, SetActive(s, u, active, now))
  {
    var s' := SetActive(s, u, active, now);
    SetActiveIsCounted(s, u, active, now);
    SetActiveIssuesNothing(s, u, active, now);
    SetActiveKeepsUnique(s, u, active, now);
    forall k | k in s.keys ensures KeyOk(s', k) && KeyPersists(s, s', k) {
      DisabledKeyOk(s, u, active, now, k);
    }
  }

  lemma SetActiveIsCounted(s: Store, u: UserId, active: bool, now: int)
    requires u in s.users
    ensures Counted(s, SetActive(s, u, active, now))
  {
    var s' := SetActive(s, u, active, now);
    forall v ensures DisableCount(s'.events, v) == DisableCount(s.events, v) + if Dropped(s, s', v) then 1 else 0 {
      DisableCountOfAppend(s.events, UserDisabled(u), v);
    }
  }

  lemma SetActiveIssuesNothing(s: Store, u: UserId, active: bool, now: int)
    requires u in s.users
    ensures forall k {:trigger IssueCount(SetActive(s, u, active, now).events, k)} ::
      IssueCount(SetActive(s, u, active, now).events, k) == IssueCount(s.events, k)
  {
    SameIssueCounts(s.events, UserDisabled(u));
  }

  lemma SetActiveKeepsUnique(s: Store, u: UserId, active: bool, now: int)
    requires UniqueEmails(s.users) && UniquePrefixes(s.keys) && AllLeadBack(s.keys) && u in s.users
    ensures UniqueEmails(SetActive(s, u, active, now).users)
    ensures UniquePrefixes(SetActive(s, u, active, now).keys) && AllLeadBack(SetActive(s, u, active, now).keys)
    ensures SetActive(s, u, active, now).keys.Keys == s.keys.Keys
  {
    SamePrefixes(s.keys, DisableKeys(s.keys, u, now));
  }

  lemma SamePrefixes(keys: Keys, keys': Keys)
    requires UniquePrefixes(keys) && AllLeadBack(keys) && keys'.Keys == keys.Keys
    requires forall k :: k in keys ==> keys'[k].prefix == keys[k].prefix && keys'[k].hash == keys[k].hash
    ensures UniquePrefixes(keys') && AllLeadBack(keys')
  {
    forall k | k in keys' ensures LeadsBack(keys'[k]) {
      assert LeadsBack(keys[k]);
    }
  }

  lemma DisabledKeyOk(s: Store, u: UserId, active: bool, now: int, k: KeyId)
    requires Inv(s) && u in s.users && k in s.keys
    ensures KeyOk(SetActive(s, u, active, now), k) && KeyPersists(s, SetActive(s, u, active, now), k)
  {
    assert KeyOk(s, k);
    IssueCountOfAppend(s.events, UserDisabled(u), k);
  }

  /** An event other than user_disabled, with the accounts as they were. */
  lemma NothingDropped(s: Store, s': Store, e: Event)
    requires s'.users == s.users && s'.events == s.events + [e] && !e.UserDisabled?
    ensures Counted(s, s')
  {
    forall u ensures DisableCount(s'.events, u) == DisableCount(s.events, u) + if Dropped(s, s', u) then 1 else 0 {
      DisableCountOfAppend(s.events, e, u);
    }
  }

  lemma LogKeepsInv(s: Store, e: Event)
    requires Inv(s) && !e.KeyIssued? && !e.UserDisabled?
    ensures StepOk(s, s.(events := s.events + [e]))
  {
    var s' := s.(events := s.events + [e]);
    SameIssueCounts(s.events, e);
    NothingDropped(s, s', e);
    forall k | k in s.keys ensures KeyOk(s', k) {
      assert KeyOk(s, k);
    }
  }

  lemma InsertKeyKeepsInv(s: Store, u: UserId, d: Draw, scopes: seq<string>, expiresAt: Option<int>)
    requires Inv(s) && u in s.users && s.users[u].active && d.Ok() && !Taken(s.keys, d) && ScopesValid(scopes)
    ensures StepOk(s, Store(s.users, s.keys[d.id := NewKey(u, d, scopes, expiresAt)], s.events + [KeyIssued(u, d.id)]))
  {
    var s' := Store(s.users, s.keys[d.id := NewKey(u, d, scopes, expiresAt)], s.events + [KeyIssued(u, d.id)]);
    NothingDropped(s, s', KeyIssued(u, d.id));
    forall k ensures IssueCount(s'.events, k) == IssueCount(s.events, k) + if k == d.id then 1 else 0 {
      IssueCountOfAppend(s.events, KeyIssued(u, d.id), k);
    }
    NewKeyLeadsBack(s.keys, d, NewKey(u, d, scopes, expiresAt));
    forall k | k in s'.keys ensures KeyOk(s', k) {
      assert k != d.id ==> KeyOk(s, k);
    }
  }

  lemma NewKeyLeadsBack(keys: Keys, d: Draw, key: Key)
    requires UniquePrefixes(keys) && AllLeadBack(keys) && d.Ok() && !Taken(keys, d)
    requires key.hash == Bcrypt(d.Raw()) && key.prefix == d.prefix
    ensures UniquePrefixes(keys[d.id := key]) && AllLeadBack(keys[d.id := key])
  {
    IssuedKeyParses(d);
    var keys' := keys[d.id := key];
    forall k | k in keys' ensures LeadsBack(keys'[k]) {
      assert k != d.id ==> LeadsBack(keys[k]);
    }
  }

  lemma IssueKeepsInv(s: Store, u: UserId, scopes: seq<string>, draws: seq<Draw>, expiresAt: Option<int>)
    requires Inv(s)
    ensures StepOk(s, IssueKey(s, u, scopes, draws, expiresAt).0)
  {
    if IssueKey(s, u, scopes, draws, expiresAt).1.Issued? {
      InsertKeyKeepsInv(s, u, draws[FirstFree(draws, TakenIn(s.keys))], scopes, expiresAt);
    }
  }

  lemma AddUserKeepsInv(s: Store, u: UserId, email: string)
    requires Inv(s) && u !in s.users && FindEmail(s.users, email).None?
    ensures StepOk(s, s.(users := s.users[u := User(email, true)]))
  {
    var s' := s.(users := s.users[u := User(email, true)]);
    NewEmailIsUnique(s.users, u, email);
    forall k | k in s.keys ensures KeyOk(s', k) && KeyPersists(s, s', k) {
      assert KeyOk(s, k);
    }
  }

  lemma NewEmailIsUnique(users: Users, u: UserId, email: string)
    requires UniqueEmails(users) && u !in users && FindEmail(users, email).None?
    ensures UniqueEmails(users[u := User(email, true)])
  {
  }

  lemma TouchKeepsInv(s: Store, k: KeyId, now: int)
    requires Inv(s) && k in s.keys
    ensures StepOk(s, s.(keys := s.keys[k := s.keys[k].(lastUsedAt := Some(now))]))
  {
    var s' := s.(keys := s.keys[k := s.keys[k].(lastUsedAt := Some(now))]);
    SamePrefixes(s.keys, s'.keys);
    assert s'.keys.Keys == s.keys.Keys;
    forall l | l in s.keys ensures KeyOk(s', l) && KeyPersists(s, s', l) {
      assert KeyOk(s, l);
    }
  }

  lemma StepsCompose(s: Store, mid: Store, s': Store)
    requires StepOk(s, mid) && StepOk(mid, s') && s'.users == mid.users
    ensures StepOk(s, s')
  {
    forall u ensures DisableCount(s'.events, u) == DisableCount(s.events, u) + if Dropped(s, s', u) then 1 else 0 {
      assert Dropped(s, mid, u) == Dropped(s, s', u) && !Dropped(mid, s', u);
    }
    forall k | k in s.keys ensures KeyPersists(s, s', k) {
      assert KeyPersists(s, mid, k) && KeyPersists(mid, s', k);
    }
  }

  lemma CreateKeepsInv(s: Store, op: Op)
    requires Inv(s) && op.Create?
    ensures StepOk(s, Apply(s, op).0)
  {
    if Apply(s, op).1.Created? {
      var mid := s.(users := s.users[op.newUser := User(Lower(op.email), true)]);
      AddUserKeepsInv(s, op.newUser, Lower(op.email));
      LogKeepsInv(mid, UserCreated(op.newUser));
      StepsCompose(s, mid, Apply(s, op).0);
    }
  }

  lemma DeleteKeepsInv(s: Store, op: Op)
    requires Inv(s) && op.Delete?
    ensures StepOk(s, Apply(s, op).0)
  {
    if Apply(s, op).1.Deleted? {
      SetActiveKeepsInv(s, op.target, false, op.now);
      LogKeepsInv(SetActive(s, op.target, false, op.now), UserDeletedViaApi(op.target));
      StepsCompose(s, SetActive(s, op.target, false, op.now), Apply(s, op).0);
    }
  }

  lemma UpsertKeepsInv(s: Store, email: string, newUser: UserId, now: int)
    requires Inv(s) && UpsertUser(s, email, newUser, now).1.Some?
    ensures StepOk(s, UpsertUser(s, email, newUser, now).0)
  {
    match FindEmail(s.users, email)
    case Some(u) => SetActiveKeepsInv(s, u, true, now);
    case None => AddUserKeepsInv(s, newUser, email);
  }

  lemma NothingChanged(s: Store)
    requires Inv(s)
    ensures StepOk(s, s)
  {
  }

  lemma ProvisionKeepsInv(s: Store, op: Op)
    requires Inv(s) && op.Provision?
    ensures StepOk(s, Apply(s, op).0)
  {
    var e := Lower(TrimBlanks(op.email));
    if Apply(s, op).1.Issued? {
      var (staged, u) := UpsertUser(s, e, op.newUser, op.now);
      UpsertKeepsInv(s, e, op.newUser, op.now);
      IssueKeepsInv(staged, u.value, op.scopes, op.draws, op.expiresAt);
      StepsCompose(s, staged, IssueKey(staged, u.value, op.scopes, op.draws, op.expiresAt).0);
    } else {
      NothingChanged(s);
    }
  }

  lemma VerifyKeepsInv(s: Store, op: Op)
    requires Inv(s) && op.Verify?
    ensures StepOk(s, Apply(s, op).0)
  {
    var prefix := ExtractKeyPrefix(op.raw);
    if prefix.Some? && !op.fault {
      var k := Presented(s, prefix.value, op.raw);
      match Judge(s, k, op.now)
      case Some(reason) => LogKeepsInv(s, KeyRejected(k, reason));
      case None => TouchKeepsInv(s, k.value, op.now);
    }
  }

  /** Every operation keeps the invariant (an inactive account owns no enabled key,
      every key has one issue event), deletes nobody, and logs user_disabled for an
      account exactly when it takes it from active to inactive. */
  lemma ApplyKeepsInv(s: Store, op: Op)
    requires Inv(s)
    ensures StepOk(s, Apply(s, op).0)
  {
    match op {
      case Create(_, _, _) => CreateKeepsInv(s, op);
      case Delete(_, _, _, _, _) => DeleteKeepsInv(s, op);
      case Administer(u, active, now) =>
        if u in s.users {
          SetActiveKeepsInv(s, u, active, now);
        }
      case Issue(u, scopes, draws, expiresAt) => IssueKeepsInv(s, u, scopes, draws, expiresAt);
      case Provision(_, _, _, _, _, _) => ProvisionKeepsInv(s, op);
      case Verify(_, _, _) => VerifyKeepsInv(s, op);
    }
  }

  lemma {:induction false} RunKeepsInv(s: Store, ops: seq<Op>)
    requires Inv(s)
    ensures Inv(Run(s, ops)) && s.users.Keys <= Run(s, ops).users.Keys
    decreases |ops|
  {
    if ops == [] {
    } else {
      ApplyKeepsInv(s, ops[0]);
      RunKeepsInv(Apply(s, ops[0]).0, ops[1..]);
    }
  }

  /** How often a run takes the account from active to inactive. */
  ghost function Deactivations(s: Store, ops: seq<Op>, u: UserId): nat
    decreases |ops|
  {
    if ops == [] then 0
    else (if Dropped(s, Apply(s, ops[0]).0, u) then 1 else 0) + Deactivations(Apply(s, ops[0]).0, ops[1..], u)
  }

  /** Over any run the log holds one user_disabled event per deactivation. */
  lemma {:induction false} DisableEventsCountDeactivations(s: Store, ops: seq<Op>, u: UserId)
    requires Inv(s)
    ensures DisableCount(Run(s, ops).events, u) == DisableCount(s.events, u) + Deactivations(s, ops, u)
    decreases |ops|
  {
    if ops == [] {
    } else {
      ApplyKeepsInv(s, ops[0]);
      DisableEventsCountDeactivations(Apply(s, ops[0]).0, ops[1..], u);
    }
  }

  // ------------------------------------------------- deactivation is final

  /** The key exists and can never be used. */
  ghost predicate KeyDead(s: Store, k: KeyId, hash: Hash) {
    k in s.keys && s.keys[k].hash == hash && !s.keys[k].Enabled()
  }

  lemma {:induction false} KeyIsDeadForever(s: Store, ops: seq<Op>, k: KeyId, hash: Hash)
    requires Inv(s) && KeyDead(s, k, hash)
    ensures KeyDead(Run(s, ops), k, hash)
    decreases |ops|
  {
    if ops == [] {
    } else {
      ApplyKeepsInv(s, ops[0]);
      assert KeyPersists(s, Apply(s, ops[0]).0, k);
      KeyIsDeadForever(Apply(s, ops[0]).0, ops[1..], k, hash);
    }
  }

  lemma DeadKeyIsRefused(s: Store, k: KeyId, raw: string, now: int)
    requires Inv(s) && KeyDead(s, k, Bcrypt(raw))
    ensures var (s', outcome) := Apply(s, Verify(raw, now, false));
      outcome == InvalidApiKey && s' == s.(events := s.events + [KeyRejected(Some(k), RevokedKey)])
  {
    InvIsFiled(s);
    KnownKeyIsJudgedByItsRow(s, k, raw, now);
  }

  /** Deactivating an account, by whatever operation, ends the life of every key it
      owns: in every later state, also after the account has been reactivated by
      email, presenting such a key is refused, and the refusal is logged. */
  lemma DeactivationIsFinal(s: Store, op: Op, later: seq<Op>, k: KeyId, raw: string, now: int)
    requires Inv(s) && k in s.keys && s.keys[k].hash == Bcrypt(raw)
    requires Dropped(s, Apply(s, op).0, s.keys[k].user)
    ensures var end := Run(Apply(s, op).0, later);
      var (after, outcome) := Apply(end, Verify(raw, now, false));
      && Inv(end)
      && outcome == InvalidApiKey
      && after == end.(events := end.events + [KeyRejected(Some(k), RevokedKey)])
  {
    ApplyKeepsInv(s, op);
    var next := Apply(s, op).0;
    assert KeyPersists(s, next, k) && KeyOk(next, k);
    KeyIsDeadForever(next, later, k, Bcrypt(raw));
    RunKeepsInv(next, later);
    DeadKeyIsRefused(Run(next, later), k, raw, now);
  }

  lemma EnabledKeyVerifies(s: Store, k: KeyId, raw: string, now: int)
    requires Inv(s) && k in s.keys && s.keys[k].hash == Bcrypt(raw) && s.keys[k].Enabled() && !s.keys[k].ExpiredAt(now)
    ensures Apply(s, Verify(raw, now, false)).1 == Verified(s.keys[k].user, s.keys[k].scopes)
  {
    InvIsFiled(s);
    assert KeyOk(s, k);
    KnownKeyIsJudgedByItsRow(s, k, raw, now);
  }

  /** The other half: what provisioning hands out does verify, for the account it
      was issued to and with the scopes asked for, until it expires. */
  lemma ProvisionedKeyVerifies(s: Store, op: Op, now: int)
    requires Inv(s) && op.Provision? && Apply(s, op).1.Issued?
    requires op.expiresAt.Some? ==> now < op.expiresAt.value
    ensures var (s', outcome) := Apply(s, op);
      Apply(s', Verify(outcome.raw, now, false)).1 == Verified(outcome.user, op.scopes)
  {
    ApplyKeepsInv(s, op);
    var effect := Apply(s, op);
    EnabledKeyVerifies(effect.0, effect.1.key, effect.1.raw, now);
  }

  lemma InvHoldsInitially()
    ensures Inv(Store(map[], map[], []))
  {
  }

  // ------------------------------------------------ what each answer depends on

  /** What the constraints of the schema guarantee, whatever was written by hand. */
  ghost predicate Filed(s: Store) {
    UniquePrefixes(s.keys) && AllLeadBack(s.keys) && forall k :: k in s.keys ==> s.keys[k].user in s.users
  }

  lemma InvIsFiled(s: Store)
    requires Inv(s)
    ensures Filed(s)
  {
    forall k | k in s.keys ensures s.keys[k].user in s.users {
      assert KeyOk(s, k);
    }
  }

  /** A raw key belongs to one row at most. */
  lemma KeyOfRaw(s: Store, k: KeyId, raw: string)
    requires Filed(s) && k in s.keys && s.keys[k].hash == Bcrypt(raw)
    ensures ExtractKeyPrefix(raw).Some? && Presented(s, ExtractKeyPrefix(raw).value, raw) == Some(k)
  {
    assert LeadsBack(s.keys[k]);
    assert FindKey(s.keys, s.keys[k].prefix, raw) == Some(k);
  }

  /** The answer to a key that is on file, by the fields of its row and its owner. */
  lemma KnownKeyIsJudgedByItsRow(s: Store, k: KeyId, raw: string, now: int)
    requires Filed(s) && k in s.keys && s.keys[k].hash == Bcrypt(raw)
    ensures var key := s.keys[k];
      var (s', outcome) := Apply(s, Verify(raw, now, false));
      if !key.active || key.revokedAt.Some? then
        outcome == InvalidApiKey && s' == s.(events := s.events + [KeyRejected(Some(k), RevokedKey)])
      else if key.expiresAt.Some? && key.expiresAt.value <= now then
        outcome == ApiKeyExpired && s' == s.(events := s.events + [KeyRejected(Some(k), ExpiredKey)])
      else if !s.users[key.user].active then
        outcome == InvalidApiKey && s' == s.(events := s.events + [KeyRejected(Some(k), InactiveUser)])
      else
        outcome == Verified(key.user, key.scopes) && s' == s.(keys := s.keys[k := key.(lastUsedAt := Some(now))])
  {
    KeyOfRaw(s, k, raw);
  }

  /** A key that is not on file, and one that does not even look like a key. */
  lemma UnknownKeyIsRefused(s: Store, raw: string, now: int)
    requires forall k :: k in s.keys ==> s.keys[k].hash != Bcrypt(raw)
    ensures var (s', outcome) := Apply(s, Verify(raw, now, false));
      outcome == InvalidApiKey
      && s' == if ExtractKeyPrefix(raw).None? then s else s.(events := s.events + [KeyRejected(None, UnknownKey)])
  {
  }

  /** Every raw key at every time: it verifies exactly when a row holds it that is
      active, not revoked, and not past its expiry, and its owner is active. */
  lemma VerifiesIffARowIsUsable(s: Store, raw: string, now: int)
    requires Filed(s)
    ensures Apply(s, Verify(raw, now, false)).1.Verified? <==>
      exists k :: k in s.keys && s.keys[k].hash == Bcrypt(raw) && s.keys[k].active && s.keys[k].revokedAt.None?
                  && (s.keys[k].expiresAt.None? || now < s.keys[k].expiresAt.value) && s.users[s.keys[k].user].active
  {
    if k :| k in s.keys && s.keys[k].hash == Bcrypt(raw) {
      KnownKeyIsJudgedByItsRow(s, k, raw, now);
      forall l | l in s.keys && s.keys[l].hash == Bcrypt(raw) ensures l == k {
        KeyOfRaw(s, k, raw);
        KeyOfRaw(s, l, raw);
      }
    } else {
      UnknownKeyIsRefused(s, raw, now);
    }
  }

  /** Nothing is deleted without the operator's code; with it, an active account is
      deactivated, its enabled keys are revoked, and both events are logged. */
  lemma DeletionNeedsTheCode(s: Store, target: UserId, expected: Option<string>, provided: Option<string>, now: int)
    requires Inv(s)
    ensures var (s', outcome) := Apply(s, Delete(target, expected, provided, now, false));
      if expected.None? || provided.None? || Strip(expected.value) == "" || provided.value == ""
         || Strip(provided.value) != Strip(expected.value) then outcome == ApprovalRequired && s' == s
      else if target !in s.users || !s.users[target].active then outcome == NotFound && s' == s
      else
        && outcome == Deleted(target)
        && s'.users == s.users[target := User(s.users[target].email, false)]
        && s'.events == s.events + [UserDisabled(target), UserDeletedViaApi(target)]
        && s'.keys.Keys == s.keys.Keys
        && forall k :: k in s.keys ==>
             s'.keys[k] == if s.keys[k].user == target && s.keys[k].active
                           then s.keys[k].(active := false, revokedAt := Some(now)) else s.keys[k]
  {
    forall k | k in s.keys ensures s.keys[k].active ==> s.keys[k].revokedAt.None? {
      assert KeyOk(s, k);
    }
  }

  /** A failure in the database changes nothing, and is reported once what needs no
      database has been checked. */
  lemma FaultsChangeNothing(s: Store, op: Op)
    requires (op.Create? || op.Delete? || op.Verify?) && op.fault
    ensures Apply(s, op).0 == s
    ensures op.Create? ==> Apply(s, op).1 == Unavailable
    ensures op.Delete? ==>
      Apply(s, op).1 == if Approved(op.expected, op.provided) then Unavailable else ApprovalRequired
    ensures op.Verify? ==>
      Apply(s, op).1 == if ExtractKeyPrefix(op.raw).Some? then Unavailable else InvalidApiKey
  {
  }

  /** An account is created active, under its address in lower case, unless that
      address or the identifier is in use. */
  lemma CreationNeedsAFreeAddress(s: Store, email: string, newUser: UserId)
    ensures var (s', outcome) := Apply(s, Create(email, newUser, false));
      if newUser in s.users || exists u :: u in s.users && s.users[u].email == Lower(email)
      then outcome == Conflict && s' == s
      else
        && outcome == Created(newUser) && s'.keys == s.keys && s'.events == s.events + [UserCreated(newUser)]
        && s'.users == s.users[newUser := User(Lower(email), true)]
  {
  }

  /** The draw meets no constraint: identifier and prefix are free. */
  ghost predicate Collides(keys: Keys, d: Draw) {
    d.id in keys || exists k :: k in keys && keys[k].prefix == d.prefix
  }

  /** The first draw that collides with nothing is one the schema takes. */
  ghost predicate SomeDrawFits(keys: Keys, draws: seq<Draw>) {
    exists i :: 0 <= i < |draws| && FitsFirst(keys, draws, i)
  }

  ghost predicate FitsFirst(keys: Keys, draws: seq<Draw>, i: nat)
    requires i < |draws|
  {
    && !Collides(keys, draws[i]) && (forall j :: 0 <= j < i ==> Collides(keys, draws[j]))
    && |draws[i].prefix| == 16 && draws[i].secret != ""
    && forall k :: 0 <= k < 16 ==> '0' <= draws[i].prefix[k] <= '9' || 'a' <= draws[i].prefix[k] <= 'f'
  }

  /** One more key, and what is handed out is the text of that draw. */
  ghost predicate IssuedFrom(s: Store, s': Store, outcome: Outcome, d: Draw) {
    && outcome.Issued? && outcome.key == d.id && outcome.raw == "teb_uk_" + d.prefix + "_" + d.secret
    && d.id !in s.keys && s'.keys.Keys == s.keys.Keys + {d.id}
    && forall k :: k in s.keys ==> s'.keys[k] == s.keys[k]
  }

  lemma DrawFitsIff(keys: Keys, draws: seq<Draw>)
    ensures var n := FirstFree(draws, TakenIn(keys));
      && (SomeDrawFits(keys, draws) <==> n < |draws| && draws[n].Ok())
      && (n < |draws| && draws[n].Ok() ==> FitsFirst(keys, draws, n))
  {
    var n := FirstFree(draws, TakenIn(keys));
    forall d: Draw ensures TakenIn(keys)(d) <==> Collides(keys, d) {
    }
    if n < |draws| && draws[n].Ok() {
      assert FitsFirst(keys, draws, n);
    }
    if SomeDrawFits(keys, draws) {
      var i :| 0 <= i < |draws| && FitsFirst(keys, draws, i);
      assert !TakenIn(keys)(draws[i]) && forall j :: 0 <= j < i ==> TakenIn(keys)(draws[j]);
      assert i == n;
    }
  }

  /** A key is issued only to an active account, only with scopes of the grammar, and
      once a draw fits; the new row is the only change besides its event. */
  lemma IssuingNeedsAnActiveAccount(s: Store, u: UserId, scopes: seq<string>, draws: seq<Draw>, expiresAt: Option<int>)
    ensures var (s', outcome) := Apply(s, Op.Issue(u, scopes, draws, expiresAt));
      if u !in s.users then outcome == NotFound && s' == s
      else if !s.users[u].active then outcome == UserIsInactive && s' == s
      else if exists x :: x in scopes && !WellFormedScope(x) then outcome == InvalidScope && s' == s
      else if !SomeDrawFits(s.keys, draws) then outcome == Unavailable && s' == s
      else
        && s'.users == s.users
        && exists i :: 0 <= i < |draws| && FitsFirst(s.keys, draws, i) && IssuedFrom(s, s', outcome, draws[i])
             && s'.keys[draws[i].id]
                == Key(u, draws[i].prefix, Bcrypt(outcome.raw), scopes, true, None, expiresAt, None)
             && s'.events == s.events + [KeyIssued(u, draws[i].id)] && outcome.user == u
  {
    DrawFitsIff(s.keys, draws);
    if x :| x in scopes && !WellFormedScope(x) {
      var i :| 0 <= i < |scopes| && scopes[i] == x;
    }
  }

  /** Provisioning by address: the account with it is active afterwards and owns the
      new key; when no key is issued nothing has changed, a reactivation included. */
  lemma ProvisioningIsAllOrNothing(s: Store, op: Op)
    requires Inv(s) && op.Provision?
    ensures var (s', outcome) := Apply(s, op);
      if outcome.Issued? then
        && outcome.user in s'.users && s'.users[outcome.user] == User(Lower(TrimBlanks(op.email)), true)
        && (outcome.user in s.users ==> s.users[outcome.user].email == Lower(TrimBlanks(op.email)))
        && (outcome.user !in s.users ==> outcome.user == op.newUser)
        && (forall u :: u in s.users && u != outcome.user ==> u in s'.users && s'.users[u] == s.users[u])
        && s'.events == s.events + [KeyIssued(outcome.user, outcome.key)]
        && (forall k :: k in s.keys ==> k in s'.keys && s'.keys[k] == s.keys[k])
      else s' == s
  {
  }

  // ------------------------------------------------------- the life of a key

  /** The key is enabled still, or its owner has just been dropped. */
  ghost predicate StaysUnlessDropped(s: Store, s': Store, k: KeyId) {
    k in s.keys && k in s'.keys && (s'.keys[k].active <==> s.keys[k].active && !Dropped(s, s', s.keys[k].user))
  }

  lemma SetActiveDropsOnlyItsOwn(s: Store, u: UserId, active: bool, now: int, k: KeyId)
    requires u in s.users && k in s.keys && KeyOk(s, k)
    ensures StaysUnlessDropped(s, SetActive(s, u, active, now), k)
  {
  }

  lemma IssueDropsNothing(s: Store, u: UserId, scopes: seq<string>, draws: seq<Draw>, expiresAt: Option<int>, k: KeyId)
    requires k in s.keys && KeyOk(s, k)
    ensures StaysUnlessDropped(s, IssueKey(s, u, scopes, draws, expiresAt).0, k)
    ensures IssueKey(s, u, scopes, draws, expiresAt).0.users == s.users
  {
  }

  lemma UpsertDropsNothing(s: Store, email: string, newUser: UserId, now: int, k: KeyId)
    requires k in s.keys && KeyOk(s, k)
    ensures var s' := UpsertUser(s, email, newUser, now).0;
      StaysUnlessDropped(s, s', k) && !Dropped(s, s', s.keys[k].user)
  {
  }

  /** One operation disables an active key exactly when it drops its owner. */
  lemma KeyStaysUnlessDropped(s: Store, op: Op, k: KeyId)
    requires Inv(s) && k in s.keys
    ensures StaysUnlessDropped(s, Apply(s, op).0, k)
  {
    assert KeyOk(s, k);
    match op {
      case Delete(u, _, _, now, _) =>
        if Apply(s, op).1.Deleted? {
          SetActiveDropsOnlyItsOwn(s, u, false, now, k);
        }
      case Administer(u, active, now) =>
        if u in s.users {
          SetActiveDropsOnlyItsOwn(s, u, active, now, k);
        }
      case Issue(u, scopes, draws, expiresAt) => IssueDropsNothing(s, u, scopes, draws, expiresAt, k);
      case Provision(email, newUser, scopes, draws, expiresAt, now) =>
        if Apply(s, op).1.Issued? {
          var (staged, u) := UpsertUser(s, Lower(TrimBlanks(email)), newUser, now);
          UpsertDropsNothing(s, Lower(TrimBlanks(email)), newUser, now, k);
          UpsertKeepsInv(s, Lower(TrimBlanks(email)), newUser, now);
          assert KeyOk(staged, k);
          IssueDropsNothing(staged, u.value, scopes, draws, expiresAt, k);
        }
      case _ =>
    }
  }

  lemma {:induction false} KeyLivesUntilItsOwnerIsDropped(s: Store, ops: seq<Op>, k: KeyId)
    requires Inv(s) && k in s.keys && s.keys[k].active
    ensures var end := Run(s, ops);
      && k in end.keys && end.keys[k].hash == s.keys[k].hash && end.keys[k].user == s.keys[k].user
      && end.keys[k].scopes == s.keys[k].scopes && end.keys[k].expiresAt == s.keys[k].expiresAt
      && (end.keys[k].active <==> Deactivations(s, ops, s.keys[k].user) == 0)
    decreases |ops|
  {
    if ops == [] {
    } else {
      var next := Apply(s, ops[0]).0;
      ApplyKeepsInv(s, ops[0]);
      KeyStaysUnlessDropped(s, ops[0], k);
      assert KeyPersists(s, next, k);
      if next.keys[k].active {
        KeyLivesUntilItsOwnerIsDropped(next, ops[1..], k);
      } else {
        DisabledKeyPersists(next, ops[1..], k);
      }
    }
  }

  lemma {:induction false} DisabledKeyPersists(s: Store, ops: seq<Op>, k: KeyId)
    requires Inv(s) && k in s.keys && !s.keys[k].active
    ensures var end := Run(s, ops);
      && k in end.keys && end.keys[k].hash == s.keys[k].hash && end.keys[k].user == s.keys[k].user
      && end.keys[k].scopes == s.keys[k].scopes && end.keys[k].expiresAt == s.keys[k].expiresAt
      && !end.keys[k].active
    decreases |ops|
  {
    if ops == [] {
    } else {
      var next := Apply(s, ops[0]).0;
      ApplyKeepsInv(s, ops[0]);
      assert KeyPersists(s, next, k) && KeyOk(s, k) && KeyOk(next, k);
      DisabledKeyPersists(next, ops[1..], k);
    }
  }

  /** After any operations at all, a provisioned key verifies exactly when its owner
      has not been deactivated since and the key has not expired; reactivation does
      not bring it back. */
  lemma ProvisionedKeyVerifiesIff(s: Store, op: Op, later: seq<Op>, now: int)
    requires Inv(s) && op.Provision? && Apply(s, op).1.Issued?
    ensures var (issued, given) := Apply(s, op);
      var answer := Apply(Run(issued, later), Verify(given.raw, now, false)).1;
      if Deactivations(issued, later, given.user) == 0 && (op.expiresAt.None? || now < op.expiresAt.value)
      then answer == Verified(given.user, op.scopes)
      else answer in {InvalidApiKey, ApiKeyExpired}
  {
    var (issued, given) := Apply(s, op);
    ApplyKeepsInv(s, op);
    RunKeepsInv(issued, later);
    KeyLivesUntilItsOwnerIsDropped(issued, later, given.key);
    InvIsFiled(Run(issued, later));
    assert KeyOk(Run(issued, later), given.key);
    KnownKeyIsJudgedByItsRow(Run(issued, later), given.key, given.raw, now);
  }
}
