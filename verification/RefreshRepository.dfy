/**
  RefreshTokenRepository as it runs inside one database session, and what a refresh
  that uses it amounts to.
 */
module RefreshRepository {
  import opened Base
  import opened RefreshTable
  import opened Sessions

  datatype ServiceClient = ServiceClient(id: string, scopes: set<string>, shortLived: bool)

  datatype Error =
    | InvalidToken
    | TokenExpired
    | UsedOrRevoked
    | RefreshDisabled
    | ScopesGone
    | DatabaseUnavailable
    | StorageRequired

  datatype Record = Record(id: TokenId, subject: string, client: string, scopes: set<string>, expiresAt: int)

  /** What SELECT ... WHERE token_hash and the checks after it make of a token. */
  datatype Seen =
    | Missing
    | Replayed(id: TokenId)
    | Withdrawn(id: TokenId)
    | Expired(id: TokenId)
    | Usable(id: TokenId)

  ghost function Find(t: Table, h: Digest): (r: Option<TokenId>)
    ensures r.Some? ==> r.value in t && t[r.value].hash == h
    ensures r.None? ==> HashFree(t, h)
  {
    if i :| i in t && t[i].hash == h then Some(i) else None
  }

  ghost function Classify(t: Table, h: Digest, now: int): (s: Seen)
    ensures s.Missing? <==> HashFree(t, h)
    ensures !s.Missing? ==> s.id in t && t[s.id].hash == h
  {
    match Find(t, h)
    case None => Missing
    case Some(i) => Judge(t[i], i, now)
  }

  function Judge(row: Row, i: TokenId, now: int): (s: Seen)
    ensures s.Usable? <==> row.Live() && now < row.expiresAt
    ensures s.Replayed? <==> !row.Live() && row.replacedBy.Some?
    ensures !s.Missing? && s.id == i
  {
    if !row.Live() then
      if row.replacedBy.Some? then Replayed(i) else Withdrawn(i)
    else if row.expiresAt <= now then Expired(i)
    else Usable(i)
  }

  function ServiceSubject(client: string): string {
    "service:" + client
  }

  predicate BoundTo(row: Row, client: ServiceClient) {
    row.client == client.id && row.subject == ServiceSubject(client.id)
  }

  // ---------------------------------------------------------- specifications

  type Effect<T> = (Table, Result<T, Error>)

  ghost function LookupSpec(t: Table, raw: string, now: int, faultAt: nat): Effect<Record> {
    if faultAt == 1 then (t, Err(DatabaseUnavailable))
    else match Classify(t, Sha256(raw), now)
      case Missing => (t, Err(InvalidToken))
      case Replayed(i) => RevokeFamilySpec(t, i, now, faultAt == 2 || faultAt == 3, UsedOrRevoked)
      case Withdrawn(_) => (t, Err(UsedOrRevoked))
      case Expired(_) => (t, Err(TokenExpired))
      case Usable(i) => (t, Ok(Record(i, t[i].subject, t[i].client, t[i].scopes, t[i].expiresAt)))
  }

  /** Revokes the family of `i`, then fails with `why`; a database fault changes nothing. */
  ghost function RevokeFamilySpec<T>(t: Table, i: TokenId, now: int, fault: bool, why: Error): Effect<T> {
    if fault then (t, Err(DatabaseUnavailable)) else (Revoked(t, Descendants(t, i), now), Err(why))
  }

  function RevokeClientSpec<T>(t: Table, client: string, now: int, fault: bool, why: Error): Effect<T> {
    if fault then (t, Err(DatabaseUnavailable)) else (Revoked(t, ClientRows(t, client), now), Err(why))
  }

  ghost function RotateSpec(t: Table, raw: string, newRaw: string, newExpires: int, scopes: Option<set<string>>,
                            newId: TokenId, now: int, faultAt: nat): Effect<Record>
  {
    if faultAt == 1 then (t, Err(DatabaseUnavailable))
    else match Classify(t, Sha256(raw), now)
      case Missing => (t, Err(InvalidToken))
      case Replayed(i) => RevokeFamilySpec(t, i, now, faultAt == 2 || faultAt == 3, UsedOrRevoked)
      case Withdrawn(_) => (t, Err(UsedOrRevoked))
      case Expired(_) => (t, Err(TokenExpired))
      case Usable(i) =>
        if 2 <= faultAt <= 4 || newId in t || !HashFree(t, Sha256(newRaw)) then (t, Err(DatabaseUnavailable))
        else
          var kept := if scopes.Some? then scopes.value else t[i].scopes;
          (Rotated(t, i, newId, Sha256(newRaw), kept, newExpires, now),
           Ok(Record(newId, t[i].subject, t[i].client, kept, newExpires)))
  }

  ghost function RefreshSpec(t: Table, raw: string, client: ServiceClient, newRaw: string, newExpires: int,
                             newId: TokenId, lookupTime: int, writeTime: int, lookupFault: nat, writeFault: nat)
    : Effect<Record>
  {
    var (t1, found) := LookupSpec(t, raw, lookupTime, lookupFault);
    match found
    case Err(e) => (t1, Err(e))
    case Ok(rec) =>
      if rec.client != client.id || rec.subject != ServiceSubject(client.id) then
        RevokeFamilySpec(t1, rec.id, writeTime, writeFault == 1 || writeFault == 2, InvalidToken)
      else if !client.shortLived then
        RevokeClientSpec(t1, rec.client, writeTime, writeFault == 1 || writeFault == 2, RefreshDisabled)
      else if rec.scopes * client.scopes == {} then
        RevokeClientSpec(t1, rec.client, writeTime, writeFault == 1 || writeFault == 2, ScopesGone)
      else
        RotateSpec(t1, raw, newRaw, newExpires, Some(rec.scopes * client.scopes), newId, writeTime, writeFault)
  }

  // ------------------------------------------------ what each answer depends on

  /** The answer to a presented token, by the fields of its row and the statement that
      fails: the lookup (1), or the update and commit of a revocation (2, 3). */
  lemma LookupByRow(t: Table, i: TokenId, raw: string, now: int, faultAt: nat)
    requires UniqueHashes(t) && i in t && t[i].hash == Sha256(raw)
    ensures var (t', found) := LookupSpec(t, raw, now, faultAt);
      if faultAt == 1 then found == Err(DatabaseUnavailable) && t' == t
      else if t[i].revokedAt.Some? then RejectedByRow(t, t', found, i, now, faultAt)
      else
        && t' == t
        && found == if t[i].expiresAt <= now then Err(TokenExpired)
                    else Ok(Record(i, t[i].subject, t[i].client, t[i].scopes, t[i].expiresAt))
  {
  }

  /** A withdrawn token is only refused; a spent one takes its family with it, unless a
      statement of the revocation fails. */
  ghost predicate RejectedByRow(t: Table, t': Table, answer: Result<Record, Error>, i: TokenId, now: int, faultAt: nat)
    requires i in t
  {
    if t[i].replacedBy.None? then answer == Err(UsedOrRevoked) && t' == t
    else if faultAt == 2 || faultAt == 3 then answer == Err(DatabaseUnavailable) && t' == t
    else answer == Err(UsedOrRevoked) && RevokesAt(t, t', Descendants(t, i), now)
  }

  /** The same for a rotation: the lookup (1), the insert (2), the update (3), the
      commit (4); a colliding identifier or token fails the insert. */
  lemma RotateByRow(t: Table, i: TokenId, raw: string, newRaw: string, newExpires: int, scopes: Option<set<string>>,
                    newId: TokenId, now: int, faultAt: nat)
    requires UniqueHashes(t) && i in t && t[i].hash == Sha256(raw)
    ensures var (t', result) := RotateSpec(t, raw, newRaw, newExpires, scopes, newId, now, faultAt);
      var kept := if scopes == None then t[i].scopes else scopes.value;
      if faultAt == 1 then result == Err(DatabaseUnavailable) && t' == t
      else if t[i].revokedAt.Some? then RejectedByRow(t, t', result, i, now, faultAt)
      else if t[i].expiresAt <= now then result == Err(TokenExpired) && t' == t
      else if faultAt in {2, 3, 4} || newId in t || exists k :: k in t && t[k].hash == Sha256(newRaw) then
        result == Err(DatabaseUnavailable) && t' == t
      else
        && result == Ok(Record(newId, t[i].subject, t[i].client, kept, newExpires))
        && RotatedAt(t, t', i, newId, kept, newRaw, newExpires, now)
  {
    if t[i].revokedAt.None? {
      ClassifyByRow(t, i, raw, now);
    }
  }

  /** Revokes the live ones among the chosen rows, and nothing else. */
  ghost predicate RevokesAt(t: Table, t': Table, ids: set<TokenId>, now: int) {
    && t'.Keys == t.Keys
    && forall k :: k in t ==>
         t'[k] == if k in ids && t[k].revokedAt.None? then t[k].(revokedAt := Some(now)) else t[k]
  }

  /** The refresh of a live, unexpired token, by the fields of its row and its client:
      whose it is, whether the client opted in, whether a scope is left. */
  lemma RefreshByRow(t: Table, i: TokenId, raw: string, client: ServiceClient, newRaw: string, newExpires: int,
                     newId: TokenId, lookupTime: int, writeTime: int)
    requires UniqueHashes(t) && i in t && t[i].hash == Sha256(raw)
    requires t[i].revokedAt.None? && lookupTime < t[i].expiresAt
    ensures var (t', result) :=
        RefreshSpec(t, raw, client, newRaw, newExpires, newId, lookupTime, writeTime, 0, 0);
      var both := t[i].scopes * client.scopes;
      if t[i].client != client.id || t[i].subject != "service:" + client.id then
        result == Err(InvalidToken) && RevokesAt(t, t', Descendants(t, i), writeTime)
      else if !client.shortLived then
        result == Err(RefreshDisabled) && RevokesAt(t, t', (set k | k in t && t[k].client == client.id), writeTime)
      else if both == {} then
        result == Err(ScopesGone) && RevokesAt(t, t', (set k | k in t && t[k].client == client.id), writeTime)
      else if t[i].expiresAt <= writeTime then result == Err(TokenExpired) && t' == t
      else if newId in t || exists k :: k in t && t[k].hash == Sha256(newRaw) then
        result == Err(DatabaseUnavailable) && t' == t
      else
        && result == Ok(Record(newId, "service:" + client.id, client.id, both, newExpires))
        && RotatedAt(t, t', i, newId, both, newRaw, newExpires, writeTime)
  {
    ClassifyByRow(t, i, raw, lookupTime);
    ClassifyByRow(t, i, raw, writeTime);
  }

  lemma ClassifyByRow(t: Table, i: TokenId, raw: string, now: int)
    requires UniqueHashes(t) && i in t && t[i].hash == Sha256(raw) && t[i].revokedAt.None?
    ensures Classify(t, Sha256(raw), now) == if t[i].expiresAt <= now then Expired(i) else Usable(i)
  {
  }

  /** One new live row for the same client and subject; the old one is revoked and
      points to it; no other row changes. */
  ghost predicate RotatedAt(t: Table, t': Table, i: TokenId, newId: TokenId, scopes: set<string>, newRaw: string,
                            newExpires: int, now: int)
    requires i in t
  {
    && t'.Keys == t.Keys + {newId} && newId !in t
    && t'[newId] == Row(Sha256(newRaw), t[i].subject, t[i].client, scopes, newExpires, None, None)
    && t'[i] == t[i].(revokedAt := Some(now), replacedBy := Some(newId))
    && forall k :: k in t && k != i ==> t'[k] == t[k]
  }

  /** A token that is on file under no hash is refused, and nothing is written. */
  lemma UnknownTokenIsRefused(t: Table, raw: string, client: ServiceClient, newRaw: string, newExpires: int,
                              newId: TokenId, lookupTime: int, writeTime: int)
    requires forall k :: k in t ==> t[k].hash != Sha256(raw)
    ensures RefreshSpec(t, raw, client, newRaw, newExpires, newId, lookupTime, writeTime, 0, 0)
            == (t, Err(InvalidToken))
  {
  }

  /** A spent or expired token is refused before its client is looked at. */
  lemma SpentOrExpiredIsRefused(t: Table, i: TokenId, raw: string, client: ServiceClient, newRaw: string,
                                newExpires: int, newId: TokenId, lookupTime: int, writeTime: int)
    requires UniqueHashes(t) && i in t && t[i].hash == Sha256(raw)
    requires t[i].revokedAt.Some? || t[i].expiresAt <= lookupTime
    ensures var (t', result) :=
        RefreshSpec(t, raw, client, newRaw, newExpires, newId, lookupTime, writeTime, 0, 0);
      if t[i].revokedAt.None? then result == Err(TokenExpired) && t' == t
      else
        && result == Err(UsedOrRevoked)
        && if t[i].replacedBy.Some? then RevokesAt(t, t', Descendants(t, i), lookupTime) else t' == t
  {
    LookupByRow(t, i, raw, lookupTime, 0);
  }

  /** Every way out of a rotation leaves the committed rows as they were, fully
      rotated, or exactly family-revoked; only the second returns a record. */
  lemma RotateIsAllOrNothing(t: Table, raw: string, newRaw: string, newExpires: int, scopes: Option<set<string>>,
                             newId: TokenId, now: int, faultAt: nat)
    requires WellFormed(t)
    ensures AllOrNothing(t, RotateSpec(t, raw, newRaw, newExpires, scopes, newId, now, faultAt), raw, now)
  {
    var effect := RotateSpec(t, raw, newRaw, newExpires, scopes, newId, now, faultAt);
    if effect.1.Ok? {
      var i, rec := Classify(t, Sha256(raw), now).id, effect.1.value;
      RotationIsFull(t, raw, newRaw, i, rec, now);
      WriteKeepsWellFormed(t, Rotate(i, newId, Sha256(newRaw), rec.scopes, newExpires, now));
    } else if effect.0 != t {
      ReplayIsFamilyRevoked(t, raw, Classify(t, Sha256(raw), now).id, now);
    }
  }

  lemma RotationIsFull(t: Table, raw: string, newRaw: string, i: TokenId, r: Record, now: int)
    requires i in t && t[i].hash == Sha256(raw) && t[i].Live()
    requires r.id !in t && r.client == t[i].client && r.subject == t[i].subject
    ensures FullyRotated(t, Rotated(t, i, r.id, Sha256(newRaw), r.scopes, r.expiresAt, now), raw, i, r)
  {
  }

  lemma ReplayIsFamilyRevoked(t: Table, raw: string, i: TokenId, now: int)
    requires WellFormed(t) && i in t && t[i].hash == Sha256(raw) && t[i].replacedBy.Some?
    ensures AllOrNothing(t, (Revoked(t, Descendants(t, i), now), Err(UsedOrRevoked)), raw, now)
  {
    WriteKeepsWellFormed(t, Revoke(Descendants(t, i), now));
    RevokingDescendantsKillsFamily(t, i, now);
    assert FamilyRevoked(t, Revoked(t, Descendants(t, i), now), raw, i, now);
  }

  ghost predicate AllOrNothing(t: Table, effect: Effect<Record>, raw: string, now: int) {
    && WellFormed(effect.0) && WriteOnce(t, effect.0)
    && match effect.1
       case Ok(rec) => exists i :: FullyRotated(t, effect.0, raw, i, rec)
       case Err(_) => effect.0 == t || exists i :: FamilyRevoked(t, effect.0, raw, i, now)
  }

  ghost predicate FullyRotated(t: Table, t': Table, raw: string, i: TokenId, r: Record) {
    && i in t && t[i].hash == Sha256(raw) && t[i].Live()
    && r.id !in t && t'.Keys == t.Keys + {r.id}
    && !t'[i].Live() && t'[i].replacedBy == Some(r.id)
    && t'[r.id].Live() && t'[r.id].replacedBy.None?
    && t'[r.id].client == t[i].client == r.client && t'[r.id].subject == t[i].subject == r.subject
    && t'[r.id].scopes == r.scopes && t'[r.id].expiresAt == r.expiresAt
    && (forall k :: k in t && k != i ==> t'[k] == t[k])
  }

  ghost predicate FamilyRevoked(t: Table, t': Table, raw: string, i: TokenId, now: int) {
    && i in t && t[i].hash == Sha256(raw) && t[i].replacedBy.Some?
    && Dead(t', i)
    && t' == Revoked(t, Descendants(t, i), now)
    && (forall k :: k in t && k !in Family(t, i) ==> t'[k] == t[k])
  }

  // ------------------------------------------------------ the recursive query

  /** The recursive family query, level by level: each round joins the rows found
      last through replaced_by and keeps the new ones (UNION).  It terminates on
      every finite table, cyclic or dangling links included. */
  method FamilyQuery(t: Table, id: TokenId) returns (family: set<TokenId>)
    ensures family == Descendants(t, id)
  {
    var working := if id in t then {id} else {};
    family := working;
    assert id in t ==> Follow(t, id, 0) == Some(id);
    while working != {}
      invariant working <= family <= t.Keys
      invariant id in t ==> id in family
      invariant forall i :: i in family ==> Reaches(t, id, i)
      invariant forall i :: i in family - working && t[i].replacedBy.Some? && t[i].replacedBy.value in t
                  ==> t[i].replacedBy.value in family
      decreases t.Keys - family, working != {}
    {
      var next := set i | i in working && t[i].replacedBy.Some? && t[i].replacedBy.value in t :: t[i].replacedBy.value;
      forall j | j in next ensures Reaches(t, id, j) {
        var i :| i in working && t[i].replacedBy == Some(j);
        ReachesNext(t, id, i, j);
      }
      working := next - family;
      family := family + working;
    }
    forall i | i in t && Reaches(t, id, i) ensures i in family {
      var n: nat :| Follow(t, id, n) == Some(i);
      ClosedHoldsEverythingAfter(t, family, id, n);
    }
  }

  lemma {:induction false} FollowThenNext(t: Table, a: TokenId, n: nat, b: TokenId, c: TokenId)
    requires Follow(t, a, n) == Some(b) && b in t && t[b].replacedBy == Some(c) && c in t
    ensures Follow(t, a, n + 1) == Some(c)
    decreases n
  {
    if n == 0 {
      assert Follow(t, c, 0) == Some(c);
    } else {
      FollowThenNext(t, t[a].replacedBy.value, n - 1, b, c);
    }
  }

  lemma ReachesNext(t: Table, a: TokenId, b: TokenId, c: TokenId)
    requires Reaches(t, a, b) && b in t && t[b].replacedBy == Some(c) && c in t
    ensures Reaches(t, a, c)
  {
    var n: nat :| Follow(t, a, n) == Some(b);
    FollowThenNext(t, a, n, b, c);
  }

  lemma {:induction false} ClosedHoldsEverythingAfter(t: Table, s: set<TokenId>, i: TokenId, n: nat)
    requires s <= t.Keys && i in s && Follow(t, i, n).Some?
    requires forall k :: k in s && t[k].replacedBy.Some? && t[k].replacedBy.value in t ==> t[k].replacedBy.value in s
    ensures Follow(t, i, n).value in s
    decreases n
  {
    if n == 0 {
    } else {
      ClosedHoldsEverythingAfter(t, s, t[i].replacedBy.value, n - 1);
    }
  }

  // ---------------------------------------------------------------- classes

  class RefreshTokenRepository {
    const session: Session<Table>

    constructor (s: Session<Table>)
      ensures session == s
    {
      session := s;
    }

    method SelectByHash(h: Digest) returns (found: Option<TokenId>)
      requires UniqueHashes(session.staged)
      ensures found == Find(session.staged, h)
    {
      if i :| i in session.staged.Keys && session.staged[i].hash == h {
        found := Some(i);
      } else {
        found := None;
      }
    }

    /** Fails on a primary-key or token_hash collision. */
    method InsertRow(id: TokenId, row: Row) returns (ok: bool)
      modifies session
      ensures ok <==> id !in old(session.staged) && HashFree(old(session.staged), row.hash)
      ensures session.staged == if ok then old(session.staged)[id := row] else old(session.staged)
    {
      ok := id !in session.staged && !(exists i :: i in session.staged.Keys && session.staged[i].hash == row.hash);
      if ok {
        session.staged := session.staged[id := row];
      }
    }

    method Insert(subject: string, client: string, raw: string, scopes: set<string>, expiresAt: int,
                  newId: TokenId, faultAt: nat) returns (r: Result<TokenId, Error>)
      modifies session, session.db
      ensures session.staged == session.db.rows
      ensures var before := old(session.db.rows);
        r.Ok? <==> !(1 <= faultAt <= 2) && newId !in before && HashFree(before, Sha256(raw))
      ensures var row := FreshRow(Sha256(raw), subject, client, scopes, expiresAt);
        r.Ok? ==> r.value == newId && session.db.rows == old(session.db.rows)[newId := row]
      ensures r.Err? ==> r.error == DatabaseUnavailable && session.db.rows == old(session.db.rows)
    {
      session.Begin();
      var ok := false;
      if faultAt != 1 {
        ok := InsertRow(newId, FreshRow(Sha256(raw), subject, client, scopes, expiresAt));
      }
      if !ok || faultAt == 2 {
        session.Rollback();
        return Err(DatabaseUnavailable);
      }
      session.Commit();
      return Ok(newId);
    }

    /** `firstStatement` is the number of the UPDATE within the enclosing call. */
    method RevokeFamily(id: TokenId, now: int, firstStatement: nat, faultAt: nat) returns (ok: bool)
      requires session.staged == session.db.rows
      modifies session, session.db
      ensures session.staged == session.db.rows
      ensures ok <==> faultAt != firstStatement && faultAt != firstStatement + 1
      ensures session.db.rows == if ok then Revoked(old(session.db.rows), Descendants(old(session.db.rows), id), now)
                                 else old(session.db.rows)
    {
      if faultAt == firstStatement {
        session.Rollback();
        return false;
      }
      var family := FamilyQuery(session.staged, id);
      session.staged := Revoked(session.staged, family, now);
      if faultAt == firstStatement + 1 {
        session.Rollback();
        return false;
      }
      session.Commit();
      return true;
    }

    method RevokeActiveForClient(client: string, now: int, faultAt: nat) returns (ok: bool)
      modifies session, session.db
      ensures session.staged == session.db.rows
      ensures ok <==> faultAt != 1 && faultAt != 2
      ensures session.db.rows == if ok then Revoked(old(session.db.rows), ClientRows(old(session.db.rows), client), now)
                                 else old(session.db.rows)
    {
      session.Begin();
      if faultAt == 1 {
        session.Rollback();
        return false;
      }
      session.staged := Revoked(session.staged, ClientRows(session.staged, client), now);
      if faultAt == 2 {
        session.Rollback();
        return false;
      }
      session.Commit();
      return true;
    }

    /** A rotated row is a replay: its family goes first.  Always ends in an error. */
    method RejectRevoked(i: TokenId, now: int, faultAt: nat) returns (e: Error)
      requires session.staged == session.db.rows && i in session.staged
      modifies session, session.db
      ensures session.staged == session.db.rows
      ensures old(session.db.rows)[i].replacedBy.Some? ==>
        var fault := faultAt == 2 || faultAt == 3;
        (session.db.rows, Err(e)) == RevokeFamilySpec<Record>(old(session.db.rows), i, now, fault, UsedOrRevoked)
      ensures old(session.db.rows)[i].replacedBy.None? ==> e == UsedOrRevoked && session.db.rows == old(session.db.rows)
    {
      if session.staged[i].replacedBy.Some? {
        var ok := RevokeFamily(i, now, 2, faultAt);
        if !ok {
          return DatabaseUnavailable;
        }
      }
      return UsedOrRevoked;
    }

    method LookupActive(raw: string, now: int, faultAt: nat) returns (r: Result<Record, Error>)
      requires UniqueHashes(session.db.rows)
      modifies session, session.db
      ensures session.staged == session.db.rows
      ensures (session.db.rows, r) == LookupSpec(old(session.db.rows), raw, now, faultAt)
    {
      session.Begin();
      if faultAt == 1 {
        return Err(DatabaseUnavailable);
      }
      var found := SelectByHash(Sha256(raw));
      if found.None? {
        return Err(InvalidToken);
      }
      var i := found.value;
      var row := session.staged[i];
      if row.revokedAt.Some? {
        var e := RejectRevoked(i, now, faultAt);
        return Err(e);
      }
      if row.expiresAt <= now {
        return Err(TokenExpired);
      }
      return Ok(Record(i, row.subject, row.client, row.scopes, row.expiresAt));
    }

    /** Whatever statement fails, the committed rows end up as they were, fully
        rotated, or exactly family-revoked, and nothing stays half done in the
        session: a replay's revocation survives the rollback that follows it. */
    method Rotate(raw: string, newRaw: string, newExpires: int, scopes: Option<set<string>>,
                  newId: TokenId, now: int, faultAt: nat) returns (r: Result<Record, Error>)
      requires UniqueHashes(session.db.rows)
      modifies session, session.db
      ensures session.staged == session.db.rows
      ensures (session.db.rows, r)
              == RotateSpec(old(session.db.rows), raw, newRaw, newExpires, scopes, newId, now, faultAt)
    {
      session.Begin();
      if faultAt == 1 {
        session.Rollback();
        return Err(DatabaseUnavailable);
      }
      var found := SelectByHash(Sha256(raw));
      if found.None? {
        session.Rollback();
        return Err(InvalidToken);
      }
      var i := found.value;
      var row := session.staged[i];
      if row.revokedAt.Some? {
        var e := RejectRevoked(i, now, faultAt);
        session.Rollback();
        return Err(e);
      }
      if row.expiresAt <= now {
        session.Rollback();
        return Err(TokenExpired);
      }
      var kept := if scopes.Some? then scopes.value else row.scopes;
      var ok := false;
      if faultAt != 2 {
        ok := InsertRow(newId, FreshRow(Sha256(newRaw), row.subject, row.client, kept, newExpires));
      }
      if !ok || faultAt == 3 {
        session.Rollback();
        return Err(DatabaseUnavailable);
      }
      session.staged := session.staged[i := row.(revokedAt := Some(now), replacedBy := Some(newId))];
      if faultAt == 4 {
        session.Rollback();
        return Err(DatabaseUnavailable);
      }
      session.Commit();
      return Ok(Record(newId, row.subject, row.client, kept, newExpires));
    }
  }
}
