/**
  The rows of iam.refresh_tokens and what each SQL statement does to them.

  A rotation links a row to its replacement through `replacedBy`, so the rows
  form chains.  `WellFormed` says so without mentioning any statement: every row
  has a place (the first row of its chain, its distance from it), and following
  `replacedBy` moves one place along.
 */
module RefreshTable {
  import opened Base

  type TokenId = nat

  /** SHA-256 idealised as a free (hence injective) constructor. */
  datatype Digest = Sha256(raw: string)

  datatype Row = Row(
    hash: Digest,
    subject: string,
    client: string,
    scopes: set<string>,
    expiresAt: int,
    revokedAt: Option<int>,
    replacedBy: Option<TokenId>)
  {
    predicate Live() {
      revokedAt.None?
    }
  }

  type Table = map<TokenId, Row>

  // ---------------------------------------------------------------- families

  /** The row `n` rotations after `id`, if there is one. */
  ghost function Follow(t: Table, id: TokenId, n: nat): Option<TokenId>
    decreases n
  {
    if id !in t then None
    else if n == 0 then Some(id)
    else match t[id].replacedBy
      case None => None
      case Some(next) => Follow(t, next, n - 1)
  }

  ghost predicate Reaches(t: Table, a: TokenId, b: TokenId) {
    exists n: nat :: Follow(t, a, n) == Some(b)
  }

  ghost function Descendants(t: Table, id: TokenId): set<TokenId> {
    set b | b in t && Reaches(t, id, b)
  }

  /** Ancestors, descendants and the row itself. */
  ghost function Family(t: Table, id: TokenId): set<TokenId> {
    set b | b in t && (Reaches(t, id, b) || Reaches(t, b, id))
  }

  ghost predicate Dead(t: Table, id: TokenId) {
    forall b :: b in Family(t, id) ==> !t[b].Live()
  }

  // ------------------------------------------------------------- statements

  /** UPDATE ... SET revoked_at WHERE id IN ids AND revoked_at IS NULL */
  function Revoked(t: Table, ids: set<TokenId>, now: int): Table {
    map i | i in t :: if i in ids && t[i].Live() then t[i].(revokedAt := Some(now)) else t[i]
  }

  function ClientRows(t: Table, client: string): set<TokenId> {
    set i | i in t && t[i].client == client
  }

  ghost predicate HashFree(t: Table, h: Digest) {
    forall i :: i in t ==> t[i].hash != h
  }

  function FreshRow(h: Digest, subject: string, client: string, scopes: set<string>, expiresAt: int): Row {
    Row(h, subject, client, scopes, expiresAt, None, None)
  }

  /** The two statements of a rotation: INSERT the replacement, UPDATE the presented row. */
  function Rotated(t: Table, presented: TokenId, replacement: TokenId, h: Digest, scopes: set<string>, expiresAt: int,
                   now: int): Table
    requires presented in t
  {
    var inserted := t[replacement := FreshRow(h, t[presented].subject, t[presented].client, scopes, expiresAt)];
    inserted[presented := t[presented].(revokedAt := Some(now), replacedBy := Some(replacement))]
  }

  // ------------------------------------------------------------- invariants

  datatype Place = Place(root: TokenId, index: nat)

  type Places = map<TokenId, Place>

  ghost predicate Placed(t: Table, pos: Places) {
    && pos.Keys == t.Keys
    && (forall i {:trigger RootOk(pos, i)} :: i in t ==> RootOk(pos, i))
    && (forall i, j :: i in t && j in t && pos[i] == pos[j] ==> i == j)
    && (forall i, j {:trigger LinkOk(t, pos, i, j)} :: i in t && t[i].replacedBy == Some(j) ==> LinkOk(t, pos, i, j))
    && (forall i, j {:trigger Before(pos, i, j)} :: i in t && j in t && Before(pos, i, j) ==> t[i].replacedBy.Some?)
  }

  ghost predicate RootOk(pos: Places, i: TokenId) {
    i in pos && pos[i].root in pos && pos[pos[i].root] == Place(pos[i].root, 0)
  }

  ghost predicate Before(pos: Places, i: TokenId, j: TokenId) {
    i in pos && j in pos && pos[i].root == pos[j].root && pos[i].index < pos[j].index
  }

  /** Row `i` was rotated into row `j`. */
  ghost predicate LinkOk(t: Table, pos: Places, i: TokenId, j: TokenId) {
    && i in t && j in t && i in pos && j in pos
    && pos[j] == Place(pos[i].root, pos[i].index + 1)
    && !t[i].Live()
    && t[j].client == t[i].client
    && t[j].subject == t[i].subject
  }

  ghost predicate UniqueHashes(t: Table) {
    forall i, j :: i in t && j in t && t[i].hash == t[j].hash ==> i == j
  }

  ghost predicate WellFormed(t: Table) {
    UniqueHashes(t) && exists pos: Places :: Placed(t, pos)
  }

  /** Rows are never deleted, and what they were issued with, their revocation
      time and their replacement are written at most once. */
  ghost predicate WriteOnce(t: Table, t': Table) {
    forall i :: i in t ==>
      && i in t'
      && t'[i] == t[i].(revokedAt := t'[i].revokedAt, replacedBy := t'[i].replacedBy)
      && (t[i].revokedAt.Some? ==> t'[i].revokedAt == t[i].revokedAt)
      && (t[i].replacedBy.Some? ==> t'[i].replacedBy == t[i].replacedBy)
  }

  // ------------------------------------------------- chains and reachability

  lemma LinkOf(t: Table, pos: Places, i: TokenId)
    requires Placed(t, pos) && i in t
    ensures RootOk(pos, i)
    ensures t[i].replacedBy.Some? ==> LinkOk(t, pos, i, t[i].replacedBy.value)
  {
  }

  /** Every row but the last of its chain has been rotated, hence revoked. */
  lemma EarlierIsSpent(t: Table, pos: Places, i: TokenId, j: TokenId)
    requires Placed(t, pos) && i in t && j in t
    ensures Before(pos, i, j) ==> t[i].replacedBy.Some? && LinkOk(t, pos, i, t[i].replacedBy.value)
  {
    LinkOf(t, pos, i);
  }

  lemma {:induction false} FollowMovesAlong(t: Table, pos: Places, i: TokenId, n: nat)
    requires Placed(t, pos) && i in t && Follow(t, i, n).Some?
    ensures var j := Follow(t, i, n).value; j in t && pos[j] == Place(pos[i].root, pos[i].index + n)
    decreases n
  {
    if n == 0 {
    } else {
      assert LinkOk(t, pos, i, t[i].replacedBy.value);
      FollowMovesAlong(t, pos, t[i].replacedBy.value, n - 1);
    }
  }

  lemma {:induction false} FollowReachesLater(t: Table, pos: Places, i: TokenId, j: TokenId)
    requires Placed(t, pos) && i in t && j in t
    requires pos[i].root == pos[j].root && pos[i].index <= pos[j].index
    ensures Follow(t, i, pos[j].index - pos[i].index) == Some(j)
    decreases pos[j].index - pos[i].index
  {
    if pos[i].index == pos[j].index {
    } else {
      EarlierIsSpent(t, pos, i, j);
      FollowReachesLater(t, pos, t[i].replacedBy.value, j);
    }
  }

  /** Reachability is the order of places within one chain. */
  lemma ReachesIsOrder(t: Table, pos: Places, i: TokenId, j: TokenId)
    requires Placed(t, pos) && i in t && j in t
    ensures Reaches(t, i, j) <==> pos[i].root == pos[j].root && pos[i].index <= pos[j].index
  {
    if Reaches(t, i, j) {
      var n: nat :| Follow(t, i, n) == Some(j);
      FollowMovesAlong(t, pos, i, n);
    }
    if pos[i].root == pos[j].root && pos[i].index <= pos[j].index {
      FollowReachesLater(t, pos, i, j);
    }
  }

  /** The rows of one chain, and those from one row on. */
  function Chain(pos: Places, i: TokenId): set<TokenId>
    requires i in pos
  {
    set j | j in pos && pos[j].root == pos[i].root
  }

  function Suffix(pos: Places, i: TokenId): set<TokenId>
    requires i in pos
  {
    set j | j in pos && pos[j].root == pos[i].root && pos[i].index <= pos[j].index
  }

  lemma FamilyIsChain(t: Table, pos: Places, i: TokenId)
    requires Placed(t, pos) && i in t
    ensures Family(t, i) == Chain(pos, i) && Descendants(t, i) == Suffix(pos, i) && i in Chain(pos, i)
  {
    forall j | j in t
      ensures j in Family(t, i) <==> j in Chain(pos, i)
      ensures j in Descendants(t, i) <==> j in Suffix(pos, i)
    {
      ReachesIsOrder(t, pos, i, j);
      ReachesIsOrder(t, pos, j, i);
    }
  }

  /** A well-formed table is a disjoint union of simple finite paths. */
  lemma TableIsDisjointPaths(t: Table)
    requires WellFormed(t)
    ensures forall i, n: nat :: i in t && n > 0 ==> Follow(t, i, n) != Some(i)
    ensures forall i, j :: i in t && j in t && t[i].replacedBy.Some? && t[i].replacedBy == t[j].replacedBy ==> i == j
    ensures forall i :: i in t && t[i].replacedBy.Some? ==>
              var j := t[i].replacedBy.value;
              j in t && t[j].client == t[i].client && t[j].subject == t[i].subject && !t[i].Live()
    ensures forall i, a, b :: i in t && a in Family(t, i) && b in Family(t, i) ==> Reaches(t, a, b) || Reaches(t, b, a)
    ensures forall i, a :: i in t && a in Family(t, i) ==> Family(t, a) == Family(t, i)
  {
    var pos: Places :| Placed(t, pos);
    forall i | i in t && t[i].replacedBy.Some? ensures LinkOk(t, pos, i, t[i].replacedBy.value) {
    }
    forall i, n: nat | i in t && n > 0 ensures Follow(t, i, n) != Some(i) {
      if Follow(t, i, n).Some? { FollowMovesAlong(t, pos, i, n); }
    }
    forall i, a, b | i in t && a in Family(t, i) && b in Family(t, i) ensures Reaches(t, a, b) || Reaches(t, b, a) {
      FamilyIsChain(t, pos, i);
      ReachesIsOrder(t, pos, a, b);
      ReachesIsOrder(t, pos, b, a);
    }
    forall i, a | i in t && a in Family(t, i) ensures Family(t, a) == Family(t, i) {
      FamilyIsChain(t, pos, i);
      FamilyIsChain(t, pos, a);
    }
  }

  /** Each family has at most one live token, and it is the tail of the family. */
  lemma LiveTokenIsTail(t: Table, i: TokenId, a: TokenId)
    requires WellFormed(t) && i in t && a in Family(t, i) && t[a].Live()
    ensures t[a].replacedBy.None?
    ensures forall b :: b in Family(t, i) ==> Reaches(t, b, a) && (b != a ==> !t[b].Live())
  {
    var pos: Places :| Placed(t, pos);
    FamilyIsChain(t, pos, i);
    LinkOf(t, pos, a);
    forall b | b in Family(t, i) ensures Reaches(t, b, a) && (b != a ==> !t[b].Live()) {
      ReachesIsOrder(t, pos, b, a);
      EarlierIsSpent(t, pos, a, b);
      EarlierIsSpent(t, pos, b, a);
      assert Before(pos, a, b) || Before(pos, b, a) || pos[a] == pos[b];
    }
  }

  // ------------------------------------------------------ steps keep chains

  lemma RevokeKeepsPlaces(t: Table, pos: Places, ids: set<TokenId>, now: int)
    requires Placed(t, pos)
    ensures Placed(Revoked(t, ids, now), pos)
  {
    var t' := Revoked(t, ids, now);
    forall i, j | i in t' && t'[i].replacedBy == Some(j) ensures LinkOk(t', pos, i, j) {
      LinkOf(t, pos, i);
    }
    forall i, j | i in t' && j in t' && Before(pos, i, j) ensures t'[i].replacedBy.Some? {
      EarlierIsSpent(t, pos, i, j);
    }
  }

  lemma InsertKeepsPlaces(t: Table, pos: Places, id: TokenId, row: Row)
    requires Placed(t, pos) && id !in t && row.replacedBy.None?
    ensures Placed(t[id := row], pos[id := Place(id, 0)])
  {
    var t', pos' := t[id := row], pos[id := Place(id, 0)];
    forall i | i in t ensures RootOk(pos, i) && pos[i].root != id {
      LinkOf(t, pos, i);
    }
    forall i, j | i in t' && t'[i].replacedBy == Some(j) ensures LinkOk(t', pos', i, j) {
      LinkOf(t, pos, i);
    }
    forall i | i in t' ensures RootOk(pos', i) {
    }
    forall i, j | i in t' && j in t' && Before(pos', i, j) ensures t'[i].replacedBy.Some? {
      assert i in t && j in t;
      EarlierIsSpent(t, pos, i, j);
    }
  }

  ghost function PlacesAfterRotate(pos: Places, presented: TokenId, replacement: TokenId): Places
    requires presented in pos
  {
    pos[replacement := Place(pos[presented].root, pos[presented].index + 1)]
  }

  lemma RotateKeepsPlaces(t: Table, pos: Places, presented: TokenId, replacement: TokenId, h: Digest,
                          scopes: set<string>, expiresAt: int, now: int)
    requires Placed(t, pos) && presented in t && t[presented].Live() && replacement !in t
    ensures Placed(Rotated(t, presented, replacement, h, scopes, expiresAt, now),
                   PlacesAfterRotate(pos, presented, replacement))
  {
    var t' := Rotated(t, presented, replacement, h, scopes, expiresAt, now);
    var pos' := PlacesAfterRotate(pos, presented, replacement);
    LinkOf(t, pos, presented);
    forall i | i in t' ensures RootOk(pos', i) {
      LinkOf(t, pos, if i in t then i else presented);
    }
    forall i, j | i in t' && t'[i].replacedBy == Some(j) ensures LinkOk(t', pos', i, j) {
      LinkOf(t, pos, i);
    }
    forall i, j | i in t' && j in t' && Before(pos', i, j) ensures t'[i].replacedBy.Some? {
      SpentAfterRotate(t, pos, presented, replacement, i, j);
    }
    forall i, j | i in t' && j in t' && pos'[i] == pos'[j] ensures i == j {
      PlaceAfterRotateIsNew(t, pos, presented, i);
      PlaceAfterRotateIsNew(t, pos, presented, j);
    }
  }

  lemma PlaceAfterRotateIsNew(t: Table, pos: Places, presented: TokenId, i: TokenId)
    requires Placed(t, pos) && presented in t && t[presented].replacedBy.None?
    ensures i in t ==> pos[i] != Place(pos[presented].root, pos[presented].index + 1)
  {
    if i in t {
      EarlierIsSpent(t, pos, presented, i);
    }
  }

  lemma SpentAfterRotate(t: Table, pos: Places, presented: TokenId, replacement: TokenId, i: TokenId, j: TokenId)
    requires Placed(t, pos) && presented in t && t[presented].replacedBy.None? && replacement !in t
    requires Before(PlacesAfterRotate(pos, presented, replacement), i, j)
    ensures i in t && (i == presented || t[i].replacedBy.Some?)
  {
    if i == replacement {
      if j in t { EarlierIsSpent(t, pos, presented, j); }
    } else if j == replacement {
      EarlierIsSpent(t, pos, i, presented);
      assert pos[i] == pos[presented] ==> i == presented;
    } else {
      EarlierIsSpent(t, pos, i, j);
    }
  }

  lemma RevokeIsWriteOnce(t: Table, ids: set<TokenId>, now: int)
    ensures WriteOnce(t, Revoked(t, ids, now))
    ensures UniqueHashes(t) ==> UniqueHashes(Revoked(t, ids, now))
  {
  }

  lemma InsertIsWriteOnce(t: Table, id: TokenId, row: Row)
    requires id !in t && HashFree(t, row.hash)
    ensures WriteOnce(t, t[id := row])
    ensures UniqueHashes(t) ==> UniqueHashes(t[id := row])
  {
  }

  lemma RotateIsWriteOnce(t: Table, presented: TokenId, replacement: TokenId, h: Digest, scopes: set<string>,
                          expiresAt: int, now: int)
    requires presented in t && t[presented].Live() && t[presented].replacedBy.None?
    requires replacement !in t && HashFree(t, h)
    ensures WriteOnce(t, Rotated(t, presented, replacement, h, scopes, expiresAt, now))
    ensures UniqueHashes(t) ==> UniqueHashes(Rotated(t, presented, replacement, h, scopes, expiresAt, now))
  {
  }

  // ------------------------------------------------------------ revocation

  /** Revoking the descendants of any row leaves no live token in its whole
      family, ancestors included, and touches nothing outside that family. */
  lemma RevokingDescendantsKillsFamily(t: Table, id: TokenId, now: int)
    requires WellFormed(t) && id in t
    ensures var t' := Revoked(t, Descendants(t, id), now);
      && Dead(t', id)
      && Family(t', id) == Family(t, id)
      && (forall i :: i in t && i !in Family(t, id) ==> t'[i] == t[i])
  {
    var pos: Places :| Placed(t, pos);
    var t' := Revoked(t, Suffix(pos, id), now);
    FamilyIsChain(t, pos, id);
    RevokeKeepsPlaces(t, pos, Suffix(pos, id), now);
    FamilyIsChain(t', pos, id);
    forall b | b in Chain(pos, id) ensures !t'[b].Live() {
      RevokedSuffixIsSpent(t, pos, id, b, now);
    }
  }

  lemma RevokedSuffixIsSpent(t: Table, pos: Places, id: TokenId, b: TokenId, now: int)
    requires Placed(t, pos) && id in t && b in t && b in Chain(pos, id)
    ensures !Revoked(t, Suffix(pos, id), now)[b].Live()
  {
    if b !in Suffix(pos, id) {
      assert Before(pos, b, id);
      EarlierIsSpent(t, pos, b, id);
    }
  }

  /** The revocation statement run in two phases: the family is computed on `t`
      when the statement starts, the rows are updated later, on `later`.  The
      family is dead afterwards exactly when no live member of it is a row that
      the start of the statement had not seen. */
  lemma LateRevokeKillsFamilyIffNothingNew(t: Table, pos: Places, later: Table, laterPos: Places, id: TokenId, now: int)
    requires Placed(t, pos) && Placed(later, laterPos) && id in t
    requires WriteOnce(t, later) && (forall i :: i in t ==> laterPos[i] == pos[i])
    ensures Dead(Revoked(later, Descendants(t, id), now), id)
            <==> forall b :: b in Family(later, id) && later[b].Live() ==> b in t
  {
    var swept := Revoked(later, Suffix(pos, id), now);
    FamilyIsChain(t, pos, id);
    SweepKeepsFamily(later, laterPos, Suffix(pos, id), id, now);
    forall b | b in Chain(laterPos, id) && later[b].Live() ensures swept[b].Live() <==> b !in t {
      SweptIffKnown(t, pos, later, laterPos, id, b);
    }
  }

  lemma SweepKeepsFamily(t: Table, pos: Places, ids: set<TokenId>, id: TokenId, now: int)
    requires Placed(t, pos) && id in t
    ensures Family(t, id) == Family(Revoked(t, ids, now), id) == Chain(pos, id)
  {
    RevokeKeepsPlaces(t, pos, ids, now);
    FamilyIsChain(t, pos, id);
    FamilyIsChain(Revoked(t, ids, now), pos, id);
  }

  /** A live row of the family was known when the statement started exactly when it
      was among the descendants then. */
  lemma SweptIffKnown(t: Table, pos: Places, later: Table, laterPos: Places, id: TokenId, b: TokenId)
    requires Placed(t, pos) && Placed(later, laterPos) && id in t && WriteOnce(t, later)
    requires forall i :: i in t ==> laterPos[i] == pos[i]
    requires b in Chain(laterPos, id) && later[b].Live()
    ensures b in Suffix(pos, id) <==> b in t
  {
    if b in t && b !in Suffix(pos, id) {
      assert Before(pos, b, id);
      EarlierIsSpent(t, pos, b, id);
    }
  }

  lemma OneRow() returns (t: Table)
    ensures WellFormed(t) && t.Keys == {1} && t[1].hash == Sha256("a") && t[1].Live() && 1 in Family(t, 1)
  {
    var t0: Table, pos0: Places := map[], map[];
    assert Placed(t0, pos0);
    var w := Insert(1, FreshRow(Sha256("a"), "service:x", "x", {"s"}, 9));
    WriteKeepsWellFormed(t0, w);
    t := Exec(t0, w);
    assert Follow(t, 1, 0) == Some(1);
  }

  lemma TwoRows() returns (t: Table)
    ensures WellFormed(t) && t.Keys == {1, 2} && HashFree(t, Sha256("c")) && t[2].Live() && 2 in Family(t, 1)
  {
    var one := OneRow();
    var w := Rotate(1, 2, Sha256("b"), {"s"}, 9, 5);
    WriteKeepsWellFormed(one, w);
    FamilyAfterRotation(one, 1, w);
    t := Exec(one, w);
  }

  /** A run the two-phase statement misses: row 1 is replayed (its family, rows 1
      and 2, is computed), row 2 is rotated into row 3, then the update runs.
      Row 3 stays live; it is a descendant, so revoking once more kills it. */
  lemma LateRevokeCanMissARotation()
    ensures exists t: Table :: MissesARotation(t)
  {
    var t := TwoRows();
    MissedRotation(t);
  }

  /** Rows 1 and 2 are one family; row 2 is rotated while 1's revocation runs. */
  ghost predicate MissesARotation(t: Table) {
    && WellFormed(t) && 1 in t && 2 in t && t[2].Live()
    && var later := Rotated(t, 2, 3, Sha256("c"), {"s"}, 9, 6);
    && WellFormed(later)
    && !Dead(Revoked(later, Descendants(t, 1), 7), 1)
    && Dead(Revoked(later, Descendants(later, 1), 7), 1)
  }

  lemma MissedRotation(t: Table)
    requires WellFormed(t) && 1 in t && 2 in Family(t, 1) && t[2].Live() && 3 !in t && HashFree(t, Sha256("c"))
    ensures MissesARotation(t)
  {
    var w := Rotate(2, 3, Sha256("c"), {"s"}, 9, 6);
    LateRevokeMissesExactlyARotation(t, 1, w, 7);
    WriteKeepsWellFormed(t, w);
    RevokingDescendantsKillsFamily(Exec(t, w), 1, 7);
  }

  // ------------------------------------------------- one write, whatever it is

  /** The write, if any, of one transaction. */
  datatype Write =
    | NoWrite
    | Revoke(ids: set<TokenId>, at: int)
    | Insert(id: TokenId, row: Row)
    | Rotate(presented: TokenId, replacement: TokenId, hash: Digest, scopes: set<string>, expiresAt: int, at: int)

  /** The constraints of the table, and the row lock a rotation holds. */
  ghost predicate Allowed(t: Table, w: Write) {
    match w
    case NoWrite => true
    case Revoke(_, _) => true
    case Insert(id, row) => id !in t && HashFree(t, row.hash) && row.replacedBy.None?
    case Rotate(i, n, h, _, _, _) => i in t && t[i].Live() && n !in t && HashFree(t, h)
  }

  function Exec(t: Table, w: Write): Table
    requires w.Rotate? ==> w.presented in t
  {
    match w
    case NoWrite => t
    case Revoke(ids, at) => Revoked(t, ids, at)
    case Insert(id, row) => t[id := row]
    case Rotate(i, n, h, s, x, at) => Rotated(t, i, n, h, s, x, at)
  }

  /** Row `i` was rotated into row `j` with no scope added. */
  ghost predicate Narrows(t: Table, i: TokenId, j: TokenId) {
    i in t && j in t && t[j].scopes <= t[i].scopes
  }

  ghost predicate ScopesNarrow(t: Table) {
    forall i, j {:trigger Narrows(t, i, j)} :: i in t && t[i].replacedBy == Some(j) ==> Narrows(t, i, j)
  }

  ghost function PlacesAfter(t: Table, pos: Places, w: Write): Places
    requires w.Rotate? ==> w.presented in pos
  {
    match w
    case Insert(id, _) => pos[id := Place(id, 0)]
    case Rotate(i, n, _, _, _, _) => PlacesAfterRotate(pos, i, n)
    case _ => pos
  }

  lemma WriteKeepsPlaces(t: Table, pos: Places, w: Write)
    requires Placed(t, pos) && Allowed(t, w)
    ensures Placed(Exec(t, w), PlacesAfter(t, pos, w))
  {
    match w {
      case NoWrite =>
      case Revoke(ids, at) => RevokeKeepsPlaces(t, pos, ids, at);
      case Insert(id, row) => InsertKeepsPlaces(t, pos, id, row);
      case Rotate(i, n, h, s, x, at) => RotateKeepsPlaces(t, pos, i, n, h, s, x, at);
    }
  }

  lemma WriteKeepsScopesNarrow(t: Table, w: Write)
    requires ScopesNarrow(t) && Allowed(t, w) && (w.Rotate? ==> w.scopes <= t[w.presented].scopes)
    ensures ScopesNarrow(Exec(t, w))
  {
    var t' := Exec(t, w);
    forall i, j | i in t' && t'[i].replacedBy == Some(j) ensures Narrows(t', i, j) {
      assert i in t && t[i].replacedBy == Some(j) ==> Narrows(t, i, j);
    }
  }

  /** Every allowed write keeps the table a union of paths and is write-once. */
  lemma WriteKeepsWellFormed(t: Table, w: Write)
    requires WellFormed(t) && Allowed(t, w)
    ensures WellFormed(Exec(t, w)) && WriteOnce(t, Exec(t, w))
  {
    var pos: Places :| Placed(t, pos);
    WriteKeepsPlaces(t, pos, w);
    match w {
      case NoWrite =>
      case Revoke(ids, at) => RevokeIsWriteOnce(t, ids, at);
      case Insert(id, row) => InsertIsWriteOnce(t, id, row);
      case Rotate(i, n, h, s, x, at) =>
        LinkOf(t, pos, i);
        RotateIsWriteOnce(t, i, n, h, s, x, at);
    }
  }

  /** Only rotating one of its own tokens makes a family grow. */
  lemma FamilyGrowsOnlyByItsOwnRotation(t: Table, id: TokenId, w: Write)
    requires WellFormed(t) && id in t && Allowed(t, w)
    requires w.Rotate? ==> w.presented !in Family(t, id)
    ensures Family(Exec(t, w), id) == Family(t, id)
  {
    var pos: Places :| Placed(t, pos);
    WriteKeepsPlaces(t, pos, w);
    PlacesOutside(t, pos, id, w);
    SamePlacesSameFamily(t, pos, Exec(t, w), PlacesAfter(t, pos, w), id);
  }

  lemma PlacesOutside(t: Table, pos: Places, id: TokenId, w: Write)
    requires Placed(t, pos) && id in t && Allowed(t, w)
    requires w.Rotate? ==> w.presented !in Family(t, id)
    ensures t.Keys <= Exec(t, w).Keys
    ensures forall j :: j in t ==> PlacesAfter(t, pos, w)[j] == pos[j]
    ensures forall j :: j in Exec(t, w) && j !in t ==> PlacesAfter(t, pos, w)[j].root != pos[id].root
  {
    LinkOf(t, pos, id);
    match w {
      case Insert(_, _) =>
      case Rotate(i, n, _, _, _, _) =>
        assert pos[i].root != pos[id].root by {
          FamilyIsChain(t, pos, id);
        }
      case _ =>
    }
  }

  lemma SamePlacesSameFamily(t: Table, pos: Places, t': Table, pos': Places, id: TokenId)
    requires Placed(t, pos) && Placed(t', pos') && id in t && t.Keys <= t'.Keys
    requires forall j :: j in t ==> pos'[j] == pos[j]
    requires forall j :: j in t' && j !in t ==> pos'[j].root != pos[id].root
    ensures Family(t', id) == Family(t, id)
  {
    FamilyIsChain(t, pos, id);
    FamilyIsChain(t', pos', id);
  }

  /** A family without a live token never gets one again. */
  lemma DeadFamilyStaysDead(t: Table, id: TokenId, w: Write)
    requires WellFormed(t) && id in t && Dead(t, id) && Allowed(t, w)
    ensures Dead(Exec(t, w), id) && Family(Exec(t, w), id) == Family(t, id)
  {
    FamilyGrowsOnlyByItsOwnRotation(t, id, w);
    forall b | b in Family(t, id) ensures b in Exec(t, w) && !Exec(t, w)[b].Live() {
      SpentRowStaysSpent(t, b, w);
    }
  }

  lemma SpentRowStaysSpent(t: Table, b: TokenId, w: Write)
    requires b in t && !t[b].Live() && Allowed(t, w)
    ensures b in Exec(t, w) && !Exec(t, w)[b].Live()
  {
  }

  // ------------------------------------------ what ran while a family was revoked

  ghost predicate AllAllowed(t: Table, ws: seq<Write>)
    decreases |ws|
  {
    ws == [] || (Allowed(t, ws[0]) && AllAllowed(Exec(t, ws[0]), ws[1..]))
  }

  ghost function ExecAll(t: Table, ws: seq<Write>): Table
    requires AllAllowed(t, ws)
    decreases |ws|
  {
    if ws == [] then t else ExecAll(Exec(t, ws[0]), ws[1..])
  }

  ghost predicate RotatesMember(t: Table, w: Write, id: TokenId) {
    w.Rotate? && w.presented in Family(t, id)
  }

  /** Some write rotates a row that is then in the family. */
  ghost predicate SomeRotatesMember(t: Table, ws: seq<Write>, id: TokenId)
    requires AllAllowed(t, ws)
    decreases |ws|
  {
    ws != [] && (RotatesMember(t, ws[0], id) || SomeRotatesMember(Exec(t, ws[0]), ws[1..], id))
  }

  /** What is live in the family was not there before. */
  ghost predicate OnlyNewIsLive(known: set<TokenId>, t: Table, id: TokenId) {
    forall b :: b in Family(t, id) && t[b].Live() ==> b !in known
  }

  lemma ChainAfterRotation(pos: Places, id: TokenId, presented: TokenId, replacement: TokenId)
    requires id in pos && presented in Chain(pos, id) && replacement !in pos
    ensures Chain(PlacesAfterRotate(pos, presented, replacement), id) == Chain(pos, id) + {replacement}
  {
  }

  lemma FamilyAfterRotation(t: Table, id: TokenId, w: Write)
    requires WellFormed(t) && id in t && Allowed(t, w) && RotatesMember(t, w, id)
    ensures Family(Exec(t, w), id) == Family(t, id) + {w.replacement}
  {
    var pos: Places :| Placed(t, pos);
    FamilyIsChain(t, pos, id);
    ChainAfterRotation(pos, id, w.presented, w.replacement);
    WriteKeepsPlaces(t, pos, w);
    FamilyOfChain(Exec(t, w), PlacesAfter(t, pos, w), id);
  }

  lemma FamilyOfChain(t: Table, pos: Places, id: TokenId)
    requires Placed(t, pos) && id in t
    ensures Family(t, id) == Chain(pos, id)
  {
    FamilyIsChain(t, pos, id);
  }

  lemma RotationLeavesMembersSpent(t: Table, id: TokenId, w: Write, b: TokenId)
    requires WellFormed(t) && id in t && Allowed(t, w) && RotatesMember(t, w, id) && b in Family(t, id)
    ensures !Exec(t, w)[b].Live()
  {
    LiveTokenIsTail(t, id, w.presented);
  }

  /** A rotation leaves its replacement as the only live row of the family. */
  lemma RotationIsOnlyLive(t: Table, id: TokenId, w: Write)
    requires WellFormed(t) && id in t && Allowed(t, w) && RotatesMember(t, w, id)
    ensures OnlyNewIsLive(t.Keys, Exec(t, w), id)
  {
    FamilyAfterRotation(t, id, w);
    forall b | b in Family(t, id) ensures !Exec(t, w)[b].Live() {
      RotationLeavesMembersSpent(t, id, w, b);
    }
  }

  lemma OnlyNewStaysLive(known: set<TokenId>, t: Table, id: TokenId, w: Write)
    requires WellFormed(t) && id in t && Allowed(t, w) && known <= t.Keys
    requires OnlyNewIsLive(known, t, id) || RotatesMember(t, w, id)
    ensures OnlyNewIsLive(known, Exec(t, w), id)
  {
    if RotatesMember(t, w, id) {
      RotationIsOnlyLive(t, id, w);
    } else {
      FamilyGrowsOnlyByItsOwnRotation(t, id, w);
      WriteKeepsWellFormed(t, w);
    }
  }

  lemma {:induction false} NewAfterRotation(known: set<TokenId>, t: Table, id: TokenId, ws: seq<Write>)
    requires WellFormed(t) && id in t && AllAllowed(t, ws) && known <= t.Keys
    requires OnlyNewIsLive(known, t, id) || SomeRotatesMember(t, ws, id)
    ensures OnlyNewIsLive(known, ExecAll(t, ws), id)
    decreases |ws|
  {
    if ws == [] {
    } else {
      WriteKeepsWellFormed(t, ws[0]);
      if OnlyNewIsLive(known, t, id) || RotatesMember(t, ws[0], id) {
        OnlyNewStaysLive(known, t, id, ws[0]);
      }
      NewAfterRotation(known, Exec(t, ws[0]), id, ws[1..]);
    }
  }

  lemma {:induction false} FamilyWithoutRotation(t: Table, id: TokenId, ws: seq<Write>)
    requires WellFormed(t) && id in t && AllAllowed(t, ws) && !SomeRotatesMember(t, ws, id)
    ensures id in ExecAll(t, ws) && Family(ExecAll(t, ws), id) == Family(t, id)
    decreases |ws|
  {
    if ws == [] {
    } else {
      WriteKeepsWellFormed(t, ws[0]);
      FamilyGrowsOnlyByItsOwnRotation(t, id, ws[0]);
      FamilyWithoutRotation(Exec(t, ws[0]), id, ws[1..]);
    }
  }

  lemma {:induction false} WritesAreWriteOnce(t: Table, ws: seq<Write>)
    requires WellFormed(t) && AllAllowed(t, ws)
    ensures WellFormed(ExecAll(t, ws)) && WriteOnce(t, ExecAll(t, ws))
    decreases |ws|
  {
    if ws == [] {
    } else {
      WriteKeepsWellFormed(t, ws[0]);
      WritesAreWriteOnce(Exec(t, ws[0]), ws[1..]);
    }
  }

  ghost predicate SamePlaces(pos: Places, later: Places) {
    forall i :: i in pos ==> i in later && later[i] == pos[i]
  }

  lemma SamePlacesAfter(t: Table, pos: Places, w: Write)
    requires Placed(t, pos) && Allowed(t, w)
    ensures SamePlaces(pos, PlacesAfter(t, pos, w))
  {
  }

  /** Places do not change while writes run. */
  lemma {:induction false} PlacesStay(t: Table, pos: Places, ws: seq<Write>) returns (later: Places)
    requires Placed(t, pos) && AllAllowed(t, ws)
    ensures Placed(ExecAll(t, ws), later) && SamePlaces(pos, later)
    decreases |ws|
  {
    if ws == [] {
      later := pos;
    } else {
      var next := PlacesAfter(t, pos, ws[0]);
      WriteKeepsPlaces(t, pos, ws[0]);
      SamePlacesAfter(t, pos, ws[0]);
      later := PlacesStay(Exec(t, ws[0]), next, ws[1..]);
    }
  }

  /** The family is computed on `t`, other transactions write, and only then are the
      rows updated: it misses a live token exactly when somebody has rotated a
      member in between and the family has not died meanwhile. */
  lemma LateRevokeKillsFamilyIffNoneRotated(t: Table, id: TokenId, ws: seq<Write>, now: int)
    requires WellFormed(t) && id in t && AllAllowed(t, ws)
    ensures var later := ExecAll(t, ws);
      Dead(Revoked(later, Descendants(t, id), now), id) <==> !SomeRotatesMember(t, ws, id) || Dead(later, id)
  {
    var pos: Places :| Placed(t, pos);
    var laterPos := PlacesStay(t, pos, ws);
    WritesAreWriteOnce(t, ws);
    LateRevokeKillsFamilyIffNothingNew(t, pos, ExecAll(t, ws), laterPos, id, now);
    if SomeRotatesMember(t, ws, id) {
      NewAfterRotation(t.Keys, t, id, ws);
    } else {
      FamilyWithoutRotation(t, id, ws);
    }
  }

  /** With one write in between: exactly when it does not rotate a member. */
  lemma LateRevokeMissesExactlyARotation(t: Table, id: TokenId, w: Write, now: int)
    requires WellFormed(t) && id in t && Allowed(t, w)
    ensures Dead(Revoked(Exec(t, w), Descendants(t, id), now), id) <==> !RotatesMember(t, w, id)
  {
    assert [w][1..] == [];
    assert AllAllowed(Exec(t, w), []) && AllAllowed(t, [w]);
    LateRevokeKillsFamilyIffNoneRotated(t, id, [w], now);
    if RotatesMember(t, w, id) {
      FamilyAfterRotation(t, id, w);
      assert Exec(t, w)[w.replacement].Live();
    }
  }
}
