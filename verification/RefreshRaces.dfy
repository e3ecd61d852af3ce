/**
  What interleaved refreshes of one token add up to: who wins, what a replay or
  a foreign presenter destroys, and how far scopes can travel down a family.
 */
module RefreshRaces {
  import opened Base
  import opened RefreshTable
  import opened RefreshRepository
  import opened RefreshRuns

  // ------------------------------------------------------------------ scopes

  lemma {:induction false} ScopesNarrowAlong(t: Table, i: TokenId, n: nat)
    requires WellFormed(t) && ScopesNarrow(t) && i in t && Follow(t, i, n).Some?
    ensures var j := Follow(t, i, n).value; j in t && t[j].scopes <= t[i].scopes
    decreases n
  {
    if n == 0 {
    } else {
      assert Narrows(t, i, t[i].replacedBy.value);
      ScopesNarrowAlong(t, t[i].replacedBy.value, n - 1);
    }
  }

  /** Whatever ran between its lookup and its rotation, a successful refresh grants
      scopes that every ancestor of the new token was granted (the first grant
      included) and that the client held when it authenticated for this refresh. */
  lemma RefreshNeverWidensScopes(w: World, es: seq<Event>, p: CallId, ancestor: TokenId)
    requires Inv(w) && p in w.calls
    requires var w' := Run(w, es);
      p in w'.calls && w'.calls[p].phase.Refreshed? && ancestor in w'.rows
      && Reaches(w'.rows, ancestor, w'.calls[p].phase.replacement)
    ensures var w' := Run(w, es);
      var granted := w'.calls[p].phase.granted;
      granted != {} && granted <= w.calls[p].client.scopes && granted <= w'.rows[ancestor].scopes
      && w'.calls[p].phase.replacement in w'.rows && w'.rows[w'.calls[p].phase.replacement].scopes == granted
  {
    RunKeepsInv(w, es);
    CallsKeepTheirToken(w, es);
    var w' := Run(w, es);
    assert CallOk(w'.rows, w'.calls[p]);
    var n: nat :| Follow(w'.rows, ancestor, n) == Some(w'.calls[p].phase.replacement);
    ScopesNarrowAlong(w'.rows, ancestor, n);
  }

  // ----------------------------------------------------- replay and theft

  predicate Sits(es: seq<Event>, p: CallId) {
    forall k :: 0 <= k < |es| && es[k].Advance? ==> es[k].caller != p
  }

  lemma {:induction false} UntouchedCall(w: World, es: seq<Event>, p: CallId)
    requires p in w.calls && Sits(es, p)
    ensures p in Run(w, es).calls && Run(w, es).calls[p] == w.calls[p]
    decreases |es|
  {
    if es == [] {
    } else {
      assert forall k :: 0 <= k < |es[1..]| ==> es[1..][k] == es[k + 1];
      UntouchedCall(Step(w, es[0]), es[1..], p);
    }
  }

  /** The lookup of a rotated token, or of a usable one that belongs to another client or subject. */
  ghost predicate BadPresentation(w: World, p: CallId, id: TokenId, lookup: Event) {
    && p in w.calls && w.calls[p].phase.Start?
    && id in w.rows && w.rows[id].hash == Sha256(w.calls[p].raw)
    && lookup.Advance? && lookup.caller == p && !lookup.fault
    && (w.rows[id].replacedBy.Some?
        || (w.rows[id].Live() && lookup.now < w.rows[id].expiresAt && !BoundTo(w.rows[id], w.calls[p].client)))
  }

  lemma BadLookupAdvances(t: Table, call: Call, id: TokenId, lookup: Event)
    requires WellFormed(t) && call.phase.Start? && id in t && t[id].hash == Sha256(call.raw)
    requires lookup.Advance? && !lookup.fault
    requires t[id].replacedBy.Some? || (t[id].Live() && lookup.now < t[id].expiresAt && !BoundTo(t[id], call.client))
    ensures var (x, phase) := AdvanceCall(t, call, lookup); x == NoWrite && phase.KillFamily? && phase.id == id
  {
    var pos: Places :| Placed(t, pos);
    LinkOf(t, pos, id);
    ClassifyIsJudge(t, id, call.raw, lookup.now);
  }

  lemma BadLookupPlansTheKill(w: World, p: CallId, id: TokenId, lookup: Event)
    requires Inv(w) && BadPresentation(w, p, id, lookup)
    ensures var looked := Step(w, lookup);
      looked.rows == w.rows && p in looked.calls && looked.calls[p].phase.KillFamily? && looked.calls[p].phase.id == id
  {
    BadLookupAdvances(w.rows, w.calls[p], id, lookup);
  }

  /** What the planned revocation leaves behind. */
  ghost predicate FamilyKilled(before: World, after: World, p: CallId, id: TokenId) {
    && p in after.calls && after.calls[p].phase.Refused?
    && id in before.rows && before.rows.Keys == after.rows.Keys
    && (forall i :: i in before.rows && i !in Family(before.rows, id) ==> after.rows[i] == before.rows[i])
    && Dead(after.rows, id)
  }

  lemma PlannedKillHappens(before: World, p: CallId, id: TokenId, kill: Event)
    requires Inv(before) && p in before.calls && before.calls[p].phase.KillFamily? && before.calls[p].phase.id == id
    requires kill.Advance? && kill.caller == p && !kill.fault
    ensures FamilyKilled(before, Step(before, kill), p, id)
  {
    assert CallOk(before.rows, before.calls[p]);
    RevokingDescendantsKillsFamily(before.rows, id, kill.now);
  }

  /** Presenting a rotated token, or a usable one that belongs to another client or
      subject, is refused and leaves no live token in the family: not when the
      revocation has run, and not in any later state.  Rows of other families do
      not change in the revocation. */
  lemma BadPresentationKillsFamily(w: World, p: CallId, id: TokenId,
                                   lookup: Event, between: seq<Event>, kill: Event, later: seq<Event>)
    requires Inv(w) && BadPresentation(w, p, id, lookup)
    requires kill.Advance? && kill.caller == p && !kill.fault && Sits(between, p)
    ensures var before := Run(Step(w, lookup), between);
      FamilyKilled(before, Step(before, kill), p, id) && Dead(Run(Step(before, kill), later).rows, id)
  {
    BadLookupPlansTheKill(w, p, id, lookup);
    StepKeepsInv(w, lookup);
    UntouchedCall(Step(w, lookup), between, p);
    RunKeepsInv(Step(w, lookup), between);
    var before := Run(Step(w, lookup), between);
    PlannedKillHappens(before, p, id, kill);
    StepKeepsInv(before, kill);
    DeadForever(Step(before, kill), later, id);
  }

  /** A token that was withdrawn without ever being rotated is refused at once, and
      its presentation writes nothing. */
  lemma WithdrawnTokenChangesNothing(w: World, p: CallId, id: TokenId, lookup: Event)
    requires Inv(w) && p in w.calls && w.calls[p].phase.Start?
    requires id in w.rows && w.rows[id].hash == Sha256(w.calls[p].raw)
    requires !w.rows[id].Live() && w.rows[id].replacedBy.None?
    requires lookup.Advance? && lookup.caller == p && !lookup.fault
    ensures Step(w, lookup).rows == w.rows && Step(w, lookup).calls[p].phase == Refused(UsedOrRevoked)
  {
    assert UniqueHashes(w.rows);
  }

  // -------------------------------------------------------------- the race

  ghost predicate Racers(w: World, racers: set<CallId>, id: TokenId) {
    id in w.rows && forall p :: p in racers ==>
      p in w.calls && Sha256(w.calls[p].raw) == w.rows[id].hash && Entitled(w.rows[id], w.calls[p].client)
  }

  /** Nobody has rotated the token yet. */
  ghost predicate Open(w: World, racers: set<CallId>, id: TokenId) {
    && Racers(w, racers, id)
    && w.rows[id].Live()
    && forall p :: p in racers ==> w.calls[p].phase.Start? || w.calls[p].phase.Rotating?
  }

  /** `winner` has; every other racer that is through has killed the family. */
  ghost predicate Won(w: World, racers: set<CallId>, id: TokenId, winner: CallId) {
    && Racers(w, racers, id)
    && w.rows[id].replacedBy.Some?
    && winner in racers && w.calls[winner].phase.Refreshed?
    && forall p :: p in racers && p != winner ==> LoserOk(w, p, id)
  }

  ghost predicate LoserOk(w: World, p: CallId, id: TokenId)
    requires p in w.calls
  {
    match w.calls[p].phase
    case Start => true
    case Rotating(_) => true
    case KillFamily(i, _) => i == id
    case Refused(_) => Dead(w.rows, id)
    case _ => false
  }

  /** A racer's step meets no database failure and no identifier collision, and
      comes before the token expires. */
  ghost predicate Sound(w: World, e: Event, racers: set<CallId>, id: TokenId) {
    e.Advance? && e.caller in racers ==>
      && !e.fault
      && id in w.rows && e.now < w.rows[id].expiresAt
      && e.newId !in w.rows && HashFree(w.rows, Sha256(e.newRaw))
  }

  /** An outsider's step does not revoke or rotate the live token `id`. */
  ghost predicate Spares(w: World, e: Event, racers: set<CallId>, id: TokenId) {
    e.Advance? && e.caller !in racers && e.caller in w.calls && id in w.rows && w.rows[id].Live() ==>
      match w.calls[e.caller].phase
      case KillFamily(k, _) => !Reaches(w.rows, k, id)
      case KillClient(c, _) => c != w.rows[id].client
      case Rotating(_) => Sha256(w.calls[e.caller].raw) != w.rows[id].hash
      case _ => true
  }

  ghost predicate SoundRun(w: World, es: seq<Event>, racers: set<CallId>, id: TokenId)
    decreases |es|
  {
    es == [] || (Sound(w, es[0], racers, id) && SoundRun(Step(w, es[0]), es[1..], racers, id))
  }

  ghost predicate SparingRun(w: World, es: seq<Event>, racers: set<CallId>, id: TokenId)
    decreases |es|
  {
    es == [] || (Spares(w, es[0], racers, id) && SparingRun(Step(w, es[0]), es[1..], racers, id))
  }

  lemma SparedRowStaysLive(w: World, e: Event, racers: set<CallId>, id: TokenId)
    requires Inv(w) && id in w.rows && w.rows[id].Live()
    requires Spares(w, e, racers, id) && (e.Advance? ==> e.caller !in racers)
    ensures Step(w, e).rows[id] == w.rows[id]
  {
    assert UniqueHashes(w.rows);
    if e.Advance? && e.caller in w.calls {
      assert CallOk(w.rows, w.calls[e.caller]);
    }
  }

  lemma OpenRaceStep(w: World, e: Event, racers: set<CallId>, id: TokenId)
    requires Inv(w) && Open(w, racers, id) && Sound(w, e, racers, id) && Spares(w, e, racers, id)
    ensures Open(Step(w, e), racers, id) || exists p :: Won(Step(w, e), racers, id, p)
  {
    if e.Advance? && e.caller in racers {
      if w.calls[e.caller].phase.Rotating? {
        RacerRotates(w, e, racers, id);
        assert Won(Step(w, e), racers, id, e.caller);
      } else {
        RacerLooksUp(w, e, racers, id);
      }
    } else {
      SparedRowStaysLive(w, e, racers, id);
    }
  }

  lemma RacerSeesItsToken(w: World, e: Event, racers: set<CallId>, id: TokenId)
    requires Inv(w) && Open(w, racers, id) && Sound(w, e, racers, id) && e.Advance? && e.caller in racers
    ensures Classify(w.rows, Sha256(w.calls[e.caller].raw), e.now) == Usable(id)
  {
    assert UniqueHashes(w.rows);
  }

  lemma RacerLooksUp(w: World, e: Event, racers: set<CallId>, id: TokenId)
    requires Inv(w) && Open(w, racers, id) && Sound(w, e, racers, id) && e.Advance? && e.caller in racers
    requires w.calls[e.caller].phase.Start?
    ensures Open(Step(w, e), racers, id)
  {
    RacerSeesItsToken(w, e, racers, id);
  }

  lemma RacerRotates(w: World, e: Event, racers: set<CallId>, id: TokenId)
    requires Inv(w) && Open(w, racers, id) && Sound(w, e, racers, id) && e.Advance? && e.caller in racers
    requires w.calls[e.caller].phase.Rotating?
    ensures Won(Step(w, e), racers, id, e.caller)
  {
    RacerSeesItsToken(w, e, racers, id);
  }

  lemma WonRaceStep(w: World, e: Event, racers: set<CallId>, id: TokenId, winner: CallId)
    requires Inv(w) && Won(w, racers, id, winner) && Sound(w, e, racers, id)
    ensures Won(Step(w, e), racers, id, winner)
  {
    var w' := Step(w, e);
    SpentRowStays(w, e, id);
    forall p | p in racers && p != winner ensures LoserOk(w', p, id) {
      if e.Advance? && e.caller == p {
        LoserStep(w, e, racers, id, winner);
      } else {
        assert LoserOk(w, p, id);
      }
    }
  }

  lemma SpentRowStays(w: World, e: Event, id: TokenId)
    requires Inv(w) && id in w.rows && w.rows[id].replacedBy.Some?
    ensures !w.rows[id].Live() && id in Step(w, e).rows && Step(w, e).rows[id] == w.rows[id]
    ensures Dead(w.rows, id) ==> Dead(Step(w, e).rows, id)
  {
    StepKeepsInv(w, e);
    WriteIsAllowed(w, e);
    var pos: Places :| Placed(w.rows, pos);
    LinkOf(w.rows, pos, id);
    if Dead(w.rows, id) {
      DeadFamilyStaysDead(w.rows, id, WriteOf(w, e));
    }
  }

  lemma LoserStep(w: World, e: Event, racers: set<CallId>, id: TokenId, winner: CallId)
    requires Inv(w) && Won(w, racers, id, winner) && Sound(w, e, racers, id)
    requires e.Advance? && e.caller in racers && e.caller != winner && !w.rows[id].Live()
    ensures LoserOk(Step(w, e), e.caller, id)
  {
    var p := e.caller;
    assert UniqueHashes(w.rows) && LoserOk(w, p, id);
    assert Classify(w.rows, Sha256(w.calls[p].raw), e.now) == Replayed(id);
    if w.calls[p].phase.KillFamily? {
      RevokingDescendantsKillsFamily(w.rows, id, e.now);
    }
  }

  lemma {:induction false} RaceRun(w: World, es: seq<Event>, racers: set<CallId>, id: TokenId)
    requires Inv(w) && (Open(w, racers, id) || exists p :: Won(w, racers, id, p))
    requires SoundRun(w, es, racers, id) && SparingRun(w, es, racers, id)
    ensures Open(Run(w, es), racers, id) || exists p :: Won(Run(w, es), racers, id, p)
    decreases |es|
  {
    if es == [] {
    } else {
      StepKeepsInv(w, es[0]);
      if Open(w, racers, id) {
        OpenRaceStep(w, es[0], racers, id);
      } else {
        var p :| Won(w, racers, id, p);
        WonRaceStep(w, es[0], racers, id, p);
      }
      RaceRun(Step(w, es[0]), es[1..], racers, id);
    }
  }

  ghost predicate OneWinner(w: World, racers: set<CallId>, winner: CallId) {
    && winner in racers && racers <= w.calls.Keys && w.calls[winner].phase.Refreshed?
    && forall q :: q in racers && q != winner ==> w.calls[q].phase.Refused?
  }

  /** Any number of refreshes of one live token, interleaved with anything that does
      not itself revoke or rotate that token first: when they are all through,
      exactly one has succeeded, and if there were two or more the whole family,
      the winner's new token included, is dead. */
  lemma ExactlyOneRefreshWins(w: World, es: seq<Event>, racers: set<CallId>, id: TokenId)
    requires Inv(w) && Open(w, racers, id) && racers != {}
    requires SoundRun(w, es, racers, id) && SparingRun(w, es, racers, id)
    requires var w' := Run(w, es); forall p :: p in racers ==> p in w'.calls && w'.calls[p].phase.Done()
    ensures exists winner :: OneWinner(Run(w, es), racers, winner)
    ensures |racers| >= 2 ==> Dead(Run(w, es).rows, id)
  {
    RaceRun(w, es, racers, id);
    var w' := Run(w, es);
    var any :| any in racers;
    assert w'.calls[any].phase.Done();
    var winner :| Won(w', racers, id, winner);
    FinishedRace(w', racers, id, winner);
  }

  lemma FinishedRace(w: World, racers: set<CallId>, id: TokenId, winner: CallId)
    requires Won(w, racers, id, winner) && forall p :: p in racers ==> p in w.calls && w.calls[p].phase.Done()
    ensures OneWinner(w, racers, winner)
    ensures |racers| >= 2 ==> Dead(w.rows, id)
  {
    forall q | q in racers && q != winner ensures w.calls[q].phase.Refused? && Dead(w.rows, id) {
      assert LoserOk(w, q, id);
    }
    if |racers| >= 2 {
      assert racers * {winner} == {winner};
      assert |racers - {winner}| == |racers| - 1;
      var q :| q in racers - {winner};
      assert LoserOk(w, q, id);
    }
  }

  // ------------------------------------------- who spares the token, statically

  /** A call that cannot hurt `id` while it is live: it presents a token of another
      family and runs as another client, or as the same client with a token that
      it may refresh, that is spent, or that only a descendant of `id` can be. */
  ghost predicate Stranger(w: World, es: seq<Event>, racers: set<CallId>, call: Call, id: TokenId)
    requires id in w.rows
  {
    && Avoids(w.rows, Family(w.rows, id), call.raw)
    && (call.client.id == w.rows[id].client ==>
          MayRefresh(w.rows, call) || HoldsSpent(w.rows, call) || Unborn(w, es, racers, call))
  }

  ghost predicate Avoids(t: Table, family: set<TokenId>, raw: string)
    requires family <= t.Keys
  {
    forall k :: k in family ==> t[k].hash != Sha256(raw)
  }

  ghost predicate MayRefresh(t: Table, call: Call) {
    exists k :: k in t && t[k].hash == Sha256(call.raw) && Entitled(t[k], call.client)
  }

  ghost predicate HoldsSpent(t: Table, call: Call) {
    !call.phase.KillClient? && exists k :: k in t && t[k].hash == Sha256(call.raw) && !t[k].Live()
  }

  /** The client holds no such token, no issue brings it, and no refresh of another
      family does. */
  ghost predicate Unborn(w: World, es: seq<Event>, racers: set<CallId>, call: Call) {
    && NotOwned(w.rows, call.raw, call.client.id)
    && forall k :: 0 <= k < |es| ==> !Brings(w, racers, es[k], call.raw, call.client.id)
  }

  ghost predicate NotOwned(t: Table, raw: string, client: string) {
    forall k :: k in t && t[k].hash == Sha256(raw) ==> t[k].client != client
  }

  /** The event hands `raw` to the client: an issue, or a refresh by an outsider that
      has a token of its own. */
  ghost predicate Brings(w: World, racers: set<CallId>, e: Event, raw: string, client: string) {
    match e
    case Issue(_, token, c, _, _) => c.id == client && token == raw
    case Advance(p, _, _, newRaw, _, _) => newRaw == raw && OutsideRefresher(w, racers, p, client)
  }

  ghost predicate OutsideRefresher(w: World, racers: set<CallId>, p: CallId, client: string) {
    p in w.calls && p !in racers && w.calls[p].client.id == client && MayRefresh(w.rows, w.calls[p])
  }

  ghost predicate Strangers(w: World, es: seq<Event>, racers: set<CallId>, id: TokenId)
    requires id in w.rows
  {
    forall q :: q in w.calls && q !in racers ==> Stranger(w, es, racers, w.calls[q], id)
  }

  /** A call that may refresh, or whose token is spent, never revokes its client's tokens. */
  lemma HoldersSpareTheClient(t: Table, call: Call)
    requires UniqueHashes(t) && CallOk(t, call) && (MayRefresh(t, call) || HoldsSpent(t, call))
    ensures !call.phase.KillClient?
  {
  }

  lemma UnbornHasNoRow(w: World, es: seq<Event>, racers: set<CallId>, call: Call)
    requires CallOk(w.rows, call) && Unborn(w, es, racers, call)
    ensures !call.phase.KillClient? && !call.phase.Rotating?
  {
  }

  lemma StrangerSpares(w: World, es: seq<Event>, racers: set<CallId>, id: TokenId)
    requires Inv(w) && id in w.rows && w.rows[id].Live() && es != [] && Strangers(w, es, racers, id)
    ensures Spares(w, es[0], racers, id)
  {
    var e := es[0];
    if e.Advance? && e.caller !in racers && e.caller in w.calls {
      var call := w.calls[e.caller];
      assert CallOk(w.rows, call) && Stranger(w, es, racers, call, id);
      var pos: Places :| Placed(w.rows, pos);
      FamilyIsChain(w.rows, pos, id);
      if call.phase.KillFamily? {
        ReachesIsOrder(w.rows, pos, call.phase.id, id);
      } else if call.phase.KillClient? && call.client.id == w.rows[id].client {
        if MayRefresh(w.rows, call) || HoldsSpent(w.rows, call) {
          HoldersSpareTheClient(w.rows, call);
        } else {
          UnbornHasNoRow(w, es, racers, call);
        }
      }
    }
  }

  /** Strangers stay strangers for as long as the token has not been rotated. */
  lemma StrangersStay(w: World, es: seq<Event>, racers: set<CallId>, id: TokenId)
    requires Inv(w) && Open(w, racers, id) && es != [] && Strangers(w, es, racers, id) && Sound(w, es[0], racers, id)
    requires Step(w, es[0]).rows[id].Live()
    ensures Strangers(Step(w, es[0]), es[1..], racers, id)
  {
    var w' := Step(w, es[0]);
    FamilyWaits(w, es[0], racers, id);
    StepKeepsInv(w, es[0]);
    forall q | q in w'.calls && q !in racers ensures Stranger(w', es[1..], racers, w'.calls[q], id) {
      StrangerStays(w, es, racers, id, q);
    }
  }

  lemma StrangerStays(w: World, es: seq<Event>, racers: set<CallId>, id: TokenId, q: CallId)
    requires Inv(w) && Open(w, racers, id) && es != [] && Strangers(w, es, racers, id) && Sound(w, es[0], racers, id)
    requires id in Step(w, es[0]).rows && Step(w, es[0]).rows[id].Live() && q in Step(w, es[0]).calls && q !in racers
    requires WriteOnce(w.rows, Step(w, es[0]).rows) && Family(Step(w, es[0]).rows, id) == Family(w.rows, id)
    ensures Stranger(Step(w, es[0]), es[1..], racers, Step(w, es[0]).calls[q], id)
  {
    var w', call := Step(w, es[0]), w.calls[q];
    assert Stranger(w, es, racers, call, id);
    assert w'.calls[q].raw == call.raw && w'.calls[q].client == call.client && w'.rows[id].client == w.rows[id].client;
    assert Avoids(w'.rows, Family(w.rows, id), call.raw);
    if call.client.id == w.rows[id].client {
      if MayRefresh(w.rows, call) {
        MayRefreshStays(w.rows, w'.rows, call, w'.calls[q]);
      } else if HoldsSpent(w.rows, call) {
        HoldsSpentStays(w, es[0], q);
      } else {
        UnbornStays(w, es, racers, id, q);
      }
    }
  }

  lemma MayRefreshStays(t: Table, t': Table, call: Call, call': Call)
    requires MayRefresh(t, call) && WriteOnce(t, t') && call'.raw == call.raw && call'.client == call.client
    ensures MayRefresh(t', call')
  {
    var k :| k in t && t[k].hash == Sha256(call.raw) && Entitled(t[k], call.client);
    assert t'[k].hash == Sha256(call'.raw) && Entitled(t'[k], call'.client);
  }

  lemma HoldsSpentStays(w: World, e: Event, q: CallId)
    requires Inv(w) && q in w.calls && HoldsSpent(w.rows, w.calls[q]) && WriteOnce(w.rows, Step(w, e).rows)
    ensures HoldsSpent(Step(w, e).rows, Step(w, e).calls[q])
  {
    var w', call := Step(w, e), w.calls[q];
    var k :| k in w.rows && w.rows[k].hash == Sha256(call.raw) && !w.rows[k].Live();
    assert w'.rows[k].hash == Sha256(call.raw) && !w'.rows[k].Live();
    if e.Advance? && e.caller == q {
      SpentTokenSparesTheClient(w.rows, call, e, k);
    }
  }

  lemma SpentTokenSparesTheClient(t: Table, call: Call, e: Event, k: TokenId)
    requires UniqueHashes(t) && k in t && t[k].hash == Sha256(call.raw) && !t[k].Live()
    requires e.Advance? && !call.phase.KillClient?
    ensures !AdvanceCall(t, call, e).1.KillClient?
  {
    ClassifyIsJudge(t, k, call.raw, e.now);
  }

  /** While the token waits, its client gets no token that was not announced, so
      whoever could not refresh before cannot now. */
  lemma UnbornStays(w: World, es: seq<Event>, racers: set<CallId>, id: TokenId, q: CallId)
    requires Inv(w) && Open(w, racers, id) && es != [] && Strangers(w, es, racers, id) && Sound(w, es[0], racers, id)
    requires id in Step(w, es[0]).rows && Step(w, es[0]).rows[id].Live() && q in w.calls && q !in racers
    requires w.calls[q].client.id == w.rows[id].client && Unborn(w, es, racers, w.calls[q])
    ensures Unborn(Step(w, es[0]), es[1..], racers, Step(w, es[0]).calls[q])
  {
    var w', call := Step(w, es[0]), w.calls[q];
    UnbornTokenIsNotBrought(w, es, racers, id, q);
    forall k | 0 <= k < |es[1..]| ensures !Brings(w', racers, es[1..][k], call.raw, call.client.id) {
      assert es[1..][k] == es[k + 1] && !Brings(w, racers, es[k + 1], call.raw, call.client.id);
      if es[k + 1].Advance? && OutsideRefresher(w', racers, es[k + 1].caller, call.client.id) {
        RefresherIsNotNew(w, es, racers, id, es[k + 1].caller);
      }
    }
  }

  lemma FamilyWaits(w: World, e: Event, racers: set<CallId>, id: TokenId)
    requires Inv(w) && id in w.rows && w.rows[id].Live() && Step(w, e).rows[id].Live()
    ensures Family(Step(w, e).rows, id) == Family(w.rows, id)
  {
    var x := WriteOf(w, e);
    WriteIsAllowed(w, e);
    assert Follow(w.rows, id, 0) == Some(id);
    LiveTokenIsTail(w.rows, id, id);
    FamilyGrowsOnlyByItsOwnRotation(w.rows, id, x);
  }

  lemma RacerLeavesItSpent(w: World, e: Event, racers: set<CallId>, id: TokenId)
    requires Inv(w) && Open(w, racers, id) && Sound(w, e, racers, id) && WriteOf(w, e).Rotate?
    ensures e.caller in racers ==> !Step(w, e).rows[id].Live()
  {
    if e.caller in racers {
      RacerSeesItsToken(w, e, racers, id);
    }
  }

  /** An outsider of the same client that rotates has a token of its own. */
  lemma OutsideRotation(w: World, es: seq<Event>, racers: set<CallId>, id: TokenId)
    requires Inv(w) && Open(w, racers, id) && es != [] && Strangers(w, es, racers, id) && Sound(w, es[0], racers, id)
    requires Step(w, es[0]).rows[id].Live() && WriteOf(w, es[0]).Rotate?
    ensures w.rows[WriteOf(w, es[0]).presented].client == w.rows[id].client ==>
      OutsideRefresher(w, racers, es[0].caller, w.rows[id].client)
  {
    var e := es[0];
    var call := w.calls[e.caller];
    RacerLeavesItSpent(w, e, racers, id);
    assert CallOk(w.rows, call) && Stranger(w, es, racers, call, id) && UniqueHashes(w.rows);
    RotatesItsRow(w.rows, call, e);
    if Unborn(w, es, racers, call) {
      UnbornHasNoRow(w, es, racers, call);
    }
  }

  lemma RotatesItsRow(t: Table, call: Call, e: Event)
    requires UniqueHashes(t) && CallOk(t, call) && e.Advance? && AdvanceCall(t, call, e).0.Rotate?
    ensures var i := AdvanceCall(t, call, e).0.presented;
      i in t && PresentedAndBound(t, call, i) && t[i].Live() && call.phase.Rotating?
    ensures !HoldsSpent(t, call)
  {
  }

  lemma UnbornTokenIsNotBrought(w: World, es: seq<Event>, racers: set<CallId>, id: TokenId, q: CallId)
    requires Inv(w) && Open(w, racers, id) && es != [] && Strangers(w, es, racers, id) && Sound(w, es[0], racers, id)
    requires Step(w, es[0]).rows[id].Live() && q in w.calls && q !in racers
    requires w.calls[q].client.id == w.rows[id].client && Unborn(w, es, racers, w.calls[q])
    ensures NotOwned(Step(w, es[0]).rows, w.calls[q].raw, w.calls[q].client.id)
  {
    var rows, call := Step(w, es[0]).rows, w.calls[q];
    StepKeepsInv(w, es[0]);
    assert !Brings(w, racers, es[0], call.raw, call.client.id);
    forall k | k in rows && rows[k].hash == Sha256(call.raw) ensures rows[k].client != call.client.id {
      if k !in w.rows {
        NewRow(w, es[0], k);
        if WriteOf(w, es[0]).Rotate? {
          OutsideRotation(w, es, racers, id);
        }
      }
    }
  }

  lemma RefresherIsNotNew(w: World, es: seq<Event>, racers: set<CallId>, id: TokenId, p: CallId)
    requires Inv(w) && Open(w, racers, id) && es != [] && Strangers(w, es, racers, id) && Sound(w, es[0], racers, id)
    requires Step(w, es[0]).rows[id].Live()
    requires OutsideRefresher(Step(w, es[0]), racers, p, w.rows[id].client)
    ensures OutsideRefresher(w, racers, p, w.rows[id].client)
  {
    var w', call := Step(w, es[0]), w.calls[p];
    StepKeepsInv(w, es[0]);
    assert Stranger(w, es, racers, call, id);
    if Unborn(w, es, racers, call) {
      UnbornTokenIsNotBrought(w, es, racers, id, p);
    } else {
      HolderIsNotNew(w.rows, w'.rows, call, w'.calls[p]);
    }
  }

  lemma HolderIsNotNew(t: Table, t': Table, call: Call, call': Call)
    requires UniqueHashes(t') && WriteOnce(t, t') && call'.raw == call.raw && call'.client == call.client
    requires MayRefresh(t', call') && (MayRefresh(t, call) || HoldsSpent(t, call))
    ensures MayRefresh(t, call)
  {
    var k :| k in t' && t'[k].hash == Sha256(call.raw) && Entitled(t'[k], call.client);
    var j :| j in t && t[j].hash == Sha256(call.raw);
    assert j == k && Entitled(t[k], call.client);
  }

  /** Where a row that was not there before comes from. */
  lemma NewRow(w: World, e: Event, k: TokenId)
    requires Inv(w) && k in Step(w, e).rows && k !in w.rows
    ensures var x, row := WriteOf(w, e), Step(w, e).rows[k];
      || (x.Insert? && e.Issue? && row.hash == Sha256(e.token) && row.client == e.client.id)
      || (x.Rotate? && e.Advance? && row.hash == Sha256(e.newRaw) && row.client == w.rows[x.presented].client)
  {
  }

  lemma {:induction false} StrangersSpare(w: World, es: seq<Event>, racers: set<CallId>, id: TokenId)
    requires Inv(w) && id in w.rows && SoundRun(w, es, racers, id)
    requires w.rows[id].Live() ==> Open(w, racers, id) && Strangers(w, es, racers, id)
    ensures SparingRun(w, es, racers, id)
    decreases |es|
  {
    if es == [] {
    } else {
      StepKeepsInv(w, es[0]);
      if w.rows[id].Live() {
        StrangerSpares(w, es, racers, id);
        if Step(w, es[0]).rows[id].Live() {
          StrangersStay(w, es, racers, id);
          OpenRaceStep(w, es[0], racers, id);
          OpenWhileLive(Step(w, es[0]), racers, id);
        }
      }
      StrangersSpare(Step(w, es[0]), es[1..], racers, id);
    }
  }

  lemma OpenWhileLive(w: World, racers: set<CallId>, id: TokenId)
    requires Inv(w) && id in w.rows && w.rows[id].Live()
    ensures forall p :: !Won(w, racers, id, p)
  {
    var pos: Places :| Placed(w.rows, pos);
    LinkOf(w.rows, pos, id);
  }

  /** The race, with the other callers described by what they present: other
      families' tokens, or tokens that do not exist yet. */
  lemma RefreshRaceAmongStrangers(w: World, es: seq<Event>, racers: set<CallId>, id: TokenId)
    requires Inv(w) && Open(w, racers, id) && racers != {}
    requires Strangers(w, es, racers, id) && SoundRun(w, es, racers, id)
    requires var w' := Run(w, es); forall p :: p in racers ==> p in w'.calls && w'.calls[p].phase.Done()
    ensures exists winner :: OneWinner(Run(w, es), racers, winner)
    ensures |racers| >= 2 ==> Dead(Run(w, es).rows, id)
  {
    StrangersSpare(w, es, racers, id);
    ExactlyOneRefreshWins(w, es, racers, id);
  }
}
