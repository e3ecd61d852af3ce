/**
  Any number of refresh calls, interleaved.

  A call is two or three transactions: an unlocked lookup, then either a
  revocation or a rotation under the row lock, and a rotation that finds its row
  already rotated still has a revocation to run.  Each of these is one step here;
  between two steps of a call anything may happen.
 */
module RefreshRuns {
  import opened Base
  import opened RefreshTable
  import opened RefreshRepository

  datatype Phase =
    | Start
    | KillFamily(id: TokenId, why: Error)
    | KillClient(client: string, why: Error)
    | Rotating(scopes: set<string>)
    | Refreshed(replacement: TokenId, granted: set<string>)
    | Refused(error: Error)
  {
    predicate Done() {
      Refreshed? || Refused?
    }
  }

  datatype Call = Call(raw: string, client: ServiceClient, phase: Phase)

  type CallId = nat

  datatype World = World(rows: Table, calls: map<CallId, Call>)

  /** `Advance` runs the next step of one call; the clock, the fresh identifiers
      and the database's failures are whatever the event says. */
  datatype Event =
    | Issue(id: TokenId, token: string, client: ServiceClient, scopes: set<string>, expiresAt: int)
    | Advance(caller: CallId, now: int, newId: TokenId, newRaw: string, newExpires: int, fault: bool)

  /** What the service decides after a successful lookup of row `i`. */
  function Plan(row: Row, i: TokenId, client: ServiceClient): Phase {
    if !BoundTo(row, client) then KillFamily(i, InvalidToken)
    else if !client.shortLived then KillClient(row.client, RefreshDisabled)
    else if row.scopes * client.scopes == {} then KillClient(row.client, ScopesGone)
    else Rotating(row.scopes * client.scopes)
  }

  /** The next transaction of a call: what it writes and where it leaves the call. */
  ghost function AdvanceCall(t: Table, call: Call, e: Event): (Write, Phase)
    requires e.Advance?
  {
    if call.phase.Done() then (NoWrite, call.phase)
    else if e.fault then (NoWrite, Refused(DatabaseUnavailable))
    else match call.phase
      case Start => (NoWrite, AfterLookup(t, call, e.now))
      case KillFamily(i, why) => (Revoke(Descendants(t, i), e.now), Refused(why))
      case KillClient(c, why) => (Revoke(ClientRows(t, c), e.now), Refused(why))
      case Rotating(scopes) => AfterRotate(t, call, scopes, e)
      case _ => (NoWrite, call.phase)
  }

  ghost function AfterLookup(t: Table, call: Call, now: int): Phase {
    match Classify(t, Sha256(call.raw), now)
    case Missing => Refused(InvalidToken)
    case Replayed(i) => KillFamily(i, UsedOrRevoked)
    case Withdrawn(_) => Refused(UsedOrRevoked)
    case Expired(_) => Refused(TokenExpired)
    case Usable(i) => Plan(t[i], i, call.client)
  }

  ghost function AfterRotate(t: Table, call: Call, scopes: set<string>, e: Event): (Write, Phase)
    requires e.Advance?
  {
    match Classify(t, Sha256(call.raw), e.now)
    case Missing => (NoWrite, Refused(InvalidToken))
    case Replayed(i) => (NoWrite, KillFamily(i, UsedOrRevoked))
    case Withdrawn(_) => (NoWrite, Refused(UsedOrRevoked))
    case Expired(_) => (NoWrite, Refused(TokenExpired))
    case Usable(i) =>
      if e.newId in t || !HashFree(t, Sha256(e.newRaw)) then (NoWrite, Refused(DatabaseUnavailable))
      else (Rotate(i, e.newId, Sha256(e.newRaw), scopes, e.newExpires, e.now), Refreshed(e.newId, scopes))
  }

  ghost function WriteOf(w: World, e: Event): (x: Write)
    ensures x.Rotate? ==> x.presented in w.rows
  {
    match e
    case Issue(id, token, client, scopes, expiresAt) =>
      if client.shortLived && id !in w.rows && HashFree(w.rows, Sha256(token)) then
        Insert(id, FreshRow(Sha256(token), ServiceSubject(client.id), client.id, scopes, expiresAt))
      else NoWrite
    case Advance(p, _, _, _, _, _) =>
      if p in w.calls then AdvanceCall(w.rows, w.calls[p], e).0 else NoWrite
  }

  ghost function Step(w: World, e: Event): World {
    World(
      Exec(w.rows, WriteOf(w, e)),
      if e.Advance? && e.caller in w.calls then
        w.calls[e.caller := w.calls[e.caller].(phase := AdvanceCall(w.rows, w.calls[e.caller], e).1)]
      else w.calls)
  }

  ghost function Run(w: World, es: seq<Event>): World
    decreases |es|
  {
    if es == [] then w else Run(Step(w, es[0]), es[1..])
  }

  // ------------------------------------------------------------- invariant

  /** The call would be served if it ran alone: right client, opted in, some scope left. */
  predicate Entitled(row: Row, client: ServiceClient) {
    BoundTo(row, client) && client.shortLived && row.scopes * client.scopes != {}
  }

  /** The row a call presented, and what the call has learnt about it so far. */
  ghost predicate CallOk(t: Table, call: Call) {
    match call.phase
    case Start => true
    case Refused(_) => true
    case KillClient(c, _) =>
      c == call.client.id && exists i :: PresentedAndBound(t, call, i) && !Entitled(t[i], call.client)
    case KillFamily(i, _) =>
      i in t && t[i].hash == Sha256(call.raw) && (t[i].replacedBy.Some? || !BoundTo(t[i], call.client))
    case Rotating(s) =>
      && call.client.shortLived && s != {}
      && exists i :: PresentedAndBound(t, call, i) && s == t[i].scopes * call.client.scopes
    case Refreshed(n, s) =>
      && s != {}
      && n in t && t[n].scopes == s
      && exists i ::
           PresentedAndBound(t, call, i) && s == t[i].scopes * call.client.scopes && t[i].replacedBy == Some(n)
  }

  ghost predicate PresentedAndBound(t: Table, call: Call, i: TokenId) {
    i in t && t[i].hash == Sha256(call.raw) && BoundTo(t[i], call.client)
  }

  ghost predicate Inv(w: World) {
    && WellFormed(w.rows)
    && ScopesNarrow(w.rows)
    && (forall p :: p in w.calls ==> CallOk(w.rows, w.calls[p]))
    && (forall p, q :: p in w.calls && q in w.calls && p != q && w.calls[p].raw == w.calls[q].raw
                       ==> !w.calls[p].phase.Refreshed? || !w.calls[q].phase.Refreshed?)
  }

  lemma CallOkIsStable(t: Table, t': Table, call: Call)
    requires CallOk(t, call) && WriteOnce(t, t')
    ensures CallOk(t', call)
  {
    match call.phase {
      case KillClient(_, _) =>
        var i :| PresentedAndBound(t, call, i) && !Entitled(t[i], call.client);
        assert PresentedAndBound(t', call, i);
      case Rotating(s) =>
        var i :| PresentedAndBound(t, call, i) && s == t[i].scopes * call.client.scopes;
        assert PresentedAndBound(t', call, i);
      case Refreshed(n, s) =>
        var i :| PresentedAndBound(t, call, i) && s == t[i].scopes * call.client.scopes && t[i].replacedBy == Some(n);
        assert PresentedAndBound(t', call, i);
      case _ =>
    }
  }

  lemma WriteIsAllowed(w: World, e: Event)
    requires Inv(w)
    ensures Allowed(w.rows, WriteOf(w, e))
    ensures var x := WriteOf(w, e); x.Rotate? ==> x.scopes <= w.rows[x.presented].scopes
  {
    if e.Advance? && e.caller in w.calls && w.calls[e.caller].phase.Rotating? {
      assert CallOk(w.rows, w.calls[e.caller]);
    }
  }

  lemma CallOkAfterLookup(t: Table, call: Call, now: int)
    requires CallOk(t, call) && call.phase.Start?
    ensures CallOk(t, call.(phase := AfterLookup(t, call, now)))
  {
    var seen, call' := Classify(t, Sha256(call.raw), now), call.(phase := AfterLookup(t, call, now));
    if seen.Usable? {
      assert BoundTo(t[seen.id], call.client) ==> PresentedAndBound(t, call', seen.id);
    }
  }

  lemma CallOkAfterRotate(t: Table, call: Call, scopes: set<string>, e: Event)
    requires CallOk(t, call) && call.phase == Rotating(scopes) && UniqueHashes(t) && e.Advance?
    ensures var (x, phase) := AfterRotate(t, call, scopes, e);
      (x.Rotate? ==> x.presented in t) && CallOk(Exec(t, x), call.(phase := phase))
  {
    var (x, phase) := AfterRotate(t, call, scopes, e);
    if phase.Refreshed? {
      var k :| PresentedAndBound(t, call, k) && scopes == t[k].scopes * call.client.scopes;
      assert k == x.presented;
      assert PresentedAndBound(Exec(t, x), call.(phase := phase), k);
    }
  }

  lemma CallOkAfterItsStep(w: World, e: Event)
    requires Inv(w) && e.Advance? && e.caller in w.calls
    ensures CallOk(Step(w, e).rows, Step(w, e).calls[e.caller])
  {
    var call := w.calls[e.caller];
    assert CallOk(w.rows, call);
    if !e.fault {
      match call.phase {
        case Start => CallOkAfterLookup(w.rows, call, e.now);
        case Rotating(scopes) => CallOkAfterRotate(w.rows, call, scopes, e);
        case _ =>
      }
    }
  }

  lemma StepKeepsInv(w: World, e: Event)
    requires Inv(w)
    ensures Inv(Step(w, e)) && WriteOnce(w.rows, Step(w, e).rows)
  {
    var w' := Step(w, e);
    WriteIsAllowed(w, e);
    WriteKeepsWellFormed(w.rows, WriteOf(w, e));
    WriteKeepsScopesNarrow(w.rows, WriteOf(w, e));
    forall p | p in w'.calls ensures CallOk(w'.rows, w'.calls[p]) {
      if e.Advance? && p == e.caller {
        CallOkAfterItsStep(w, e);
      } else {
        CallOkIsStable(w.rows, w'.rows, w.calls[p]);
      }
    }
    forall p, q | p in w'.calls && q in w'.calls && p != q && w'.calls[p].raw == w'.calls[q].raw
      ensures !w'.calls[p].phase.Refreshed? || !w'.calls[q].phase.Refreshed?
    {
      if e.Advance? && e.caller == p {
        OneWinnerStep(w, e, q);
      } else if e.Advance? && e.caller == q {
        OneWinnerStep(w, e, p);
      }
    }
  }

  /** The token of a call that has won is spent. */
  lemma WinnersTokenIsSpent(t: Table, call: Call) returns (i: TokenId)
    requires WellFormed(t) && CallOk(t, call) && call.phase.Refreshed?
    ensures i in t && t[i].hash == Sha256(call.raw) && !t[i].Live()
  {
    i :| PresentedAndBound(t, call, i) && t[i].replacedBy.Some?;
    var pos: Places :| Placed(t, pos);
    LinkOf(t, pos, i);
  }

  lemma ClassifyIsJudge(t: Table, i: TokenId, raw: string, now: int)
    requires UniqueHashes(t) && i in t && t[i].hash == Sha256(raw)
    ensures Classify(t, Sha256(raw), now) == Judge(t[i], i, now)
  {
  }

  lemma SpentTokenWinsNothing(t: Table, call: Call, e: Event, i: TokenId)
    requires UniqueHashes(t) && i in t && t[i].hash == Sha256(call.raw) && !t[i].Live()
    requires e.Advance? && !call.phase.Refreshed?
    ensures !AdvanceCall(t, call, e).1.Refreshed?
  {
    ClassifyIsJudge(t, i, call.raw, e.now);
  }

  /** A call cannot win once another call with the same token has. */
  lemma OneWinnerStep(w: World, e: Event, q: CallId)
    requires Inv(w) && e.Advance? && e.caller in w.calls && q in w.calls && e.caller != q
    requires w.calls[e.caller].raw == w.calls[q].raw
    ensures w.calls[q].phase.Refreshed? ==> !Step(w, e).calls[e.caller].phase.Refreshed?
  {
    if w.calls[q].phase.Refreshed? {
      var i := WinnersTokenIsSpent(w.rows, w.calls[q]);
      SpentTokenWinsNothing(w.rows, w.calls[e.caller], e, i);
    }
  }

  lemma {:induction false} RunKeepsInv(w: World, es: seq<Event>)
    requires Inv(w)
    ensures Inv(Run(w, es)) && WriteOnce(w.rows, Run(w, es).rows)
    ensures Run(w, es).calls.Keys == w.calls.Keys
    decreases |es|
  {
    if es == [] {
    } else {
      StepKeepsInv(w, es[0]);
      RunKeepsInv(Step(w, es[0]), es[1..]);
    }
  }

  /** At most one of the calls that present one token ever gets a new one, with no
      assumption on failures, clocks or who else is running. */
  lemma AtMostOneWinnerPerToken(w: World, es: seq<Event>, p: CallId, q: CallId)
    requires Inv(w) && p in w.calls && q in w.calls && p != q && w.calls[p].raw == w.calls[q].raw
    ensures var calls := Run(w, es).calls;
      p in calls && q in calls && (!calls[p].phase.Refreshed? || !calls[q].phase.Refreshed?)
  {
    RunKeepsInv(w, es);
    CallsKeepTheirToken(w, es);
  }

  lemma {:induction false} CallsKeepTheirToken(w: World, es: seq<Event>)
    ensures var w' := Run(w, es);
      w'.calls.Keys == w.calls.Keys
      && forall p :: p in w.calls ==> w'.calls[p].raw == w.calls[p].raw && w'.calls[p].client == w.calls[p].client
    decreases |es|
  {
    if es == [] {
    } else {
      CallsKeepTheirToken(Step(w, es[0]), es[1..]);
    }
  }

  /** Once no token of a family is live, none ever is again, in any run. */
  lemma {:induction false} DeadForever(w: World, es: seq<Event>, id: TokenId)
    requires Inv(w) && id in w.rows && Dead(w.rows, id)
    ensures id in Run(w, es).rows && Dead(Run(w, es).rows, id) && Family(Run(w, es).rows, id) == Family(w.rows, id)
    decreases |es|
  {
    if es == [] {
    } else {
      WriteIsAllowed(w, es[0]);
      DeadFamilyStaysDead(w.rows, id, WriteOf(w, es[0]));
      StepKeepsInv(w, es[0]);
      DeadForever(Step(w, es[0]), es[1..], id);
    }
  }

  /** An empty table with calls about to start satisfies the invariant. */
  lemma InvHoldsInitially(calls: map<CallId, Call>)
    requires forall p :: p in calls ==> calls[p].phase.Start?
    ensures Inv(World(map[], calls))
  {
    var t: Table, pos: Places := map[], map[];
    assert Placed(t, pos);
  }

  /** The phase a finished sequential refresh corresponds to. */
  function PhaseOf(r: Result<Record, Error>): Phase {
    match r
    case Ok(rec) => Refreshed(rec.id, rec.scopes)
    case Err(e) => Refused(e)
  }

  ghost predicate RunsTo(t: Table, raw: string, client: ServiceClient, e1: Event, e2: Event, effect: Effect<Record>) {
    && e1.Advance? && e2.Advance? && e1.caller == e2.caller == 0
    && Run(World(t, map[0 := Call(raw, client, Start)]), [e1, e2])
       == World(effect.0, map[0 := Call(raw, client, PhaseOf(effect.1))])
  }

  /** The second transaction of the sequential method, with the faults it can meet. */
  ghost function SecondEvent(t: Table, raw: string, client: ServiceClient, newRaw: string, newExpires: int,
                             newId: TokenId, lookupTime: int, writeTime: int, lookupFault: nat, writeFault: nat): Event
  {
    var seen := Classify(t, Sha256(raw), lookupTime);
    if seen.Replayed? then Advance(0, lookupTime, newId, newRaw, newExpires, lookupFault == 2 || lookupFault == 3)
    else
      var rotates := seen.Usable? && Plan(t[seen.id], seen.id, client).Rotating?;
      var usable := Classify(t, Sha256(raw), writeTime).Usable?;
      Advance(0, writeTime, newId, newRaw, newExpires,
              || writeFault == 1
              || (writeFault == 2 && (!rotates || usable))
              || (2 <= writeFault <= 4 && rotates && usable))
  }

  /** What the second transaction comes to: the table and the phase it leaves. */
  ghost function Outcome(t: Table, call: Call, e: Event): (Table, Phase)
    requires e.Advance?
  {
    var (x, p) := AdvanceCall(t, call, e);
    (Exec(t, x), p)
  }

  lemma SequentialRotation(t: Table, raw: string, client: ServiceClient, newRaw: string, newExpires: int,
                           newId: TokenId, writeTime: int, scopes: set<string>, writeFault: nat)
    requires scopes != {} && !Classify(t, Sha256(raw), writeTime).Replayed?
    ensures var effect := RotateSpec(t, raw, newRaw, newExpires, Some(scopes), newId, writeTime, writeFault);
      var usable := Classify(t, Sha256(raw), writeTime).Usable?;
      var e := Advance(0, writeTime, newId, newRaw, newExpires, writeFault == 1 || (2 <= writeFault <= 4 && usable));
      Outcome(t, Call(raw, client, Rotating(scopes)), e) == (effect.0, PhaseOf(effect.1))
  {
  }

  /** The table decides a second time as it did the first, but for expiry. */
  lemma NotReplayedLater(t: Table, raw: string, lookupTime: int, writeTime: int)
    requires Classify(t, Sha256(raw), lookupTime).Usable?
    ensures !Classify(t, Sha256(raw), writeTime).Replayed?
  {
  }

  /** The sequential service method is the two-step run of one call: nothing it
      does falls outside the interleaving model. */
  lemma SequentialRefreshIsARun(t: Table, raw: string, client: ServiceClient, newRaw: string, newExpires: int,
                                newId: TokenId, lookupTime: int, writeTime: int, lookupFault: nat, writeFault: nat)
    requires lookupTime <= writeTime
    ensures exists e1, e2 ::
      RunsTo(t, raw, client, e1, e2,
             RefreshSpec(t, raw, client, newRaw, newExpires, newId, lookupTime, writeTime, lookupFault, writeFault))
  {
    var effect := RefreshSpec(t, raw, client, newRaw, newExpires, newId, lookupTime, writeTime, lookupFault,
                              writeFault);
    var e1 := Advance(0, lookupTime, newId, newRaw, newExpires, lookupFault == 1);
    var e2 := SecondEvent(t, raw, client, newRaw, newExpires, newId, lookupTime, writeTime, lookupFault, writeFault);
    var call := Call(raw, client, Start);
    var p1 := AdvanceCall(t, call, e1).1;
    assert Outcome(t, call.(phase := p1), e2) == (effect.0, PhaseOf(effect.1)) by {
      if p1.Rotating? {
        NotReplayedLater(t, raw, lookupTime, writeTime);
        SequentialRotation(t, raw, client, newRaw, newExpires, newId, writeTime, p1.scopes, writeFault);
      } else {
        SequentialRefusal(t, raw, client, newRaw, newExpires, newId, lookupTime, writeTime, lookupFault, writeFault);
      }
    }
    TwoSteps(t, raw, client, e1, e2);
    assert RunsTo(t, raw, client, e1, e2, effect);
  }

  lemma SequentialRefusal(t: Table, raw: string, client: ServiceClient, newRaw: string, newExpires: int, newId: TokenId,
                          lookupTime: int, writeTime: int, lookupFault: nat, writeFault: nat)
    requires !AdvanceCall(t, Call(raw, client, Start),
                          Advance(0, lookupTime, newId, newRaw, newExpires, lookupFault == 1)).1.Rotating?
    ensures var effect :=
        RefreshSpec(t, raw, client, newRaw, newExpires, newId, lookupTime, writeTime, lookupFault, writeFault);
      var e1 := Advance(0, lookupTime, newId, newRaw, newExpires, lookupFault == 1);
      var e2 := SecondEvent(t, raw, client, newRaw, newExpires, newId, lookupTime, writeTime, lookupFault, writeFault);
      var p1 := AdvanceCall(t, Call(raw, client, Start), e1).1;
      Outcome(t, Call(raw, client, p1), e2) == (effect.0, PhaseOf(effect.1))
  {
  }

  lemma TwoSteps(t: Table, raw: string, client: ServiceClient, e1: Event, e2: Event)
    requires e1.Advance? && e2.Advance? && e1.caller == e2.caller == 0
    ensures var call := Call(raw, client, Start);
      var (w1, p1) := AdvanceCall(t, call, e1);
      var (w2, p2) := AdvanceCall(Exec(t, w1), call.(phase := p1), e2);
      Run(World(t, map[0 := call]), [e1, e2]) == World(Exec(Exec(t, w1), w2), map[0 := call.(phase := p2)])
  {
    var w := World(t, map[0 := Call(raw, client, Start)]);
    var w1 := Step(w, e1);
    assert [e1, e2][1..] == [e2];
    assert [e2][1..] == [];
    assert Run(w, [e1, e2]) == Run(w1, [e2]) == Run(Step(w1, e2), []) == Step(w1, e2);
  }
}
