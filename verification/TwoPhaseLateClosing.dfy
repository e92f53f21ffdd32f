/** Every intent that TwoPhaseDoomed does not rule out can still be closed: the condition is exact. */
module TwoPhaseLateClosing {
  import opened Wrappers
  import opened Intents
  import opened Ledger
  import opened TwoPhase
  import opened TwoPhaseSafety
  import opened TwoPhaseTheorems
  import opened TwoPhaseProgress
  import opened TwoPhaseClosing
  import opened TwoPhaseLate
  import opened TwoPhaseCompensation
  import opened TwoPhaseHolders
  import opened TwoPhaseDoomed
  import Text

  // ---- calls alone ----

  lemma LateHolderAlone(cfg: Config, db: Db, p: Proc)
    requires LateDbOk(cfg, db) && LateProcOk(cfg, db, p) && Holding(db, p)
    ensures Answered(db, Alone(cfg, db, p).0, p.id)
  {
    LateHolderState(cfg, db, p);
    match p.pc
    case Look(_) => HeldLook(cfg, db, p);
    case Make(_) => HeldMake(cfg, db, p);
    case Check(_) => HeldCheck(cfg, db, p);
    case Record(_) => HeldRecord(cfg, db, p);
    case _ => HeldPark(cfg, db, p);
  }

  lemma CloserAlone(cfg: Config, db: Db, p: Proc, version: int)
    requires p.Work? && BlindCloser(p, p.id, version) && p.id in db.rows
    requires db.rows[p.id].intent.state == Ambiguous && db.rows[p.id].intent.version == version
    ensures var end := Alone(cfg, db, p).0; p.id in end.rows && end.rows[p.id].intent.state == Voided
  {
    if p.pc.Settle? {
      SettleAlone(cfg, db, p);
    } else {
      LookAlone(cfg, db, p, VoidNs);
      SettleAlone(cfg, db, AfterLook(cfg, Note(p, VoidNs, VoidId(p.id) in db.books.transfers), VoidNs));
    }
  }

  lemma ReconcilerAlone(cfg: Config, db: Db, p: Proc)
    requires p.Work? && BlindReconciler(db, p, p.id) && p.id in db.rows && db.rows[p.id].intent.state == ReconciliationRequired
    requires PostId(p.id) !in db.books.transfers && VoidId(p.id) !in db.books.transfers
    requires p.pc == Look(VoidNs) ==> !p.postSeen
    ensures Alone(cfg, db, p).0 == Moved(db, p.id, Ambiguous)
  {
    if p.pc.Record? {
      RecordAlone(cfg, db, p, Ambiguous);
    } else if p.pc == Look(PostNs) {
      LookAlone(cfg, db, p, PostNs);
      LastLookAlone(cfg, db, p.(postSeen := false, pc := Look(VoidNs)));
    } else {
      LastLookAlone(cfg, db, p);
    }
  }

  lemma LooksTwice(cfg: Config, db: Db, id: string, officer: string)
    requires id in db.rows && db.rows[id].intent.state == Ambiguous
    requires PostId(id) !in db.books.transfers && PendingId(id) in db.books.transfers
    ensures Alone(cfg, db, Begin(ResolveOfficer(db.rows[id].intent.version, officer, Close), id))
            == Alone(cfg, db, Closing(db, id, officer, Look(VoidNs), true))
  {
    ReadAlone(cfg, db, ResolveOfficer(db.rows[id].intent.version, officer, Close), id, Look(PostNs));
    LookAlone(cfg, db, Closing(db, id, officer, Look(PostNs), false), PostNs);
    LookAlone(cfg, db, Closing(db, id, officer, Look(PendingNs), false), PendingNs);
  }

  /** An officer's CLOSE when the reservation was voided already. */
  lemma VoidSeenAlone(cfg: Config, db: Db, id: string, officer: string)
    requires id in db.rows && db.rows[id].intent.state == Ambiguous && Text.Canonical(officer)
    requires PostId(id) !in db.books.transfers && PendingId(id) in db.books.transfers && VoidId(id) in db.books.transfers
    ensures var end := CallAlone(cfg, db, ResolveOfficer(db.rows[id].intent.version, officer, Close), id);
            id in end.rows && end.rows[id].intent.state == Voided
  {
    LooksTwice(cfg, db, id, officer);
    LookAlone(cfg, db, Closing(db, id, officer, Look(VoidNs), true), VoidNs);
    var task := ResolveOfficer(db.rows[id].intent.version, officer, Close);
    SettleAlone(cfg, db, Work(task, id, Settle, db.rows[id].intent, true, false, true));
  }

  lemma CloseAmbiguous(cfg: Config, db: Db, id: string, officer: string)
    requires LateDbOk(cfg, db) && id in db.rows && !Lapsed(db, id) && Text.Canonical(officer)
    requires db.rows[id].intent.state == Ambiguous
    ensures var end := CallAlone(cfg, db, Suitable(db, id, officer), id);
            id in end.rows && end.rows[id].intent.state == Voided
  {
    assert LateRowOk(cfg, db, id);
    PostExcludesVoid(db.books, id);
    if PendingId(id) !in db.books.transfers {
      ResolveAlone(cfg, db, id, officer);
    } else if VoidId(id) in db.books.transfers {
      VoidSeenAlone(cfg, db, id, officer);
    } else {
      assert WellFormed(db.books.transfers[PendingId(id)]);
      if PendingId(id) in db.books.closed {
        ClosedByPostOrVoid(db.books, id);
      }
      Compensates(cfg, db, id, officer);
    }
  }

  lemma CloseReserved(cfg: Config, db: Db, id: string, officer: string)
    requires LateDbOk(cfg, db) && id in db.rows && !Lapsed(db, id)
    requires db.rows[id].intent.state == Reserved
    ensures var end := CallAlone(cfg, db, Suitable(db, id, officer), id);
            id in end.rows && Terminal(end.rows[id].intent.state)
  {
    assert LateRowOk(cfg, db, id);
    PostExcludesVoid(db.books, id);
    if VoidId(id) in db.books.transfers {
      VoidAlone(cfg, db, id);
    } else {
      PostAlone(cfg, db, id);
    }
  }

  // ---- runs ----

  lemma Ends(cfg: Config, ws: seq<LateWorld>, us: seq<LateWorld>, ts: seq<LateStep>, id: string)
    requires LateBehaviour(cfg, us, ts) && ws <= us
    requires id in us[|us| - 1].world.db.rows && Terminal(us[|us| - 1].world.db.rows[id].intent.state)
    ensures CanStillCloseLate(cfg, ws, id)
  {
  }

  lemma EndsLater(cfg: Config, ws: seq<LateWorld>, us: seq<LateWorld>, id: string)
    requires 0 < |ws| && ws <= us && CanStillCloseLate(cfg, us, id)
    ensures CanStillCloseLate(cfg, ws, id)
  {
    var vs: seq<LateWorld>, rs: seq<LateStep> :| LateBehaviour(cfg, vs, rs) && us <= vs
      && id in vs[|vs| - 1].world.db.rows && Terminal(vs[|vs| - 1].world.db.rows[id].intent.state);
    Ends(cfg, ws, vs, rs, id);
  }

  lemma LateDbAt(cfg: Config, ws: seq<LateWorld>, ss: seq<LateStep>, db: Db)
    requires LateBehaviour(cfg, ws, ss) && db == ws[|ws| - 1].world.db
    ensures LateDbOk(cfg, db)
  {
    LateInvAlways(cfg, ws, ss, |ws| - 1);
  }

  lemma CloseSettled(cfg: Config, ws: seq<LateWorld>, ss: seq<LateStep>, id: string, db: Db)
    requires LateBehaviour(cfg, ws, ss) && db == ws[|ws| - 1].world.db && id in db.rows && !Lapsed(db, id)
    requires db.rows[id].intent.state in {Reserved, Ambiguous}
    ensures CanStillCloseLate(cfg, ws, id)
  {
    var officer := "officer";
    LateDbAt(cfg, ws, ss, db);
    if db.rows[id].intent.state == Reserved {
      CloseReserved(cfg, db, id, officer);
    } else {
      CloseAmbiguous(cfg, db, id, officer);
    }
    var us, ts := LateRunCall(cfg, ws, ss, Suitable(db, id, officer), id);
    Ends(cfg, ws, us, ts, id);
  }

  lemma CloseOutstanding(cfg: Config, ws: seq<LateWorld>, ss: seq<LateStep>, id: string, db: Db)
    requires LateBehaviour(cfg, ws, ss) && db == ws[|ws| - 1].world.db && id in db.rows && !Lapsed(db, id)
    requires OutstandingState(db.rows[id].intent.state)
    ensures CanStillCloseLate(cfg, ws, id)
  {
    if db.rows[id].intent.state == ReconciliationRequired {
      ReconcileAlone(cfg, db, id);
      var us, ts := LateRunCall(cfg, ws, ss, ReconcileObserved, id);
      var after := us[|us| - 1].world.db;
      assert after.books == db.books;
      if Terminal(after.rows[id].intent.state) {
        Ends(cfg, ws, us, ts, id);
      } else {
        CloseSettled(cfg, us, ts, id, after);
        EndsLater(cfg, ws, us, id);
      }
    } else {
      CloseSettled(cfg, ws, ss, id, db);
    }
  }

  lemma CloseAnsweredLate(cfg: Config, ws: seq<LateWorld>, us: seq<LateWorld>, ts: seq<LateStep>, id: string, db: Db)
    requires 0 < |ws| && LateBehaviour(cfg, us, ts) && ws <= us && !Lapsed(db, id)
    requires Answered(db, us[|us| - 1].world.db, id)
    ensures CanStillCloseLate(cfg, ws, id)
  {
    CloseOutstanding(cfg, us, ts, id, us[|us| - 1].world.db);
    EndsLater(cfg, ws, us, id);
  }

  lemma CloseHeld(cfg: Config, ws: seq<LateWorld>, ss: seq<LateStep>, id: string, w: World)
    requires LateBehaviour(cfg, ws, ss) && w == ws[|ws| - 1].world && !Lapsed(w.db, id) && HasHolder(w, id)
    ensures CanStillCloseLate(cfg, ws, id)
  {
    var pid :| pid in w.procs && Holding(w.db, w.procs[pid]) && w.procs[pid].id == id;
    LateInvAlways(cfg, ws, ss, |ws| - 1);
    LateHolderAlone(cfg, w.db, w.procs[pid]);
    var us, ts := LateRunAlone(cfg, ws, ss, pid);
    CloseAnsweredLate(cfg, ws, us, ts, id, w.db);
  }

  lemma CloseApprovedLate(cfg: Config, ws: seq<LateWorld>, ss: seq<LateStep>, id: string, db: Db)
    requires LateBehaviour(cfg, ws, ss) && db == ws[|ws| - 1].world.db && id in db.rows && !Lapsed(db, id)
    requires db.rows[id].intent.state == Approved
    ensures CanStillCloseLate(cfg, ws, id)
  {
    ReserveAlone(cfg, db, id);
    var us, ts := LateRunCall(cfg, ws, ss, ReserveApproved, id);
    CloseAnsweredLate(cfg, ws, us, ts, id, db);
  }

  // ---- a draft is voided by its maker ----

  lemma LateStepKeepsValid(cfg: Config, w: LateWorld, s: LateStep, w': LateWorld, id: string)
    requires LateInv(cfg, w) && LateNext(cfg, w, s, w') && id in w'.world.db.rows
    requires id in w.world.db.rows ==> ValidRequest(w.world.db.rows[id].intent.request)
    ensures ValidRequest(w'.world.db.rows[id].intent.request)
  {
    if id in w.world.db.rows {
      LateGrows(cfg, w, s, w');
      assert RowExtends(w.world.db.rows[id], w'.world.db.rows[id]);
    } else {
      NewRowIsValid(cfg, w.world, s, w'.world, id);
    }
  }

  lemma NewRowIsValid(cfg: Config, w: World, s: LateStep, w': World, id: string)
    requires (s.Now? && Next(cfg, w, s.step, w')) || (s.Land? && w'.db.rows == w.db.rows)
    requires id !in w.db.rows && id in w'.db.rows
    ensures ValidRequest(w'.db.rows[id].intent.request)
  {
  }

  lemma {:induction false} LateValidAlways(cfg: Config, ws: seq<LateWorld>, ss: seq<LateStep>, k: nat, id: string)
    requires LateBehaviour(cfg, ws, ss) && k < |ws| && id in ws[k].world.db.rows
    ensures ValidRequest(ws[k].world.db.rows[id].intent.request)
  {
    if k > 0 {
      if id in ws[k - 1].world.db.rows {
        LateValidAlways(cfg, ws, ss, k - 1, id);
      }
      var w, s, w' := ws[k - 1], ss[k - 1], ws[k];
      SoundAt(cfg, ws, ss, k - 1, w, s, w');
      LateStepKeepsValid(cfg, w, s, w', id);
    }
  }

  lemma CloseDraftLate(cfg: Config, ws: seq<LateWorld>, ss: seq<LateStep>, id: string, w: LateWorld)
    requires LateBehaviour(cfg, ws, ss) && w == ws[|ws| - 1] && id in w.world.db.rows
    requires w.world.db.rows[id].intent.state == Draft
    ensures CanStillCloseLate(cfg, ws, id)
  {
    var i := w.world.db.rows[id].intent;
    LateValidAlways(cfg, ws, ss, |ws| - 1, id);
    var s := VoidDraftIntent(id, i.version, i.request.maker);
    var changed := VoidDraft(i, i.version, i.request.maker).value;
    var db := w.world.db.(rows := w.world.db.rows[id := Swap(w.world.db.rows[id], changed, IntentVoided)]);
    var w' := LateWorld(w.world.(db := db), w.flying + Sent(w.world, s));
    LateAppend(cfg, ws, ss, Now(s), w');
    Ends(cfg, ws, ws + [w'], ss + [Now(s)], id);
  }

  // ---- the last chance ----

  lemma CloseBlindly(cfg: Config, ws: seq<LateWorld>, ss: seq<LateStep>, id: string, w: World)
    requires LateBehaviour(cfg, ws, ss) && w == ws[|ws| - 1].world && id in w.db.rows
    requires w.db.rows[id].intent.state == Ambiguous && HasCloser(w, id, w.db.rows[id].intent.version)
    ensures CanStillCloseLate(cfg, ws, id)
  {
    var pid :| pid in w.procs && BlindCloser(w.procs[pid], id, w.db.rows[id].intent.version);
    CloserAlone(cfg, w.db, w.procs[pid], w.db.rows[id].intent.version);
    var us, ts := LateRunAlone(cfg, ws, ss, pid);
    Ends(cfg, ws, us, ts, id);
  }

  /** A reconciliation that missed the reservation declares the intent AMBIGUOUS for such a CLOSE. */
  lemma ReconcileBlindly(cfg: Config, ws: seq<LateWorld>, ss: seq<LateStep>, id: string, w: World)
    requires LateBehaviour(cfg, ws, ss) && w == ws[|ws| - 1].world && Lapsed(w.db, id) && id in w.db.rows
    requires w.db.rows[id].intent.state == ReconciliationRequired
    requires HasReconciler(w, id) && HasCloser(w, id, w.db.rows[id].intent.version + 1)
    ensures CanStillCloseLate(cfg, ws, id)
  {
    var version := w.db.rows[id].intent.version + 1;
    var pid :| pid in w.procs && BlindReconciler(w.db, w.procs[pid], id);
    var q :| q in w.procs && BlindCloser(w.procs[q], id, version);
    LateInvAlways(cfg, ws, ss, |ws| - 1);
    LapsedIsUnresolved(cfg, w.db, id);
    assert LateProcOk(cfg, w.db, w.procs[pid]);
    ReconcilerAlone(cfg, w.db, w.procs[pid]);
    var us, ts := LateRunAlone(cfg, ws, ss, pid);
    var after := us[|us| - 1].world;
    assert q in after.procs && BlindCloser(after.procs[q], id, version);
    CloseBlindly(cfg, us, ts, id, after);
    EndsLater(cfg, ws, us, id);
  }

  // ---- the exact condition ----

  lemma ClosesLate(cfg: Config, ws: seq<LateWorld>, ss: seq<LateStep>, id: string, w: LateWorld)
    requires LateBehaviour(cfg, ws, ss) && w == ws[|ws| - 1] && id in w.world.db.rows && LateClosable(w.world, id)
    ensures CanStillCloseLate(cfg, ws, id)
  {
    var db := w.world.db;
    var state := db.rows[id].intent.state;
    if Terminal(state) {
      Ends(cfg, ws, ws, ss, id);
    } else if Lapsed(db, id) {
      if state == Ambiguous {
        CloseBlindly(cfg, ws, ss, id, w.world);
      } else {
        ReconcileBlindly(cfg, ws, ss, id, w.world);
      }
    } else if state == ReservationRequested {
      CloseHeld(cfg, ws, ss, id, w.world);
    } else if state == Draft {
      CloseDraftLate(cfg, ws, ss, id, w);
    } else if state == Approved {
      CloseApprovedLate(cfg, ws, ss, id, db);
    } else {
      CloseOutstanding(cfg, ws, ss, id, db);
    }
  }

  /** Whatever happened and whatever is still in flight, an intent can be closed on some continuation if and
      only if it is closed, or its reservation has not expired and, while requested, its holder is there, or
      an officer's CLOSE that missed the expired reservation can still settle it. */
  lemma LateClosableExactly(cfg: Config, ws: seq<LateWorld>, ss: seq<LateStep>, id: string)
    requires LateBehaviour(cfg, ws, ss) && id in ws[|ws| - 1].world.db.rows
    ensures CanStillCloseLate(cfg, ws, id) <==> LateClosable(ws[|ws| - 1].world, id)
  {
    if LateClosable(ws[|ws| - 1].world, id) {
      ClosesLate(cfg, ws, ss, id, ws[|ws| - 1]);
    } else {
      forall us: seq<LateWorld>, ts: seq<LateStep> | LateBehaviour(cfg, us, ts) && ws <= us && id in us[|us| - 1].world.db.rows
        ensures !Terminal(us[|us| - 1].world.db.rows[id].intent.state)
      {
        assert Doomed(us[|ws| - 1], id);
        DoomedForever(cfg, us, ts, |ws| - 1, |us| - 1, id);
      }
    }
  }

  // ---- the last chance does occur ----

  /** One call of one process, answered honestly. */
  lemma OneCall(cfg: Config, ws: seq<LateWorld>, ss: seq<LateStep>, pid: nat, w: World)
    returns (us: seq<LateWorld>, ts: seq<LateStep>)
    requires LateBehaviour(cfg, ws, ss) && w == ws[|ws| - 1].world && pid in w.procs
    requires Honest(w.db, CallAt(w.procs[pid])).0 == w.db
    ensures LateBehaviour(cfg, us, ts) && ws[|ws| - 1].flying <= us[|us| - 1].flying
    ensures us[|us| - 1].world == w.(procs := w.procs[pid := Advance(cfg, w.procs[pid], Honest(w.db, CallAt(w.procs[pid])).1)])
  {
    var r := Honest(w.db, CallAt(w.procs[pid])).1;
    HonestIsPossible(w.db, CallAt(w.procs[pid]));
    var s := Run(pid, r);
    var w' := LateWorld(w.(procs := w.procs[pid := Advance(cfg, w.procs[pid], r)]), ws[|ws| - 1].flying + Sent(w, s));
    LateAppend(cfg, ws, ss, Now(s), w');
    us, ts := ws + [w'], ss + [Now(s)];
  }

  /** An officer's CLOSE has looked for the post and for the reservation, and found neither. */
  lemma LookedRun(cfg: Config, r: Intents.Request, checker: string, officer: string)
    returns (ws: seq<LateWorld>, ss: seq<LateStep>, pid: nat)
    requires Checks(checker, r) && AccountsParse(cfg, r)
    ensures LateBehaviour(cfg, ws, ss) && ws[|ws| - 1].world.db == AmbiguousDb(r, checker)
    ensures Reservation(cfg, r) in ws[|ws| - 1].flying && pid in ws[|ws| - 1].world.procs
    ensures ws[|ws| - 1].world.procs[pid] == Closing(AmbiguousDb(r, checker), r.intentId, officer, Look(VoidNs), false)
  {
    ws, ss := AmbiguousInFlight(cfg, r, checker);
    var db, w := AmbiguousDb(r, checker), ws[|ws| - 1];
    pid := FreshAbove(w.world.procs.Keys);
    var p := Begin(ResolveOfficer(db.rows[r.intentId].intent.version, officer, Close), r.intentId);
    var w' := LateWorld(w.world.(procs := w.world.procs[pid := p]), w.flying + Sent(w.world, Start(pid, p)));
    LateAppend(cfg, ws, ss, Now(Start(pid, p)), w');
    ws, ss := ws + [w'], ss + [Now(Start(pid, p))];
    ws, ss := OneCall(cfg, ws, ss, pid, ws[|ws| - 1].world);
    assert ws[|ws| - 1].world.procs[pid] == Closing(db, r.intentId, officer, Look(PostNs), false);
    ws, ss := OneCall(cfg, ws, ss, pid, ws[|ws| - 1].world);
    assert ws[|ws| - 1].world.procs[pid] == Closing(db, r.intentId, officer, Look(PendingNs), false);
    ws, ss := OneCall(cfg, ws, ss, pid, ws[|ws| - 1].world);
  }

  /** A reservation lands and expires while an officer's CLOSE is between two lookups: the intent is still
      AMBIGUOUS, its reservation has expired, and only that call can close it. */
  lemma LastChanceHappens(cfg: Config, r: Intents.Request, checker: string, officer: string)
    returns (ws: seq<LateWorld>, ss: seq<LateStep>)
    requires Checks(checker, r) && AccountsParse(cfg, r) && Text.Canonical(officer)
    ensures LateBehaviour(cfg, ws, ss) && r.intentId in ws[|ws| - 1].world.db.rows
    ensures Lapsed(ws[|ws| - 1].world.db, r.intentId) && LastChance(ws[|ws| - 1].world, r.intentId)
    ensures CanStillCloseLate(cfg, ws, r.intentId)
  {
    var us, ts, pid := LookedRun(cfg, r, checker, officer);
    var w, t := us[|us| - 1], Reservation(cfg, r);
    var w1 := w.(world := w.world.(db := LandedDb(w.world.db, t)));
    LateAppend(cfg, us, ts, Land(t), w1);
    var books := w1.world.db.books;
    var w2 := LateWorld(w1.world.(db := w1.world.db.(books := books.(closed := books.closed[t.id := Expired]))),
                        w1.flying + Sent(w1.world, Expiry(t.id)));
    LateAppend(cfg, us + [w1], ts + [Land(t)], Now(Expiry(t.id)), w2);
    ws, ss := us + [w1] + [w2], ts + [Land(t)] + [Now(Expiry(t.id))];
    assert BlindCloser(w2.world.procs[pid], r.intentId, AmbiguousDb(r, checker).rows[r.intentId].intent.version);
    LateClosableExactly(cfg, ws, ss, r.intentId);
  }
}
