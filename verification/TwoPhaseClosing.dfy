/** When an intent can still be closed: exactly unless its reservation expired or it was left in
    RESERVATION_REQUESTED by the call that put it there. Both ways of getting stuck do happen. */
module TwoPhaseClosing {
  import opened Wrappers
  import opened Intents
  import opened Ledger
  import opened TwoPhase
  import opened TwoPhaseSafety
  import opened TwoPhaseTheorems
  import opened TwoPhaseProgress
  import Text

  // ---- the holder of a request, working alone ----

  /** A ReserveApproved call that made the request and read the row since. */
  predicate Held(db: Db, p: Proc) {
    && p.Work? && p.task.ReserveApproved? && p.id in db.rows
    && db.rows[p.id].intent.state == ReservationRequested
    && db.rows[p.id].intent.version == p.current.version
  }

  /** The request came to an end and no reservation was closed on the way. */
  predicate Answered(db: Db, end: Db, id: string) {
    && id in end.rows && end.rows[id].intent.state in {Reserved, ReconciliationRequired}
    && end.books.closed == db.books.closed
  }

  lemma HeldPark(cfg: Config, db: Db, p: Proc)
    requires Held(db, p) && p.pc.Park?
    ensures Answered(db, Alone(cfg, db, p).0, p.id)
  {
    OneStep(cfg, db, p);
  }

  lemma HeldRecord(cfg: Config, db: Db, p: Proc)
    requires Held(db, p) && p.pc == Record(Reserved)
    ensures Answered(db, Alone(cfg, db, p).0, p.id)
  {
    RecordAlone(cfg, db, p, Reserved);
  }

  lemma HeldCheck(cfg: Config, db: Db, p: Proc)
    requires Held(db, p) && p.pc.Check?
    ensures Answered(db, Alone(cfg, db, p).0, p.id)
  {
    OneStep(cfg, db, p);
    var q := Advance(cfg, p, Honest(db, CallAt(p)).1);
    if q.pc.Park? {
      HeldPark(cfg, db, q);
    } else {
      HeldRecord(cfg, db, q);
    }
  }

  lemma HeldMake(cfg: Config, db: Db, p: Proc)
    requires Held(db, p) && p.pc.Make? && !Resolves(p.pc.transfer)
    ensures Answered(db, Alone(cfg, db, p).0, p.id)
  {
    OneStep(cfg, db, p);
    var t := p.pc.transfer;
    if t.id in db.books.transfers {
      HeldCheck(cfg, db, p.(pc := Check(t)));
    } else {
      HeldRecord(cfg, db.(books := Insert(db.books, t)), p.(pc := Record(Reserved)));
    }
  }

  lemma HeldLook(cfg: Config, db: Db, p: Proc)
    requires Held(db, p) && p.pc == Look(PendingNs)
    ensures Answered(db, Alone(cfg, db, p).0, p.id)
  {
    LookAlone(cfg, db, p, PendingNs);
    var q := AfterLook(cfg, Note(p, PendingNs, PendingId(p.id) in db.books.transfers), PendingNs);
    match q.pc
    case Make(_) => HeldMake(cfg, db, q);
    case Record(_) => HeldRecord(cfg, db, q);
    case _ => HeldPark(cfg, db, q);
  }

  lemma HolderAlone(cfg: Config, db: Db, p: Proc)
    requires DbOk(cfg, db) && ProcOk(cfg, db, p) && Holding(db, p)
    ensures Answered(db, Alone(cfg, db, p).0, p.id)
  {
    HolderState(cfg, db, p);
    match p.pc
    case Look(_) => HeldLook(cfg, db, p);
    case Make(_) => HeldMake(cfg, db, p);
    case Check(_) => HeldCheck(cfg, db, p);
    case Record(_) => HeldRecord(cfg, db, p);
    case _ => HeldPark(cfg, db, p);
  }

  /** ReserveApproved alone brings an APPROVED intent to RESERVED or RECONCILIATION_REQUIRED. */
  lemma ReserveAlone(cfg: Config, db: Db, id: string)
    requires id in db.rows && db.rows[id].intent.state == Approved
    ensures Answered(db, CallAlone(cfg, db, ReserveApproved, id), id)
  {
    var p := Work(ReserveApproved, id, Ask, db.rows[id].intent, false, false, false);
    ReadAlone(cfg, db, ReserveApproved, id, Ask);
    OneStep(cfg, db, p);
    var db' := Moved(db, id, ReservationRequested);
    var q := AfterRequest(cfg, p.(current := db'.rows[id].intent));
    if q.pc.Park? {
      HeldPark(cfg, db', q);
    } else {
      HeldLook(cfg, db', q);
    }
  }

  // ---- every request was validated ----

  lemma StepKeepsValid(cfg: Config, w: World, s: Step, w': World, id: string)
    requires Inv(cfg, w) && Next(cfg, w, s, w') && id in w'.db.rows
    requires id in w.db.rows ==> ValidRequest(w.db.rows[id].intent.request)
    ensures ValidRequest(w'.db.rows[id].intent.request)
  {
    if id in w.db.rows {
      StepGrows(cfg, w, s, w');
      assert RowGrows(w.db.rows[id], w'.db.rows[id]);
    }
  }

  lemma {:induction false} ValidAlways(cfg: Config, ws: seq<World>, ss: seq<Step>, k: nat, id: string)
    requires Behaviour(cfg, ws, ss) && k < |ws| && id in ws[k].db.rows
    ensures ValidRequest(ws[k].db.rows[id].intent.request)
  {
    if k > 0 {
      if id in ws[k - 1].db.rows {
        ValidAlways(cfg, ws, ss, k - 1, id);
      }
      InvAlways(cfg, ws, ss, k - 1);
      StepKeepsValid(cfg, ws[k - 1], ss[k - 1], ws[k], id);
    }
  }

  // ---- the exact condition ----

  /** Somebody can still answer for a requested reservation. */
  ghost predicate HasHolder(w: World, id: string) {
    exists pid :: pid in w.procs && Holding(w.db, w.procs[pid]) && w.procs[pid].id == id
  }

  ghost predicate Closable(w: World, id: string)
    requires id in w.db.rows
  {
    var state := w.db.rows[id].intent.state;
    Terminal(state) || (!Lapsed(w.db, id) && (state == ReservationRequested ==> HasHolder(w, id)))
  }

  lemma CloseLater(cfg: Config, ws: seq<World>, ss: seq<Step>, us: seq<World>, ts: seq<Step>, id: string)
    requires Behaviour(cfg, us, ts) && 0 < |ws| && ws <= us && CanStillClose(cfg, us, ts, id)
    ensures CanStillClose(cfg, ws, ss, id)
  {
    var us': seq<World>, ts': seq<Step> :| Behaviour(cfg, us', ts') && us <= us'
                    && id in us'[|us'| - 1].db.rows && Terminal(us'[|us'| - 1].db.rows[id].intent.state);
    assert ws <= us';
  }

  /** An answered request leads on to an outstanding intent whose reservation is as open as before. */
  lemma CloseAnswered(cfg: Config, ws: seq<World>, ss: seq<Step>, us: seq<World>, ts: seq<Step>, id: string)
    requires Behaviour(cfg, ws, ss) && Behaviour(cfg, us, ts) && ws <= us
    requires !Lapsed(ws[|ws| - 1].db, id) && Answered(ws[|ws| - 1].db, us[|us| - 1].db, id)
    ensures CanStillClose(cfg, ws, ss, id)
  {
    ClosableIffUnexpired(cfg, us, ts, id);
    CloseLater(cfg, ws, ss, us, ts, id);
  }

  lemma CloseDraft(cfg: Config, ws: seq<World>, ss: seq<Step>, id: string)
    requires Behaviour(cfg, ws, ss) && id in ws[|ws| - 1].db.rows && ws[|ws| - 1].db.rows[id].intent.state == Draft
    ensures CanStillClose(cfg, ws, ss, id)
  {
    var w := ws[|ws| - 1];
    var i := w.db.rows[id].intent;
    ValidAlways(cfg, ws, ss, |ws| - 1, id);
    var s := VoidDraftIntent(id, i.version, i.request.maker);
    var changed := VoidDraft(i, i.version, i.request.maker).value;
    var w' := w.(db := w.db.(rows := w.db.rows[id := Swap(w.db.rows[id], changed, IntentVoided)]));
    AppendStep(cfg, ws, ss, s, w');
    var us, ts := ws + [w'], ss + [s];
    assert Behaviour(cfg, us, ts) && ws <= us && us[|us| - 1] == w';
  }

  lemma CloseRequested(cfg: Config, ws: seq<World>, ss: seq<Step>, id: string)
    requires Behaviour(cfg, ws, ss) && id in ws[|ws| - 1].db.rows && !Lapsed(ws[|ws| - 1].db, id)
    requires HasHolder(ws[|ws| - 1], id)
    ensures CanStillClose(cfg, ws, ss, id)
  {
    var w := ws[|ws| - 1];
    var pid :| pid in w.procs && Holding(w.db, w.procs[pid]) && w.procs[pid].id == id;
    InvAlways(cfg, ws, ss, |ws| - 1);
    HolderAlone(cfg, w.db, w.procs[pid]);
    var us, ts := RunAlone(cfg, ws, ss, pid);
    CloseAnswered(cfg, ws, ss, us, ts, id);
  }

  lemma CloseApproved(cfg: Config, ws: seq<World>, ss: seq<Step>, id: string)
    requires Behaviour(cfg, ws, ss) && id in ws[|ws| - 1].db.rows && !Lapsed(ws[|ws| - 1].db, id)
    requires ws[|ws| - 1].db.rows[id].intent.state == Approved
    ensures CanStillClose(cfg, ws, ss, id)
  {
    ReserveAlone(cfg, ws[|ws| - 1].db, id);
    var us, ts := RunCall(cfg, ws, ss, ReserveApproved, id);
    CloseAnswered(cfg, ws, ss, us, ts, id);
  }

  lemma NeverCloses(cfg: Config, ws: seq<World>, ss: seq<Step>, us: seq<World>, ts: seq<Step>, id: string)
    requires Behaviour(cfg, ws, ss) && id in ws[|ws| - 1].db.rows && !Closable(ws[|ws| - 1], id)
    requires Behaviour(cfg, us, ts) && ws <= us
    ensures id in us[|us| - 1].db.rows && !Terminal(us[|us| - 1].db.rows[id].intent.state)
  {
    if Lapsed(ws[|ws| - 1].db, id) {
      ExpiredNeverCloses(cfg, us, ts, |ws| - 1, |us| - 1, id);
    } else {
      assert Stranded(us[|ws| - 1], id);
      StrandedForever(cfg, us, ts, |ws| - 1, |us| - 1, id);
    }
  }

  /** Whatever happened so far, an intent can still be closed if and only if it is closed already, or
      its reservation has not expired and, while it is requested, its holder is still there. */
  lemma ClosableExactly(cfg: Config, ws: seq<World>, ss: seq<Step>, id: string)
    requires Behaviour(cfg, ws, ss) && id in ws[|ws| - 1].db.rows
    ensures CanStillClose(cfg, ws, ss, id) <==> Closable(ws[|ws| - 1], id)
  {
    var state := ws[|ws| - 1].db.rows[id].intent.state;
    if !Closable(ws[|ws| - 1], id) {
      forall us: seq<World>, ts: seq<Step> | Behaviour(cfg, us, ts) && ws <= us && id in us[|us| - 1].db.rows
        ensures !Terminal(us[|us| - 1].db.rows[id].intent.state)
      {
        NeverCloses(cfg, ws, ss, us, ts, id);
      }
    } else if Terminal(state) {
      assert Behaviour(cfg, ws, ss) && ws <= ws;
    } else if state == ReservationRequested {
      CloseRequested(cfg, ws, ss, id);
    } else if state == Draft {
      CloseDraft(cfg, ws, ss, id);
    } else if state == Approved {
      CloseApproved(cfg, ws, ss, id);
    } else {
      ClosableIffUnexpired(cfg, ws, ss, id);
    }
  }

  // ---- both ways of getting stuck happen ----

  const NO_BOOKS := Books(map[], map[], map[], map[])

  function ApprovedIntent(r: Intents.Request, checker: string): Intent { Intent(r, Approved, Some(checker), 2) }

  function ApprovedDb(r: Intents.Request, checker: string): Db {
    Db(map[r.intentId := Row(ApprovedIntent(r, checker), [Event(IntentCreated, Draft), Event(IntentApproved, Approved)])],
       NO_BOOKS)
  }

  predicate Checks(checker: string, r: Intents.Request) {
    ValidRequest(r) && !Text.Blank(checker) && checker != r.maker
  }

  /** Any valid request becomes an APPROVED intent. */
  lemma ApprovedRun(cfg: Config, r: Intents.Request, checker: string) returns (ws: seq<World>, ss: seq<Step>)
    requires Checks(checker, r)
    ensures Behaviour(cfg, ws, ss) && ws[|ws| - 1] == World(ApprovedDb(r, checker), map[])
    ensures ss == [CreateIntent(r), ApproveIntent(r.intentId, 1, checker)]
  {
    var w0 := World(Db(map[], NO_BOOKS), map[]);
    var draft := Row(Intent(r, Draft, None, 1), [Event(IntentCreated, Draft)]);
    var w1 := World(Db(map[r.intentId := draft], NO_BOOKS), map[]);
    assert Behaviour(cfg, [w0], []);
    assert WithIntent(w0.db, r) == w1.db;
    AppendStep(cfg, [w0], [], CreateIntent(r), w1);
    var s := ApproveIntent(r.intentId, 1, checker);
    assert Swap(draft, Approve(draft.intent, checker).value, IntentApproved) == ApprovedDb(r, checker).rows[r.intentId];
    assert w1.db.rows[r.intentId := ApprovedDb(r, checker).rows[r.intentId]] == ApprovedDb(r, checker).rows;
    ws, ss := [w0] + [w1] + [World(ApprovedDb(r, checker), map[])], [] + [CreateIntent(r)] + [s];
    AppendStep(cfg, [w0] + [w1], [] + [CreateIntent(r)], s, World(ApprovedDb(r, checker), map[]));
  }

  function Asking(r: Intents.Request, checker: string): Proc {
    Work(ReserveApproved, r.intentId, Ask, ApprovedIntent(r, checker), false, false, false)
  }

  /** A call that has read the intent and is about to request its reservation. */
  lemma AskingRun(cfg: Config, r: Intents.Request, checker: string) returns (ws: seq<World>, ss: seq<Step>)
    requires Checks(checker, r)
    ensures Behaviour(cfg, ws, ss) && ws[|ws| - 1] == World(ApprovedDb(r, checker), map[0 := Asking(r, checker)])
    ensures forall s :: s in ss ==> !s.Crash? && (s.Run? ==> s.reply.RowIs?)
  {
    var us, ts := ApprovedRun(cfg, r, checker);
    var db, p := ApprovedDb(r, checker), Begin(ReserveApproved, r.intentId);
    var w1 := World(db, map[0 := p]);
    assert us[|us| - 1].procs[0 := p] == w1.procs;
    AppendStep(cfg, us, ts, Start(0, p), w1);
    var reply := RowIs(ApprovedIntent(r, checker));
    assert Advance(cfg, p, reply) == Asking(r, checker);
    assert w1.procs[0 := Asking(r, checker)] == map[0 := Asking(r, checker)];
    ws, ss := us + [w1] + [World(db, map[0 := Asking(r, checker)])], ts + [Start(0, p)] + [Run(0, reply)];
    AppendStep(cfg, us + [w1], ts + [Start(0, p)], Run(0, reply), World(db, map[0 := Asking(r, checker)]));
  }

  /** No crash is needed: when only the reply of the request is lost, the intent is stranded. */
  lemma LostReplyStrands(cfg: Config, r: Intents.Request, checker: string) returns (ws: seq<World>, ss: seq<Step>)
    requires Checks(checker, r)
    ensures Behaviour(cfg, ws, ss) && Stranded(ws[|ws| - 1], r.intentId)
    ensures forall s :: s in ss ==> !s.Crash?
    ensures !CanStillClose(cfg, ws, ss, r.intentId)
  {
    var us, ts := AskingRun(cfg, r, checker);
    var db := Moved(ApprovedDb(r, checker), r.intentId, ReservationRequested);
    var w := World(db, map[0 := Fail(Asking(r, checker), Unavailable)]);
    assert us[|us| - 1].procs[0 := Fail(Asking(r, checker), Unavailable)] == w.procs;
    AppendStep(cfg, us, ts, Run(0, Failure(Unavailable)), w);
    ws, ss := us + [w], ts + [Run(0, Failure(Unavailable))];
    ClosableExactly(cfg, ws, ss, r.intentId);
  }

  /** So does a crash right after the request. */
  lemma CrashStrands(cfg: Config, r: Intents.Request, checker: string) returns (ws: seq<World>, ss: seq<Step>)
    requires Checks(checker, r)
    ensures Behaviour(cfg, ws, ss) && Stranded(ws[|ws| - 1], r.intentId)
    ensures forall s :: s in ss && s.Run? ==> s.reply.RowIs?
    ensures !CanStillClose(cfg, ws, ss, r.intentId)
  {
    var us, ts := AskingRun(cfg, r, checker);
    var p, db := Asking(r, checker), Moved(ApprovedDb(r, checker), r.intentId, ReservationRequested);
    var reply := RowIs(db.rows[r.intentId].intent);
    var w1 := World(db, map[0 := Advance(cfg, p, reply)]);
    assert us[|us| - 1].procs[0 := Advance(cfg, p, reply)] == w1.procs;
    AppendStep(cfg, us, ts, Run(0, reply), w1);
    var w2 := World(db, map[]);
    assert w1.procs - {0} == w2.procs;
    AppendStep(cfg, us + [w1], ts + [Run(0, reply)], Crash(0), w2);
    ws, ss := us + [w1] + [w2], ts + [Run(0, reply)] + [Crash(0)];
    ClosableExactly(cfg, ws, ss, r.intentId);
  }

  /** Both accounts read as accounts, and are different. */
  predicate AccountsParse(cfg: Config, r: Intents.Request) {
    && ParseId(cfg, r.debitAccount).Some? && ParseId(cfg, r.creditAccount).Some?
    && ParseId(cfg, r.debitAccount) != ParseId(cfg, r.creditAccount)
  }

  lemma ReservedAlone(cfg: Config, r: Intents.Request, checker: string)
    requires Checks(checker, r) && AccountsParse(cfg, r)
    ensures var end := CallAlone(cfg, ApprovedDb(r, checker), ReserveApproved, r.intentId);
            && r.intentId in end.rows && end.rows[r.intentId].intent.state == Reserved
            && PendingId(r.intentId) in end.books.transfers && end.books.transfers[PendingId(r.intentId)].kind == Pending
            && end.books.closed == map[]
  {
    var db, id := ApprovedDb(r, checker), r.intentId;
    var p := Asking(r, checker);
    ReadAlone(cfg, db, ReserveApproved, id, Ask);
    OneStep(cfg, db, p);
    var db1 := Moved(db, id, ReservationRequested);
    var q := p.(current := db1.rows[id].intent, pc := Look(PendingNs));
    LookAlone(cfg, db1, q, PendingNs);
    var t := ReserveTransfer(id, ParseId(cfg, r.debitAccount).value, ParseId(cfg, r.creditAccount).value, r.amount,
                             cfg.ledger, cfg.code);
    MakeAlone(cfg, db1, q.(pc := Make(t)), t);
    RecordAlone(cfg, db1.(books := Insert(db1.books, t)), q.(pc := Record(Reserved)), Reserved);
  }

  /** Any intent whose accounts parse can be RESERVED and then lapse; it never closes afterwards. */
  lemma ExpiryHappens(cfg: Config, r: Intents.Request, checker: string) returns (ws: seq<World>, ss: seq<Step>)
    requires Checks(checker, r) && AccountsParse(cfg, r)
    ensures Behaviour(cfg, ws, ss) && Lapsed(ws[|ws| - 1].db, r.intentId)
    ensures r.intentId in ws[|ws| - 1].db.rows && ws[|ws| - 1].db.rows[r.intentId].intent.state == Reserved
    ensures !CanStillClose(cfg, ws, ss, r.intentId)
  {
    var us, ts := ApprovedRun(cfg, r, checker);
    ReservedAlone(cfg, r, checker);
    us, ts := RunCall(cfg, us, ts, ReserveApproved, r.intentId);
    var w, t := us[|us| - 1], PendingId(r.intentId);
    var w' := w.(db := w.db.(books := w.db.books.(closed := w.db.books.closed[t := Expired])));
    AppendStep(cfg, us, ts, Expiry(t), w');
    ws, ss := us + [w'], ts + [Expiry(t)];
    ClosableExactly(cfg, ws, ss, r.intentId);
  }
}
