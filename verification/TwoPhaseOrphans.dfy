/** Which VOIDED intents can have funds locked when creates may land late: exactly those whose reservation
    is open or is still in flight. */
module TwoPhaseOrphans {
  import opened Wrappers
  import opened Intents
  import opened Ledger
  import opened TwoPhase
  import opened TwoPhaseSafety
  import opened TwoPhaseTheorems
  import opened TwoPhaseLate
  import opened TwoPhaseCompensation
  import opened TwoPhaseHolders

  /** The reservation is in the ledger and neither posted, voided nor expired. */
  predicate Locked(b: Books, id: string) {
    PendingId(id) in b.transfers && PendingId(id) !in b.closed
  }

  ghost predicate InFlight(w: LateWorld, id: string) { exists t :: t in w.flying && t.id == PendingId(id) }

  ghost predicate MayLock(w: LateWorld, id: string) {
    Locked(w.world.db.books, id) || (PendingId(id) !in w.world.db.books.transfers && InFlight(w, id))
  }

  // ---- what one step does to the books ----

  /** A closure is never taken back. */
  lemma ExecKeepsClosed(db: Db, c: Call, r: Reply, db': Db, p: TransferId)
    requires Exec(db, c, r, db') && p in db.books.closed
    ensures p in db'.books.closed
  {
    match c
    case CreatePair(a, b) => PairKeepsClosed(db, a, b, r, db', p);
    case _ =>
  }

  lemma PairKeepsClosed(db: Db, a: Transfer, b: Transfer, r: Reply, db': Db, p: TransferId)
    requires Exec(db, CreatePair(a, b), r, db') && p in db.books.closed
    ensures p in db'.books.closed
  {
  }

  lemma StepKeepsClosed(cfg: Config, w: LateWorld, s: LateStep, w': LateWorld, p: TransferId)
    requires LateNext(cfg, w, s, w') && p in w.world.db.books.closed
    ensures p in w'.world.db.books.closed
  {
    if s.Now? && s.step.Run? {
      ExecKeepsClosed(w.world.db, CallAt(w.world.procs[s.step.pid]), s.step.reply, w'.world.db, p);
    }
  }

  /** The transfers a call may enter. */
  function Creates(c: Call): set<TransferId> {
    match c
    case CreateOne(t) => {t.id}
    case CreatePair(a, b) => {a.id, b.id}
    case _ => {}
  }

  lemma ExecEntersOnly(db: Db, c: Call, r: Reply, db': Db, p: TransferId)
    requires Exec(db, c, r, db') && p !in db.books.transfers && p !in Creates(c)
    ensures p !in db'.books.transfers
  {
    match c
    case CreatePair(a, b) => PairEntersOnly(db, a, b, r, db', p);
    case _ =>
  }

  lemma PairEntersOnly(db: Db, a: Transfer, b: Transfer, r: Reply, db': Db, p: TransferId)
    requires Exec(db, CreatePair(a, b), r, db') && p !in db.books.transfers && p != a.id && p != b.id
    ensures p !in db'.books.transfers
  {
  }

  /** Only a call that still requests an intent's reservation creates it. */
  lemma CreatesOwnReservation(cfg: Config, db: Db, p: Proc, id: string)
    requires LateDbOk(cfg, db) && LateProcOk(cfg, db, p) && PendingId(id) in Creates(CallAt(p))
    ensures Requesting(p) && p.id == id
  {
    if p.Work? {
      assert LateRowOk(cfg, db, p.id);
    }
  }

  lemma SentIsCreated(w: World, s: Step, t: Transfer)
    requires t in Sent(w, s)
    ensures s.Run? && s.pid in w.procs && t.id in Creates(CallAt(w.procs[s.pid]))
  {
  }

  /** No call creates the reservation of an intent that has left RESERVATION_REQUESTED. */
  lemma NobodyCreates(cfg: Config, w: LateWorld, pid: nat, id: string)
    requires LateInv(cfg, w) && HoldersOk(w.world) && pid in w.world.procs && id in w.world.db.rows
    requires w.world.db.rows[id].intent.state != ReservationRequested
    ensures PendingId(id) !in Creates(CallAt(w.world.procs[pid]))
  {
    var p := w.world.procs[pid];
    if PendingId(id) in Creates(CallAt(p)) {
      CreatesOwnReservation(cfg, w.world.db, p, id);
      LateHolderState(cfg, w.world.db, p);
    }
  }

  lemma NothingEnters(cfg: Config, w: LateWorld, s: LateStep, w': LateWorld, id: string)
    requires LateInv(cfg, w) && HoldersOk(w.world) && LateNext(cfg, w, s, w') && id in w.world.db.rows
    requires w.world.db.rows[id].intent.state != ReservationRequested
    requires PendingId(id) !in w.world.db.books.transfers && !InFlight(w, id)
    ensures PendingId(id) !in w'.world.db.books.transfers && !InFlight(w', id)
  {
    if s.Now? && s.step.Run? {
      var pid := s.step.pid;
      NobodyCreates(cfg, w, pid, id);
      ExecEntersOnly(w.world.db, CallAt(w.world.procs[pid]), s.step.reply, w'.world.db, PendingId(id));
    }
    NothingSent(cfg, w, s, w', id);
  }

  lemma NothingSent(cfg: Config, w: LateWorld, s: LateStep, w': LateWorld, id: string)
    requires LateInv(cfg, w) && HoldersOk(w.world) && LateNext(cfg, w, s, w') && id in w.world.db.rows
    requires w.world.db.rows[id].intent.state != ReservationRequested && !InFlight(w, id)
    ensures !InFlight(w', id)
  {
    if InFlight(w', id) {
      var t :| t in w'.flying && t.id == PendingId(id);
      assert s.Now? && t in Sent(w.world, s.step);
      SentIsCreated(w.world, s.step, t);
      NobodyCreates(cfg, w, s.step.pid, id);
    }
  }

  lemma StaysUnlockable(cfg: Config, w: LateWorld, s: LateStep, w': LateWorld, id: string)
    requires LateInv(cfg, w) && HoldersOk(w.world) && LateNext(cfg, w, s, w') && id in w.world.db.rows
    requires w.world.db.rows[id].intent.state != ReservationRequested && !MayLock(w, id)
    ensures !MayLock(w', id)
  {
    if PendingId(id) in w.world.db.books.transfers {
      StepKeepsClosed(cfg, w, s, w', PendingId(id));
      LateGrows(cfg, w, s, w');
    } else {
      NothingEnters(cfg, w, s, w', id);
    }
  }

  lemma {:induction false} UnlockableForever(cfg: Config, ws: seq<LateWorld>, ss: seq<LateStep>, k: nat, m: nat, id: string)
    requires LateBehaviour(cfg, ws, ss) && k <= m < |ws| && id in ws[k].world.db.rows
    requires Terminal(ws[k].world.db.rows[id].intent.state) && !MayLock(ws[k], id)
    ensures !MayLock(ws[m], id)
  {
    if k < m {
      UnlockableForever(cfg, ws, ss, k, m - 1, id);
      LateTerminalForever(cfg, ws, ss, k, m - 1, id);
      UnlockableOneMore(cfg, ws, ss, m, id);
    }
  }

  lemma UnlockableOneMore(cfg: Config, ws: seq<LateWorld>, ss: seq<LateStep>, m: nat, id: string)
    requires LateBehaviour(cfg, ws, ss) && 0 < m < |ws| && id in ws[m - 1].world.db.rows
    requires ws[m - 1].world.db.rows[id].intent.state != ReservationRequested && !MayLock(ws[m - 1], id)
    ensures !MayLock(ws[m], id)
  {
    var w, s, w' := ws[m - 1], ss[m - 1], ws[m];
    SoundAt(cfg, ws, ss, m - 1, w, s, w');
    StaysUnlockable(cfg, w, s, w', id);
  }

  // ---- the exact condition ----

  ghost predicate CanBeLocked(cfg: Config, ws: seq<LateWorld>, id: string) {
    exists us: seq<LateWorld>, ts: seq<LateStep> ::
      LateBehaviour(cfg, us, ts) && ws <= us && Locked(us[|us| - 1].world.db.books, id)
  }

  /** A reservation in flight lands and is open. */
  lemma LandsOpen(cfg: Config, ws: seq<LateWorld>, ss: seq<LateStep>, id: string)
    requires LateBehaviour(cfg, ws, ss) && InFlight(ws[|ws| - 1], id)
    requires PendingId(id) !in ws[|ws| - 1].world.db.books.transfers
    ensures CanBeLocked(cfg, ws, id)
  {
    var w := ws[|ws| - 1];
    LateInvAlways(cfg, ws, ss, |ws| - 1);
    var t :| t in w.flying && t.id == PendingId(id);
    assert Entitled(cfg, w.world.db, t);
    var w' := w.(world := w.world.(db := LandedDb(w.world.db, t)));
    assert PendingId(id) in w.world.db.books.closed ==> ClosureOk(w.world.db.books, PendingId(id));
    LateAppend(cfg, ws, ss, Land(t), w');
    assert LateBehaviour(cfg, ws + [w'], ss + [Land(t)]) && (ws + [w'])[|ws|] == w';
  }

  /** After any run in which creates may land late, a VOIDED intent can ever again have its funds locked if
      and only if its reservation is open now, or is not in the ledger but still in flight. */
  lemma VoidedLocksExactly(cfg: Config, ws: seq<LateWorld>, ss: seq<LateStep>, id: string)
    requires LateBehaviour(cfg, ws, ss) && id in ws[|ws| - 1].world.db.rows
    requires ws[|ws| - 1].world.db.rows[id].intent.state == Voided
    ensures CanBeLocked(cfg, ws, id) <==> MayLock(ws[|ws| - 1], id)
  {
    var w := ws[|ws| - 1];
    if !MayLock(w, id) {
      forall us: seq<LateWorld>, ts: seq<LateStep> | LateBehaviour(cfg, us, ts) && ws <= us
        ensures !Locked(us[|us| - 1].world.db.books, id)
      {
        UnlockableForever(cfg, us, ts, |ws| - 1, |us| - 1, id);
      }
    } else if Locked(w.world.db.books, id) {
      assert LateBehaviour(cfg, ws, ss) && ws <= ws;
    } else {
      LandsOpen(cfg, ws, ss, id);
    }
  }
}
