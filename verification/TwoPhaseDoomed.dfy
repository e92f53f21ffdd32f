/** Which intents can never be closed again if creates may land late. While the reservation has not expired
    the condition is that of TwoPhaseClosing. After an expiry one chance remains: an officer's CLOSE that
    looked for the reservation before it landed, and still finds the intent AMBIGUOUS at its version. */
module TwoPhaseDoomed {
  import opened Wrappers
  import opened Intents
  import opened Ledger
  import opened TwoPhase
  import opened TwoPhaseSafety
  import opened TwoPhaseTheorems
  import opened TwoPhaseProgress
  import opened TwoPhaseClosing
  import opened TwoPhaseLate
  import opened TwoPhaseCompensation
  import opened TwoPhaseHolders
  import opened TwoPhaseOrphans
  import Text

  // ---- calls that missed the reservation ----

  /** An officer's CLOSE that is past its lookup of the reservation without having found it. */
  predicate BlindCloser(p: Proc, id: string, version: int) {
    && p.Work? && p.id == id && p.task.ResolveOfficer? && p.task.resolution.Close?
    && Text.Canonical(p.task.officer) && p.task.expected == version
    && (p.pc.Settle? || (p.pc == Look(VoidNs) && !p.pendingSeen))
  }

  /** A reconciliation of the row as it is that did not find the reservation. */
  predicate BlindReconciler(db: Db, p: Proc, id: string) {
    && p.Work? && p.id == id && p.task.ReconcileObserved? && Fresh(db, p)
    && (p.pc == Record(Ambiguous) || ((p.pc == Look(PostNs) || p.pc == Look(VoidNs)) && !p.pendingSeen))
  }

  ghost predicate HasCloser(w: World, id: string, version: int) {
    exists pid :: pid in w.procs && BlindCloser(w.procs[pid], id, version)
  }

  ghost predicate HasReconciler(w: World, id: string) {
    exists pid :: pid in w.procs && BlindReconciler(w.db, w.procs[pid], id)
  }

  /** What can still close an intent whose reservation expired. */
  ghost predicate LastChance(w: World, id: string)
    requires id in w.db.rows
  {
    var i := w.db.rows[id].intent;
    || (i.state == Ambiguous && HasCloser(w, id, i.version))
    || (i.state == ReconciliationRequired && HasReconciler(w, id) && HasCloser(w, id, i.version + 1))
  }

  ghost predicate LateClosable(w: World, id: string)
    requires id in w.db.rows
  {
    var state := w.db.rows[id].intent.state;
    || Terminal(state)
    || (if Lapsed(w.db, id) then LastChance(w, id) else state == ReservationRequested ==> HasHolder(w, id))
  }

  ghost predicate CanStillCloseLate(cfg: Config, ws: seq<LateWorld>, id: string) {
    exists us: seq<LateWorld>, ts: seq<LateStep> ::
      LateBehaviour(cfg, us, ts) && ws <= us
      && id in us[|us| - 1].world.db.rows && Terminal(us[|us| - 1].world.db.rows[id].intent.state)
  }

  // ---- nothing else can close it ----

  /** A reservation that expired was neither posted nor voided. */
  lemma LapsedIsUnresolved(cfg: Config, db: Db, id: string)
    requires LateDbOk(cfg, db) && Lapsed(db, id)
    ensures PendingId(id) in db.books.transfers && PostId(id) !in db.books.transfers && VoidId(id) !in db.books.transfers
    ensures id in db.rows
  {
    assert ClosureOk(db.books, PendingId(id));
    assert PostId(id) in db.books.transfers ==> ResolvesItsPending(db.books, PostId(id));
    assert VoidId(id) in db.books.transfers ==> ResolvesItsPending(db.books, VoidId(id));
  }

  /** After the expiry no call comes to have missed the reservation. */
  lemma NoNewCloser(cfg: Config, db: Db, p: Proc, r: Reply, db': Db, id: string, version: int)
    requires LateDbOk(cfg, db) && LateProcOk(cfg, db, p) && p.Work? && Lapsed(db, id)
    requires Exec(db, CallAt(p), r, db') && BlindCloser(Advance(cfg, p, r), id, version)
    ensures BlindCloser(p, id, version)
  {
    LapsedIsUnresolved(cfg, db, id);
    match p.pc
    case Look(ns) => LookCloser(cfg, db, p, r, ns, id, version);
    case Make(t) => MakeCloser(cfg, db, p, r, db', t, id, version);
    case Check(t) => CheckCloser(cfg, db, p, r, t, id, version);
    case _ => QuietCloser(cfg, p, r, id, version);
  }

  lemma LookCloser(cfg: Config, db: Db, p: Proc, r: Reply, ns: Namespace, id: string, version: int)
    requires LateProcOk(cfg, db, p) && p.Work? && p.pc == Look(ns)
    requires PendingId(id) in db.books.transfers && VoidId(id) !in db.books.transfers
    requires Exec(db, Lookup(TransferId(ns, p.id)), r, db) && BlindCloser(Advance(cfg, p, r), id, version)
    ensures BlindCloser(p, id, version)
  {
  }

  lemma CheckCloser(cfg: Config, db: Db, p: Proc, r: Reply, t: Transfer, id: string, version: int)
    requires LateProcOk(cfg, db, p) && p.Work? && p.pc == Check(t) && VoidId(id) !in db.books.transfers
    requires Exec(db, Lookup(t.id), r, db)
    ensures !BlindCloser(Advance(cfg, p, r), id, version)
  {
  }

  /** Reads and writes do not lead there. */
  lemma QuietCloser(cfg: Config, p: Proc, r: Reply, id: string, version: int)
    requires p.Work? && !p.pc.Look? && !p.pc.Make? && !p.pc.Check?
    requires BlindCloser(Advance(cfg, p, r), id, version)
    ensures BlindCloser(p, id, version)
  {
  }

  /** Its void is refused, so its program does not come to settle. */
  lemma MakeCloser(cfg: Config, db: Db, p: Proc, r: Reply, db': Db, t: Transfer, id: string, version: int)
    requires LateProcOk(cfg, db, p) && p.Work? && p.pc == Make(t)
    requires Lapsed(db, id) && VoidId(id) !in db.books.transfers
    requires Exec(db, CreateOne(t), r, db')
    ensures !BlindCloser(Advance(cfg, p, r), id, version)
  {
  }

  lemma NoNewReconciler(cfg: Config, db: Db, p: Proc, r: Reply, db': Db, id: string)
    requires LateDbOk(cfg, db) && LateProcOk(cfg, db, p) && p.Work? && Lapsed(db, id)
    requires Exec(db, CallAt(p), r, db') && id in db.rows && id in db'.rows && db'.rows[id] == db.rows[id]
    requires BlindReconciler(db', Advance(cfg, p, r), id)
    ensures BlindReconciler(db, p, id)
  {
    LapsedIsUnresolved(cfg, db, id);
    match p.pc
    case Look(ns) => LookReconciler(cfg, db, p, r, ns, id);
    case _ =>
  }

  lemma LookReconciler(cfg: Config, db: Db, p: Proc, r: Reply, ns: Namespace, id: string)
    requires LateProcOk(cfg, db, p) && p.Work? && p.pc == Look(ns) && id in db.rows
    requires PendingId(id) in db.books.transfers && PostId(id) !in db.books.transfers && VoidId(id) !in db.books.transfers
    requires Exec(db, Lookup(TransferId(ns, p.id)), r, db) && BlindReconciler(db, Advance(cfg, p, r), id)
    ensures BlindReconciler(db, p, id)
  {
  }

  // ---- one step ----

  lemma ExecKeepsLapsed(db: Db, c: Call, r: Reply, db': Db, id: string)
    requires Exec(db, c, r, db') && Lapsed(db, id)
    ensures Lapsed(db', id)
  {
    match c
    case CreatePair(a, b) => PairKeepsLapsed(db, a, b, r, db', id);
    case _ =>
  }

  lemma PairKeepsLapsed(db: Db, a: Transfer, b: Transfer, r: Reply, db': Db, id: string)
    requires Exec(db, CreatePair(a, b), r, db') && Lapsed(db, id)
    ensures Lapsed(db', id)
  {
  }

  lemma StepKeepsLapsed(cfg: Config, w: LateWorld, s: LateStep, w': LateWorld, id: string)
    requires LateNext(cfg, w, s, w') && Lapsed(w.world.db, id)
    ensures Lapsed(w'.world.db, id)
  {
    if s.Now? && s.step.Run? {
      ExecKeepsLapsed(w.world.db, CallAt(w.world.procs[s.step.pid]), s.step.reply, w'.world.db, id);
    }
  }

  /** Where a process of the next world comes from. */
  predicate Stays(w: World, w': World, pid: nat) {
    pid in w.procs && pid in w'.procs && w'.procs[pid] == w.procs[pid]
  }

  predicate Ran(cfg: Config, w: World, s: LateStep, w': World, pid: nat) {
    && s.Now? && s.step.Run? && s.step.pid == pid && pid in w.procs && pid in w'.procs
    && Exec(w.db, CallAt(w.procs[pid]), s.step.reply, w'.db) && w'.procs[pid] == Advance(cfg, w.procs[pid], s.step.reply)
  }

  predicate Starts(w': World, pid: nat) {
    pid in w'.procs && (w'.procs[pid].Work? ==> w'.procs[pid].pc.Read? || w'.procs[pid].pc.Done?)
  }

  lemma Origin(cfg: Config, w: LateWorld, s: LateStep, w': LateWorld, pid: nat)
    requires LateNext(cfg, w, s, w') && pid in w'.world.procs
    ensures Stays(w.world, w'.world, pid) || Ran(cfg, w.world, s, w'.world, pid) || Starts(w'.world, pid)
  {
  }

  lemma RanCloser(cfg: Config, w: LateWorld, s: LateStep, w': World, pid: nat, id: string, version: int)
    requires LateInv(cfg, w) && Ran(cfg, w.world, s, w', pid) && Lapsed(w.world.db, id)
    requires BlindCloser(w'.procs[pid], id, version)
    ensures BlindCloser(w.world.procs[pid], id, version)
  {
    NoNewCloser(cfg, w.world.db, w.world.procs[pid], s.step.reply, w'.db, id, version);
  }

  lemma ClosersDwindle(cfg: Config, w: LateWorld, s: LateStep, w': LateWorld, id: string, version: int)
    requires LateInv(cfg, w) && LateNext(cfg, w, s, w') && Lapsed(w.world.db, id)
    ensures HasCloser(w'.world, id, version) ==> HasCloser(w.world, id, version)
  {
    forall pid | pid in w'.world.procs && BlindCloser(w'.world.procs[pid], id, version)
      ensures pid in w.world.procs && BlindCloser(w.world.procs[pid], id, version)
    {
      Origin(cfg, w, s, w', pid);
      if Ran(cfg, w.world, s, w'.world, pid) {
        RanCloser(cfg, w, s, w'.world, pid, id, version);
      }
    }
  }

  lemma RanReconciler(cfg: Config, w: LateWorld, s: LateStep, w': World, pid: nat, id: string)
    requires LateInv(cfg, w) && Ran(cfg, w.world, s, w', pid) && Lapsed(w.world.db, id)
    requires id in w.world.db.rows && id in w'.db.rows && w'.db.rows[id] == w.world.db.rows[id]
    requires BlindReconciler(w'.db, w'.procs[pid], id)
    ensures BlindReconciler(w.world.db, w.world.procs[pid], id)
  {
    NoNewReconciler(cfg, w.world.db, w.world.procs[pid], s.step.reply, w'.db, id);
  }

  lemma ReconcilersDwindle(cfg: Config, w: LateWorld, s: LateStep, w': LateWorld, id: string)
    requires LateInv(cfg, w) && LateNext(cfg, w, s, w') && Lapsed(w.world.db, id)
    requires id in w.world.db.rows && id in w'.world.db.rows && w'.world.db.rows[id] == w.world.db.rows[id]
    ensures HasReconciler(w'.world, id) ==> HasReconciler(w.world, id)
  {
    forall pid | pid in w'.world.procs && BlindReconciler(w'.world.db, w'.world.procs[pid], id)
      ensures pid in w.world.procs && BlindReconciler(w.world.db, w.world.procs[pid], id)
    {
      Origin(cfg, w, s, w', pid);
      if Ran(cfg, w.world, s, w'.world, pid) {
        RanReconciler(cfg, w, s, w'.world, pid, id);
      }
    }
  }

  /** A row that just moved has no reconciliation of itself under way. */
  lemma NoReconcilerYet(cfg: Config, w: LateWorld, pid: nat, w': LateWorld, id: string)
    requires LateInv(cfg, w) && id in w.world.db.rows && id in w'.world.db.rows
    requires w'.world.db.rows[id].intent.version == w.world.db.rows[id].intent.version + 1
    requires forall q :: q in w'.world.procs && q != pid ==> q in w.world.procs && w'.world.procs[q] == w.world.procs[q]
    requires pid in w'.world.procs && !BlindReconciler(w'.world.db, w'.world.procs[pid], id)
    ensures !HasReconciler(w'.world, id)
  {
    forall q | q in w'.world.procs ensures !BlindReconciler(w'.world.db, w'.world.procs[q], id) {
      if q != pid {
        OldIsNotFresh(cfg, w.world.db, w'.world.db, w.world.procs[q], id);
      }
    }
  }

  lemma OldIsNotFresh(cfg: Config, db: Db, db': Db, q: Proc, id: string)
    requires LateDbOk(cfg, db) && LateProcOk(cfg, db, q) && id in db.rows && id in db'.rows
    requires db'.rows[id].intent.version == db.rows[id].intent.version + 1
    ensures !BlindReconciler(db', q, id)
  {
    assert LateRowOk(cfg, db, id);
  }

  /** What a record of an expired intent can do. */
  lemma LapsedMove(cfg: Config, db: Db, p: Proc, next: State, r: Reply, db': Db, id: string)
    requires LateDbOk(cfg, db) && p.Work? && LateProcOk(cfg, db, p) && Lapsed(db, id) && p.id == id
    requires CallAt(p) == Move(id, p.current.version, next) && CanMove(db, id, p.current.version, next)
    requires db' == Moved(db, id, next)
    ensures !Terminal(next)
    ensures next == Ambiguous ==> db.rows[id].intent.state == ReconciliationRequired && BlindReconciler(db, p, id)
    ensures !BlindReconciler(db', Advance(cfg, p, r), id)
  {
    LapsedIsUnresolved(cfg, db, id);
    assert LateRowOk(cfg, db, id);
    LateMoveEvidence(cfg, db, p, next);
    match p.pc
    case Record(_) => assert LateTaskOk(cfg, db, p);
    case _ =>
  }

  /** After a row moved: what must not be for the expired intent to be doomed. */
  lemma MovedDooms(w: LateWorld, w': LateWorld, id: string)
    requires id in w.world.db.rows && id in w'.world.db.rows && !LastChance(w.world, id)
    requires w'.world.db.rows[id].intent.version == w.world.db.rows[id].intent.version + 1
    requires !HasReconciler(w'.world, id)
    requires HasCloser(w'.world, id, w'.world.db.rows[id].intent.version) ==>
               HasCloser(w.world, id, w'.world.db.rows[id].intent.version)
    requires w'.world.db.rows[id].intent.state == Ambiguous ==>
               w.world.db.rows[id].intent.state == ReconciliationRequired && HasReconciler(w.world, id)
    ensures !LastChance(w'.world, id)
  {
  }

  /** A call records next for the intent. */
  predicate Records(cfg: Config, w: World, pid: nat, next: State, r: Reply, w': World, id: string) {
    && pid in w.procs && w.procs[pid].Work? && w.procs[pid].id == id
    && CallAt(w.procs[pid]) == Move(id, w.procs[pid].current.version, next)
    && CanMove(w.db, id, w.procs[pid].current.version, next) && w'.db == Moved(w.db, id, next)
    && w'.procs == w.procs[pid := Advance(cfg, w.procs[pid], r)]
  }

  lemma RecordLeaves(cfg: Config, w: LateWorld, pid: nat, next: State, r: Reply, w': LateWorld, id: string)
    requires LateInv(cfg, w) && Lapsed(w.world.db, id) && Records(cfg, w.world, pid, next, r, w'.world, id)
    ensures !Terminal(next) && !HasReconciler(w'.world, id)
    ensures next == Ambiguous ==> w.world.db.rows[id].intent.state == ReconciliationRequired && HasReconciler(w.world, id)
  {
    LapsedMove(cfg, w.world.db, w.world.procs[pid], next, r, w'.world.db, id);
    NoReconcilerYet(cfg, w, pid, w', id);
  }

  lemma MoveDooms(cfg: Config, w: LateWorld, pid: nat, next: State, r: Reply, w': LateWorld, id: string)
    requires LateInv(cfg, w) && LateNext(cfg, w, Now(Run(pid, r)), w') && Lapsed(w.world.db, id)
    requires Records(cfg, w.world, pid, next, r, w'.world, id) && !LastChance(w.world, id)
    ensures id in w'.world.db.rows && !Terminal(w'.world.db.rows[id].intent.state) && !LastChance(w'.world, id)
  {
    RecordLeaves(cfg, w, pid, next, r, w', id);
    ClosersDwindle(cfg, w, Now(Run(pid, r)), w', id, w'.world.db.rows[id].intent.version);
    MovedDooms(w, w', id);
  }

  lemma ResolveReopens(db: Db, p: Proc, r: Reply, db': Db)
    requires p.Work? && CallAt(p).Resolve? && Exec(db, CallAt(p), r, db') && db' != db
    requires p.id in db.rows && !BlindCloser(p, p.id, db.rows[p.id].intent.version)
    ensures p.id in db'.rows && db'.rows[p.id].intent.state == ReconciliationRequired
    ensures db'.rows[p.id].intent.version == db.rows[p.id].intent.version + 1
    ensures db.rows[p.id].intent.state == Ambiguous && p.pc.Settle?
  {
  }

  /** An officer's call settles the intent. */
  predicate Settles(cfg: Config, w: World, pid: nat, r: Reply, w': World, id: string) {
    && pid in w.procs && w.procs[pid].Work? && w.procs[pid].id == id && CallAt(w.procs[pid]).Resolve?
    && Exec(w.db, CallAt(w.procs[pid]), r, w'.db) && w'.db != w.db
    && w'.procs == w.procs[pid := Advance(cfg, w.procs[pid], r)]
  }

  lemma SettledIsDone(cfg: Config, p: Proc, r: Reply)
    requires p.Work? && p.pc.Settle?
    ensures Advance(cfg, p, r).Work? && Advance(cfg, p, r).pc.Done?
  {
  }

  lemma SettleLeaves(cfg: Config, w: LateWorld, pid: nat, r: Reply, w': LateWorld, id: string)
    requires LateInv(cfg, w) && Settles(cfg, w.world, pid, r, w'.world, id) && id in w.world.db.rows
    requires !BlindCloser(w.world.procs[pid], id, w.world.db.rows[id].intent.version)
    ensures id in w'.world.db.rows && w'.world.db.rows[id].intent.state == ReconciliationRequired
    ensures w'.world.db.rows[id].intent.version == w.world.db.rows[id].intent.version + 1
    ensures !HasReconciler(w'.world, id)
  {
    ResolveReopens(w.world.db, w.world.procs[pid], r, w'.world.db);
    SettledIsDone(cfg, w.world.procs[pid], r);
    NoReconcilerYet(cfg, w, pid, w', id);
  }

  lemma ResolveDooms(cfg: Config, w: LateWorld, pid: nat, r: Reply, w': LateWorld, id: string)
    requires LateInv(cfg, w) && Settles(cfg, w.world, pid, r, w'.world, id) && id in w.world.db.rows
    requires w.world.db.rows[id].intent.state == Ambiguous && !LastChance(w.world, id)
    ensures id in w'.world.db.rows && !Terminal(w'.world.db.rows[id].intent.state) && !LastChance(w'.world, id)
  {
    SettleLeaves(cfg, w, pid, r, w', id);
  }

  predicate RowKept(w: World, w': World, id: string) { id in w.db.rows && id in w'.db.rows && w'.db.rows[id] == w.db.rows[id] }

  predicate RowMoved(cfg: Config, w: World, s: LateStep, w': World, id: string) {
    && s.Now? && s.step.Run? && s.step.pid in w.procs
    && (|| Settles(cfg, w, s.step.pid, s.step.reply, w', id)
        || (CallAt(w.procs[s.step.pid]).Move?
            && Records(cfg, w, s.step.pid, CallAt(w.procs[s.step.pid]).next, s.step.reply, w', id)))
  }

  /** Once approved, a row is kept, recorded or settled. */
  lemma RowFate(cfg: Config, w: LateWorld, s: LateStep, w': LateWorld, id: string)
    requires LateNext(cfg, w, s, w') && id in w.world.db.rows && w.world.db.rows[id].intent.state != Draft
    ensures RowKept(w.world, w'.world, id) || RowMoved(cfg, w.world, s, w'.world, id)
  {
    if s.Now? && s.step.Run? && w'.world.db.rows != w.world.db.rows {
      WriterOnly(w.world.db, w.world.procs[s.step.pid], s.step.reply, w'.world.db);
    }
  }

  lemma KeptDooms(cfg: Config, w: LateWorld, s: LateStep, w': LateWorld, id: string)
    requires LateInv(cfg, w) && LateNext(cfg, w, s, w') && Lapsed(w.world.db, id)
    requires RowKept(w.world, w'.world, id) && !LastChance(w.world, id)
    ensures !LastChance(w'.world, id)
  {
    var version := w.world.db.rows[id].intent.version;
    ClosersDwindle(cfg, w, s, w', id, version);
    ClosersDwindle(cfg, w, s, w', id, version + 1);
    ReconcilersDwindle(cfg, w, s, w', id);
  }

  lemma LapsedDooms(cfg: Config, w: LateWorld, s: LateStep, w': LateWorld, id: string)
    requires LateInv(cfg, w) && LateNext(cfg, w, s, w') && Lapsed(w.world.db, id) && id in w.world.db.rows
    requires !Terminal(w.world.db.rows[id].intent.state) && !LastChance(w.world, id)
    ensures id in w'.world.db.rows && !Terminal(w'.world.db.rows[id].intent.state) && !LastChance(w'.world, id)
  {
    LapsedIsUnresolved(cfg, w.world.db, id);
    assert LateRowOk(cfg, w.world.db, id);
    RowFate(cfg, w, s, w', id);
    if RowKept(w.world, w'.world, id) {
      KeptDooms(cfg, w, s, w', id);
    } else {
      MovedRowDooms(cfg, w, s, w', id);
    }
  }

  lemma MovedRowDooms(cfg: Config, w: LateWorld, s: LateStep, w': LateWorld, id: string)
    requires LateInv(cfg, w) && LateNext(cfg, w, s, w') && Lapsed(w.world.db, id) && id in w.world.db.rows
    requires RowMoved(cfg, w.world, s, w'.world, id) && !LastChance(w.world, id)
    ensures id in w'.world.db.rows && !Terminal(w'.world.db.rows[id].intent.state) && !LastChance(w'.world, id)
  {
    var pid, r := s.step.pid, s.step.reply;
    if Settles(cfg, w.world, pid, r, w'.world, id) {
      ResolveMoves(w.world.db, w.world.procs[pid], r, w'.world.db);
      ResolveDooms(cfg, w, pid, r, w', id);
    } else {
      MoveDooms(cfg, w, pid, CallAt(w.world.procs[pid]).next, r, w', id);
    }
  }

  // ---- requested without a holder ----

  lemma RequestedKept(cfg: Config, w: LateWorld, s: LateStep, w': LateWorld, id: string)
    requires LateInv(cfg, w) && LateNext(cfg, w, s, w') && id in w.world.db.rows
    requires w.world.db.rows[id].intent.state == ReservationRequested && !HasHolder(w.world, id)
    ensures RowKept(w.world, w'.world, id)
  {
    RowFate(cfg, w, s, w', id);
    if s.Now? && s.step.Run? && CallAt(w.world.procs[s.step.pid]).Move?
       && Records(cfg, w.world, s.step.pid, CallAt(w.world.procs[s.step.pid]).next, s.step.reply, w'.world, id) {
      MoverHolds(cfg, w.world.db, w.world.procs[s.step.pid], CallAt(w.world.procs[s.step.pid]).next);
    }
  }

  lemma RowsKept(db: Db, p: Proc, r: Reply, db': Db)
    requires p.Work? && Exec(db, CallAt(p), r, db') && p.id in db.rows && p.id in db'.rows && db'.rows[p.id] == db.rows[p.id]
    ensures db'.rows == db.rows
  {
  }

  lemma RanHolder(cfg: Config, w: LateWorld, s: LateStep, w': World, pid: nat, id: string)
    requires Ran(cfg, w.world, s, w', pid) && RowKept(w.world, w', id)
    requires Holding(w'.db, w'.procs[pid]) && w'.procs[pid].id == id
    ensures Holding(w.world.db, w.world.procs[pid]) && w.world.procs[pid].id == id
  {
    var p := w.world.procs[pid];
    RowsKept(w.world.db, p, s.step.reply, w'.db);
    AdvanceHolds(cfg, w.world.db, p, s.step.reply, w'.db);
  }

  lemma NoNewHolder(cfg: Config, w: LateWorld, s: LateStep, w': LateWorld, id: string)
    requires LateNext(cfg, w, s, w') && RowKept(w.world, w'.world, id)
    ensures HasHolder(w'.world, id) ==> HasHolder(w.world, id)
  {
    forall pid | pid in w'.world.procs && Holding(w'.world.db, w'.world.procs[pid]) && w'.world.procs[pid].id == id
      ensures pid in w.world.procs && Holding(w.world.db, w.world.procs[pid]) && w.world.procs[pid].id == id
    {
      Origin(cfg, w, s, w', pid);
      if Ran(cfg, w.world, s, w'.world, pid) {
        RanHolder(cfg, w, s, w'.world, pid, id);
      }
    }
  }

  // ---- doomed for ever ----

  ghost predicate Doomed(w: LateWorld, id: string) { id in w.world.db.rows && !LateClosable(w.world, id) }

  lemma DoomedStep(cfg: Config, w: LateWorld, s: LateStep, w': LateWorld, id: string)
    requires LateInv(cfg, w) && LateNext(cfg, w, s, w') && Doomed(w, id)
    ensures Doomed(w', id)
  {
    if Lapsed(w.world.db, id) {
      LapsedDooms(cfg, w, s, w', id);
      StepKeepsLapsed(cfg, w, s, w', id);
    } else {
      RequestedKept(cfg, w, s, w', id);
      NoNewHolder(cfg, w, s, w', id);
    }
  }

  lemma DoomedOneMore(cfg: Config, ws: seq<LateWorld>, ss: seq<LateStep>, m: nat, id: string)
    requires LateBehaviour(cfg, ws, ss) && 0 < m < |ws| && Doomed(ws[m - 1], id)
    ensures Doomed(ws[m], id)
  {
    var w, s, w' := ws[m - 1], ss[m - 1], ws[m];
    SoundAt(cfg, ws, ss, m - 1, w, s, w');
    DoomedStep(cfg, w, s, w', id);
  }

  lemma {:induction false} DoomedForever(cfg: Config, ws: seq<LateWorld>, ss: seq<LateStep>, k: nat, m: nat, id: string)
    requires LateBehaviour(cfg, ws, ss) && k <= m < |ws| && Doomed(ws[k], id)
    ensures Doomed(ws[m], id)
  {
    if k < m {
      DoomedForever(cfg, ws, ss, k, m - 1, id);
      DoomedOneMore(cfg, ws, ss, m, id);
    }
  }
}
