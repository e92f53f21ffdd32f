/** Two-phase money movement when the ledger may be late: a create request whose reply was a failure
    can still take effect at any later moment, after the caller and everybody else moved on. Every run
    of TwoPhase is such a run in which nothing lands. The compensating void of the officer resolver
    exists for this case. */
module TwoPhaseLate {
  import opened Wrappers
  import opened Intents
  import opened Ledger
  import opened TwoPhase
  import opened TwoPhaseSafety
  import opened TwoPhaseTheorems

  /** The system and the requests that may still land. */
  datatype LateWorld = LateWorld(world: World, flying: set<Transfer>)

  datatype LateStep = Now(step: Step) | Land(transfer: Transfer)

  /** Requests whose sender was told of a failure. */
  function Sent(w: World, s: Step): set<Transfer> {
    if s.Run? && s.pid in w.procs && s.reply.Failure? then
      match CallAt(w.procs[s.pid])
      case CreateOne(t) => {t}
      case CreatePair(a, b) => {a, b}
      case _ => {}
    else {}
  }

  predicate LateNext(cfg: Config, w: LateWorld, s: LateStep, w': LateWorld) {
    match s
    case Now(step) => Next(cfg, w.world, step, w'.world) && w'.flying == w.flying + Sent(w.world, step)
    case Land(t) =>
      && t in w.flying && Admissible(w.world.db.books, t)
      && w' == w.(world := w.world.(db := w.world.db.(books := Insert(w.world.db.books, t))))
  }

  ghost predicate LateBehaviour(cfg: Config, ws: seq<LateWorld>, ss: seq<LateStep>) {
    && |ws| == |ss| + 1
    && Init(ws[0].world) && ws[0].flying == {}
    && forall k :: 0 <= k < |ss| ==> LateNext(cfg, ws[k], ss[k], ws[k + 1])
  }

  // ---- the invariant ----

  /** What the ledger and the history must show for the next state of an intent. */
  ghost predicate LateEvidence(b: Books, id: string, row: Row, state: State) {
    match state
    case Draft => PendingId(id) !in b.transfers
    case Approved => PendingId(id) !in b.transfers
    case ReservationRequested => true
    case Reserved => PendingId(id) in b.transfers
    case Posted => PostId(id) in b.transfers
    case Voided => VoidId(id) in b.transfers || !WasReserved(row)
    case Ambiguous => !WasReserved(row)
    case ReconciliationRequired => true
  }

  ghost predicate LateRowOk(cfg: Config, db: Db, id: string)
    requires id in db.rows
  {
    var row := db.rows[id];
    && row.intent.request.intentId == id
    && TrailOk(row)
    && LateEvidence(db.books, id, row, row.intent.state)
    && (WasReserved(row) ==> PendingId(id) in db.books.transfers)
    && (PostId(id) in db.books.transfers ==> WasReserved(row))
    && (PendingId(id) in db.books.transfers ==>
          ReservationOf(cfg, row.intent.request, db.books.transfers[PendingId(id)]))
  }

  ghost predicate LateDbOk(cfg: Config, db: Db) {
    && BooksOk(db.books)
    && Balanced(db.books)
    && (forall id :: id in db.rows ==> LateRowOk(cfg, db, id))
    && (forall t: TransferId :: t in db.books.transfers && t.ns.PendingNs? ==> t.key in db.rows)
  }

  /** A request somebody was entitled to make. */
  ghost predicate Entitled(cfg: Config, db: Db, t: Transfer) {
    && WellFormed(t)
    && (t.id.ns.PendingNs? ==>
          && t.id.key in db.rows && Rank(db.rows[t.id.key].intent.state) >= 2
          && ReservationOf(cfg, db.rows[t.id.key].intent.request, t))
    && (t.id.ns.PostNs? ==> t.id.key in db.rows && WasReserved(db.rows[t.id.key]))
  }

  ghost predicate LateProcOk(cfg: Config, db: Db, p: Proc) {
    match p
    case Payout(_, _) => PayoutOk(db, p)
    case Work(task, id, pc, current, _, _, _) =>
      match pc
      case Read => true
      case Done(result) => result.Ok? ==> Snapshot(db, id, result.value) && Reports(task, result.value.state)
      case Ask => task.ReserveApproved? && Snapshot(db, id, current) && current.state == Approved
      case _ => Snapshot(db, id, current) && LateTaskOk(cfg, db, p)
  }

  ghost predicate LateTaskOk(cfg: Config, db: Db, p: Proc)
    requires p.Work? && Snapshot(db, p.id, p.current)
  {
    match p.task
    case ReserveApproved => LateReserveOk(cfg, db, p)
    case PostReserved =>
      && p.current.state == Reserved
      && CloseOk(cfg, db, p, VoidNs, PostNs, PostTransfer(p.id, cfg.ledger, cfg.code), Posted, PostId(p.id))
    case VoidReserved =>
      && p.current.state == Reserved
      && CloseOk(cfg, db, p, PostNs, VoidNs, VoidTransfer(p.id, cfg.ledger, cfg.code), Voided, VoidId(p.id))
    case ReconcileObserved => LateReconcileOk(db, p)
    case ResolveOfficer(_, _, _) =>
      && p.current.state == Ambiguous
      && (match p.pc
          case Look(ns) => ns in {PostNs, PendingNs, VoidNs}
          case Make(t) => t == VoidTransfer(p.id, cfg.ledger, cfg.code)
          case Check(t) => t == VoidTransfer(p.id, cfg.ledger, cfg.code)
          case Settle => true
          case _ => false)
  }

  ghost predicate LateReserveOk(cfg: Config, db: Db, p: Proc)
    requires p.Work? && Snapshot(db, p.id, p.current)
  {
    && p.current.state == ReservationRequested
    && Rank(db.rows[p.id].intent.state) >= 2
    && (match p.pc
        case Look(ns) => ns == PendingNs
        case Make(t) => ReservationOf(cfg, p.current.request, t)
        case Check(t) => ReservationOf(cfg, p.current.request, t)
        case Record(next) => next == Reserved && PendingId(p.id) in db.books.transfers
        case Park => true
        case _ => false)
  }

  ghost predicate LateReconcileOk(db: Db, p: Proc)
    requires p.Work? && p.id in db.rows
  {
    && p.current.state == ReconciliationRequired
    && (match p.pc
        case Look(ns) =>
          && ns in {PendingNs, PostNs, VoidNs}
          && (ns != PendingNs ==> LateSawPending(db, p))
          && (ns == VoidNs ==> p.postSeen ==> PostId(p.id) in db.books.transfers)
        case Record(next) =>
          && next in {Posted, Voided, Reserved, Ambiguous}
          && (next == Voided ==> VoidId(p.id) in db.books.transfers)
          && (Fresh(db, p) ==> LateEvidence(db.books, p.id, db.rows[p.id], next))
        case _ => false)
  }

  /** A missing reservation may land any time, but while the row is untouched it was never RESERVED. */
  ghost predicate LateSawPending(db: Db, p: Proc)
    requires p.Work? && p.id in db.rows
  {
    if p.pendingSeen then PendingId(p.id) in db.books.transfers
    else Fresh(db, p) ==> !WasReserved(db.rows[p.id])
  }

  ghost predicate LateInv(cfg: Config, w: LateWorld) {
    && LateDbOk(cfg, w.world.db)
    && (forall pid :: pid in w.world.procs ==> LateProcOk(cfg, w.world.db, w.world.procs[pid]))
    && (forall t :: t in w.flying ==> Entitled(cfg, w.world.db, t))
  }

  // ---- tables and books only grow ----

  ghost predicate Later(db: Db, db': Db) {
    && (forall id :: id in db.rows ==> id in db'.rows && RowExtends(db.rows[id], db'.rows[id]))
    && (forall t :: t in db.books.transfers ==>
          t in db'.books.transfers && db'.books.transfers[t] == db.books.transfers[t])
  }

  lemma LaterSame(db: Db)
    ensures Later(db, db)
  {
  }

  lemma LaterTrans(a: Db, b: Db, c: Db)
    requires Later(a, b) && Later(b, c)
    ensures Later(a, c)
  {
    forall id | id in a.rows ensures id in c.rows && RowExtends(a.rows[id], c.rows[id]) {
      assert RowExtends(a.rows[id], b.rows[id]) && RowExtends(b.rows[id], c.rows[id]);
    }
  }

  lemma LaterWasReserved(db: Db, db': Db, id: string)
    requires Later(db, db') && id in db.rows && WasReserved(db.rows[id])
    ensures WasReserved(db'.rows[id])
  {
    assert RowExtends(db.rows[id], db'.rows[id]);
    var e :| e in db.rows[id].outbox && e.state == Reserved;
    assert e in db'.rows[id].outbox;
  }

  lemma LaterSnapshot(cfg: Config, db: Db, db': Db, id: string, i: Intent)
    requires LateDbOk(cfg, db) && LateDbOk(cfg, db') && Later(db, db') && Snapshot(db, id, i)
    ensures Snapshot(db', id, i) && Rank(db.rows[id].intent.state) <= Rank(db'.rows[id].intent.state)
    ensures db'.rows[id].intent.version == i.version ==>
              db.rows[id].intent.version == i.version && db'.rows[id].outbox == db.rows[id].outbox
  {
    assert LateRowOk(cfg, db, id) && LateRowOk(cfg, db', id);
    assert RowExtends(db.rows[id], db'.rows[id]);
  }

  lemma LaterKeepsTask(cfg: Config, db: Db, db': Db, q: Proc)
    requires q.Work? && Snapshot(db, q.id, q.current) && Snapshot(db', q.id, q.current)
    requires LateTaskOk(cfg, db, q)
    requires forall t :: t in db.books.transfers ==> t in db'.books.transfers
    requires Rank(db.rows[q.id].intent.state) <= Rank(db'.rows[q.id].intent.state)
    requires db'.rows[q.id].intent.version == q.current.version ==>
               db.rows[q.id].intent.version == q.current.version && db'.rows[q.id].outbox == db.rows[q.id].outbox
    ensures LateTaskOk(cfg, db', q)
  {
    match q.task
    case ReserveApproved =>
    case PostReserved =>
    case VoidReserved =>
    case ReconcileObserved =>
    case ResolveOfficer(_, _, _) =>
  }

  lemma LaterKeepsProc(cfg: Config, db: Db, db': Db, q: Proc)
    requires LateDbOk(cfg, db) && LateDbOk(cfg, db') && Later(db, db') && LateProcOk(cfg, db, q)
    ensures LateProcOk(cfg, db', q)
  {
    if q.Work? {
      if q.pc.Done? {
        if q.pc.result.Ok? {
          LaterSnapshot(cfg, db, db', q.id, q.pc.result.value);
        }
      } else if !q.pc.Read? {
        LaterSnapshot(cfg, db, db', q.id, q.current);
        if !q.pc.Ask? {
          LaterKeepsTask(cfg, db, db', q);
        }
      }
    }
  }

  lemma LaterKeepsEntitled(cfg: Config, db: Db, db': Db, t: Transfer)
    requires Later(db, db') && Entitled(cfg, db, t)
    ensures Entitled(cfg, db', t)
  {
    if t.id.ns.PendingNs? {
      assert RowExtends(db.rows[t.id.key], db'.rows[t.id.key]);
    } else if t.id.ns.PostNs? {
      LaterWasReserved(db, db', t.id.key);
    }
  }

  // ---- what each effect keeps ----

  lemma SwapHistory(row: Row, changed: Intent, kind: EventKind)
    ensures WasReserved(Swap(row, changed, kind)) <==> WasReserved(row) || changed.state == Reserved
  {
    var row' := Swap(row, changed, kind);
    assert row'.outbox[|row.outbox|] == Event(kind, changed.state);
    if WasReserved(row) {
      var e :| e in row.outbox && e.state == Reserved;
      assert e in row'.outbox;
    }
  }

  lemma LateSwapRow(cfg: Config, db: Db, id: string, changed: Intent, kind: EventKind, db': Db)
    requires id in db.rows && LateRowOk(cfg, db, id)
    requires changed.request == db.rows[id].intent.request
    requires LifecycleMove(db.rows[id].intent.state, changed.state)
    requires LateEvidence(db.books, id, db.rows[id], changed.state)
    requires id in db'.rows && db'.rows[id] == Swap(db.rows[id], changed, kind) && db'.books == db.books
    ensures LateRowOk(cfg, db', id) && RowExtends(db.rows[id], db'.rows[id])
  {
    SwapHistory(db.rows[id], changed, kind);
    assert TrailOk(db'.rows[id]);
  }

  lemma LateSwap(cfg: Config, db: Db, id: string, changed: Intent, kind: EventKind, db': Db)
    requires LateDbOk(cfg, db) && id in db.rows
    requires changed.request == db.rows[id].intent.request
    requires LifecycleMove(db.rows[id].intent.state, changed.state)
    requires LateEvidence(db.books, id, db.rows[id], changed.state)
    requires db' == db.(rows := db.rows[id := Swap(db.rows[id], changed, kind)])
    ensures LateDbOk(cfg, db') && Later(db, db')
  {
    assert LateRowOk(cfg, db, id);
    LateSwapRow(cfg, db, id, changed, kind, db');
    forall x | x in db'.rows && x != id ensures LateRowOk(cfg, db', x) {
      assert LateRowOk(cfg, db, x);
    }
  }

  lemma LateEntry(cfg: Config, db: Db, t: Transfer, db': Db)
    requires LateDbOk(cfg, db) && Entitled(cfg, db, t) && Admissible(db.books, t)
    requires db' == db.(books := Insert(db.books, t))
    ensures LateDbOk(cfg, db') && Later(db, db')
  {
    InsertKeepsBooks(db.books, t);
    InsertKeepsBalance(db.books, t);
    forall x | x in db'.rows ensures LateRowOk(cfg, db', x) {
      assert LateRowOk(cfg, db, x);
    }
  }

  lemma LateUnseen(cfg: Config, db: Db, t: Transfer, db': Db)
    requires LateDbOk(cfg, db) && Entitled(cfg, db, t)
    requires db'.rows == db.rows && CreatesUnseen(db.books, t, db'.books)
    ensures LateDbOk(cfg, db') && Later(db, db')
  {
    if db'.books != db.books {
      LateEntry(cfg, db, t, db');
    } else {
      assert db' == db;
    }
  }

  // ---- one step of one process ----

  lemma LateTrouble(cfg: Config, db: Db, p: Proc, e: Error)
    requires p.Work? && !p.pc.Read? && !p.pc.Ask? && !p.pc.Done? && LateProcOk(cfg, db, p)
    ensures LateProcOk(cfg, db, Trouble(p, e))
  {
    var q := Trouble(p, e);
    match p.task
    case ReserveApproved => assert LateTaskOk(cfg, db, q);
    case PostReserved => assert LateTaskOk(cfg, db, q);
    case VoidReserved => assert LateTaskOk(cfg, db, q);
    case ReconcileObserved =>
    case ResolveOfficer(_, _, _) =>
  }

  lemma LateAfterRead(cfg: Config, db: Db, p: Proc)
    requires p.Work? && Snapshot(db, p.id, p.current)
    ensures LateProcOk(cfg, db, AfterRead(p))
  {
    var q := AfterRead(p);
    match p.task
    case ReserveApproved =>
    case PostReserved => assert q.pc.Look? ==> LateTaskOk(cfg, db, q);
    case VoidReserved => assert q.pc.Look? ==> LateTaskOk(cfg, db, q);
    case ReconcileObserved => assert q.pc.Look? ==> LateTaskOk(cfg, db, q);
    case ResolveOfficer(_, _, _) => assert !q.pc.Done? ==> LateTaskOk(cfg, db, q);
  }

  lemma LateAfterRequest(cfg: Config, db: Db, p: Proc)
    requires p.Work? && p.task.ReserveApproved? && Snapshot(db, p.id, p.current)
    requires p.current.state == ReservationRequested && Rank(db.rows[p.id].intent.state) >= 2
    ensures LateProcOk(cfg, db, AfterRequest(cfg, p))
  {
    assert LateTaskOk(cfg, db, AfterRequest(cfg, p));
  }

  lemma LateReserveLook(cfg: Config, db: Db, p: Proc, seen: bool)
    requires p.Work? && p.pc == Look(PendingNs) && p.task.ReserveApproved? && LateProcOk(cfg, db, p)
    requires db.rows[p.id].intent.request.intentId == p.id
    requires seen == (PendingId(p.id) in db.books.transfers)
    ensures LateProcOk(cfg, db, AfterLook(cfg, Note(p, PendingNs, seen), PendingNs))
  {
    var q := AfterLook(cfg, Note(p, PendingNs, seen), PendingNs);
    assert LateTaskOk(cfg, db, q);
  }

  lemma LateCloseLook(cfg: Config, db: Db, p: Proc, ns: Namespace, seen: bool)
    requires p.Work? && p.pc == Look(ns) && (p.task.PostReserved? || p.task.VoidReserved?) && LateProcOk(cfg, db, p)
    requires seen == (TransferId(ns, p.id) in db.books.transfers)
    ensures LateProcOk(cfg, db, AfterLook(cfg, Note(p, ns, seen), ns))
  {
    var q := AfterLook(cfg, Note(p, ns, seen), ns);
    assert LateTaskOk(cfg, db, q);
  }

  lemma LateResolveLook(cfg: Config, db: Db, p: Proc, ns: Namespace, seen: bool)
    requires p.Work? && p.pc == Look(ns) && p.task.ResolveOfficer? && LateProcOk(cfg, db, p)
    ensures LateProcOk(cfg, db, AfterLook(cfg, Note(p, ns, seen), ns))
  {
    var q := AfterLook(cfg, Note(p, ns, seen), ns);
    assert !q.pc.Done? ==> LateTaskOk(cfg, db, q);
  }

  lemma LateReconcileLook(cfg: Config, db: Db, p: Proc, ns: Namespace, seen: bool)
    requires p.Work? && p.pc == Look(ns) && p.task.ReconcileObserved? && LateProcOk(cfg, db, p)
    requires BooksOk(db.books) && LateRowOk(cfg, db, p.id)
    requires seen == (TransferId(ns, p.id) in db.books.transfers)
    ensures LateProcOk(cfg, db, AfterLook(cfg, Note(p, ns, seen), ns))
  {
    var q := AfterLook(cfg, Note(p, ns, seen), ns);
    PostExcludesVoid(db.books, p.id);
    assert LateReconcileOk(db, q);
    assert LateTaskOk(cfg, db, q);
  }

  lemma LateAfterMake(cfg: Config, db: Db, p: Proc, t: Transfer)
    requires p.Work? && (p.pc == Make(t) || p.pc == Check(t)) && LateProcOk(cfg, db, p)
    requires t.id in db.books.transfers && db.rows[p.id].intent.request.intentId == p.id
    ensures LateProcOk(cfg, db, AfterMake(p))
  {
    var q := AfterMake(p);
    assert LateTaskOk(cfg, db, q);
  }

  /** A reply tells the truth about tables and books as they are once it is sent. */
  predicate Truthful(db: Db, c: Call, r: Reply) {
    match c
    case Get(id) => r.RowIs? ==> id in db.rows && r.intent == db.rows[id].intent
    case Move(id, _, next) => r.RowIs? ==> id in db.rows && r.intent == db.rows[id].intent && r.intent.state == next
    case Resolve(id, _, _, _) =>
      r.RowIs? ==> id in db.rows && r.intent == db.rows[id].intent && r.intent.state in {ReconciliationRequired, Voided}
    case Lookup(t) =>
      && (r.Found? ==> t in db.books.transfers && r.transfer == db.books.transfers[t])
      && (r.Missing? ==> t !in db.books.transfers)
    case CreateOne(t) => r.Answer? && !r.status.Rejected? ==> t.id in db.books.transfers
    case CreatePair(a, b) => r.Answers? ==> (r.first.Created? ==> Holds(db, a)) && (r.second.Created? ==> Holds(db, b))
    case NoCall => true
  }

  lemma LateLookStep(cfg: Config, db: Db, p: Proc, r: Reply)
    requires LateDbOk(cfg, db) && p.Work? && p.pc.Look? && LateProcOk(cfg, db, p) && Truthful(db, CallAt(p), r)
    ensures LateProcOk(cfg, db, Advance(cfg, p, r))
  {
    if r.Found? || r.Missing? {
      assert LateRowOk(cfg, db, p.id);
      var ns := p.pc.ns;
      match p.task
      case ReserveApproved => LateReserveLook(cfg, db, p, r.Found?);
      case PostReserved => LateCloseLook(cfg, db, p, ns, r.Found?);
      case VoidReserved => LateCloseLook(cfg, db, p, ns, r.Found?);
      case ReconcileObserved => LateReconcileLook(cfg, db, p, ns, r.Found?);
      case ResolveOfficer(_, _, _) => LateResolveLook(cfg, db, p, ns, r.Found?);
    } else {
      LateTrouble(cfg, db, p, ErrorOf(r));
    }
  }

  lemma LateMakeStep(cfg: Config, db: Db, p: Proc, r: Reply)
    requires LateDbOk(cfg, db) && p.Work? && (p.pc.Make? || p.pc.Check?) && LateProcOk(cfg, db, p)
    requires Truthful(db, CallAt(p), r)
    ensures LateProcOk(cfg, db, Advance(cfg, p, r))
  {
    assert LateRowOk(cfg, db, p.id);
    var t := p.pc.transfer;
    if (p.pc.Make? && r == Answer(Status.Created)) || (p.pc.Check? && r.Found? && SameContent(r.transfer, t)) {
      LateAfterMake(cfg, db, p, t);
    } else if p.pc.Make? && r == Answer(Status.Exists) {
      assert LateTaskOk(cfg, db, p.(pc := Check(t)));
    } else {
      LateTrouble(cfg, db, p, ErrorOf(r));
    }
  }

  lemma ReadIsSnapshot(cfg: Config, db: Db, id: string)
    requires LateDbOk(cfg, db) && id in db.rows
    ensures Snapshot(db, id, db.rows[id].intent)
  {
    assert LateRowOk(cfg, db, id);
  }

  lemma LateRecordStep(cfg: Config, db: Db, p: Proc, r: Reply)
    requires LateDbOk(cfg, db) && p.Work? && (p.pc.Record? || p.pc.Park? || p.pc.Settle?) && LateProcOk(cfg, db, p)
    requires Truthful(db, CallAt(p), r)
    ensures LateProcOk(cfg, db, Advance(cfg, p, r))
  {
    if r.RowIs? && CallAt(p) != NoCall {
      ReadIsSnapshot(cfg, db, p.id);
    } else if p.pc.Record? {
      LateTrouble(cfg, db, p, ErrorOf(r));
    }
  }

  lemma LateReadStep(cfg: Config, db: Db, p: Proc, r: Reply)
    requires LateDbOk(cfg, db) && p.Work? && (p.pc.Read? || p.pc.Ask?) && LateProcOk(cfg, db, p)
    requires Truthful(db, CallAt(p), r)
    ensures LateProcOk(cfg, db, Advance(cfg, p, r))
  {
    if r.RowIs? {
      ReadIsSnapshot(cfg, db, p.id);
      if p.pc.Read? {
        LateAfterRead(cfg, db, p.(current := r.intent));
      } else {
        LateAfterRequest(cfg, db, p.(current := r.intent));
      }
    }
  }

  lemma LateAdvance(cfg: Config, db: Db, p: Proc, r: Reply)
    requires LateDbOk(cfg, db) && p.Work? && LateProcOk(cfg, db, p) && Truthful(db, CallAt(p), r)
    ensures LateProcOk(cfg, db, Advance(cfg, p, r))
  {
    match p.pc
    case Read => LateReadStep(cfg, db, p, r);
    case Ask => LateReadStep(cfg, db, p, r);
    case Look(_) => LateLookStep(cfg, db, p, r);
    case Make(_) => LateMakeStep(cfg, db, p, r);
    case Check(_) => LateMakeStep(cfg, db, p, r);
    case Done(_) =>
    case _ => LateRecordStep(cfg, db, p, r);
  }

  lemma LatePayout(cfg: Config, db: Db, p: Proc, r: Reply)
    requires BooksOk(db.books) && p.Payout? && LateProcOk(cfg, db, p) && Truthful(db, CallAt(p), r)
    ensures LateProcOk(cfg, db, Advance(cfg, p, r))
  {
    var fee, cost := FeeLeg(p.input), CostLeg(p.input);
    assert fee.id in db.books.transfers ==> WellFormed(db.books.transfers[fee.id]);
    assert cost.id in db.books.transfers ==> WellFormed(db.books.transfers[cost.id]);
  }

  // ---- calls ----

  lemma LateMove(cfg: Config, db: Db, p: Proc, next: State, db': Db)
    requires LateDbOk(cfg, db) && p.Work? && LateProcOk(cfg, db, p)
    requires CallAt(p) == Move(p.id, p.current.version, next)
    requires CanMove(db, p.id, p.current.version, next) && db' == Moved(db, p.id, next)
    ensures LateDbOk(cfg, db') && Later(db, db')
  {
    var row := db.rows[p.id];
    assert LateRowOk(cfg, db, p.id);
    assert Snapshot(db, p.id, p.current) && row.intent.state == p.current.state;
    LateMoveEvidence(cfg, db, p, next);
    LateSwap(cfg, db, p.id, row.intent.(state := next), StateChanged, db');
  }

  lemma LateMoveEvidence(cfg: Config, db: Db, p: Proc, next: State)
    requires p.Work? && LateProcOk(cfg, db, p) && p.id in db.rows && LateRowOk(cfg, db, p.id)
    requires CallAt(p) == Move(p.id, p.current.version, next) && CanMove(db, p.id, p.current.version, next)
    ensures LateEvidence(db.books, p.id, db.rows[p.id], next)
  {
    match p.pc
    case Record(_) => assert LateTaskOk(cfg, db, p);
    case _ =>
  }

  lemma LateResolve(cfg: Config, db: Db, p: Proc, changed: Intent, db': Db)
    requires LateDbOk(cfg, db) && p.Work? && p.task.ResolveOfficer? && p.id in db.rows
    requires ResolveAmbiguous(db.rows[p.id].intent, p.task.expected, p.task.officer, p.task.resolution) == Ok(changed)
    requires db' == db.(rows := db.rows[p.id := Swap(db.rows[p.id], changed, OfficerResolved)])
    ensures LateDbOk(cfg, db') && Later(db, db')
  {
    assert LateRowOk(cfg, db, p.id);
    LateSwap(cfg, db, p.id, changed, OfficerResolved, db');
  }

  lemma MakeIsEntitled(cfg: Config, db: Db, p: Proc)
    requires LateDbOk(cfg, db) && p.Work? && p.pc.Make? && LateProcOk(cfg, db, p)
    ensures Entitled(cfg, db, p.pc.transfer)
  {
    var row := db.rows[p.id];
    assert LateRowOk(cfg, db, p.id);
    if p.task.PostReserved? {
      assert row.outbox[p.current.version - 1] in row.outbox;
    }
  }

  lemma LateCreate(cfg: Config, db: Db, t: Transfer, r: Reply, db': Db)
    requires LateDbOk(cfg, db) && Entitled(cfg, db, t) && Exec(db, CreateOne(t), r, db')
    ensures LateDbOk(cfg, db') && Later(db, db') && Truthful(db', CreateOne(t), r)
  {
    assert CreatesUnseen(db.books, t, db'.books);
    LateUnseen(cfg, db, t, db');
  }

  /** The legs enter one after the other, each at most once. */
  lemma PairMidway(db: Db, a: Transfer, b: Transfer, r: Reply, db': Db)
    requires Exec(db, CreatePair(a, b), r, db') && a.kind.Single? && a.id != b.id
    ensures var mid := Midway(db, a, db');
            && db'.rows == db.rows == mid.rows
            && CreatesUnseen(db.books, a, mid.books) && CreatesUnseen(mid.books, b, db'.books)
            && (r.Answers? && r.first.Created? ==> Holds(mid, a))
  {
    var mid := Midway(db, a, db');
    assert db' == Db(db.rows, db'.books);
    if r.Answers? {
      assert AfterStatus(db.books, a, r.first) == mid.books;
    }
  }

  lemma LatePair(cfg: Config, db: Db, a: Transfer, b: Transfer, r: Reply, db': Db)
    requires LateDbOk(cfg, db) && Exec(db, CreatePair(a, b), r, db')
    requires a.kind.Single? && a.id.ns.FeeNs? && b.kind.Single? && b.id.ns.CostNs?
    ensures LateDbOk(cfg, db') && Later(db, db')
  {
    var mid := Midway(db, a, db');
    PairMidway(db, a, b, r, db');
    LateUnseen(cfg, db, a, mid);
    LateUnseen(cfg, mid, b, db');
    LaterTrans(db, mid, db');
  }

  lemma PairTruthful(db: Db, a: Transfer, b: Transfer, r: Reply, db': Db)
    requires Exec(db, CreatePair(a, b), r, db')
    requires a.kind.Single? && a.id.ns.FeeNs? && b.kind.Single? && b.id.ns.CostNs?
    ensures Truthful(db', CreatePair(a, b), r)
  {
  }

  lemma LateMoveCall(cfg: Config, db: Db, p: Proc, next: State, r: Reply, db': Db)
    requires LateDbOk(cfg, db) && p.Work? && LateProcOk(cfg, db, p)
    requires CallAt(p) == Move(p.id, p.current.version, next)
    requires Exec(db, Move(p.id, p.current.version, next), r, db')
    ensures LateDbOk(cfg, db') && Later(db, db') && Truthful(db', Move(p.id, p.current.version, next), r)
  {
    if db' != db {
      LateMove(cfg, db, p, next, db');
    }
  }

  lemma LateResolveCall(cfg: Config, db: Db, p: Proc, r: Reply, db': Db)
    requires LateDbOk(cfg, db) && p.Work? && p.task.ResolveOfficer?
    requires Exec(db, Resolve(p.id, p.task.expected, p.task.officer, p.task.resolution), r, db')
    ensures LateDbOk(cfg, db') && Later(db, db')
    ensures Truthful(db', Resolve(p.id, p.task.expected, p.task.officer, p.task.resolution), r)
  {
    if db' != db {
      var changed := ResolveAmbiguous(db.rows[p.id].intent, p.task.expected, p.task.officer, p.task.resolution).value;
      LateResolve(cfg, db, p, changed, db');
    }
  }

  lemma LateExec(cfg: Config, db: Db, p: Proc, r: Reply, db': Db)
    requires LateDbOk(cfg, db) && LateProcOk(cfg, db, p) && Exec(db, CallAt(p), r, db')
    ensures LateDbOk(cfg, db') && Later(db, db') && Truthful(db', CallAt(p), r)
  {
    match CallAt(p)
    case Move(_, _, next) => LateMoveCall(cfg, db, p, next, r, db');
    case Resolve(_, _, _, _) => LateResolveCall(cfg, db, p, r, db');
    case CreateOne(t) =>
      MakeIsEntitled(cfg, db, p);
      LateCreate(cfg, db, t, r, db');
    case CreatePair(a, b) =>
      LatePair(cfg, db, a, b, r, db');
      PairTruthful(db, a, b, r, db');
    case _ =>
  }

  lemma SentIsEntitled(cfg: Config, w: LateWorld, s: Step)
    requires LateInv(cfg, w)
    ensures forall t :: t in Sent(w.world, s) ==> Entitled(cfg, w.world.db, t)
  {
    if s.Run? && s.pid in w.world.procs && s.reply.Failure? {
      var p := w.world.procs[s.pid];
      if p.Work? && p.pc.Make? {
        MakeIsEntitled(cfg, w.world.db, p);
      }
    }
  }

  /** Tables and books that only grew leave every other process and every request in flight as entitled. */
  lemma LaterKeepsInv(cfg: Config, w: LateWorld, s: Step, w': LateWorld)
    requires LateInv(cfg, w) && LateDbOk(cfg, w'.world.db) && Later(w.world.db, w'.world.db)
    requires forall pid :: pid in w'.world.procs ==>
               || (pid in w.world.procs && w'.world.procs[pid] == w.world.procs[pid])
               || LateProcOk(cfg, w'.world.db, w'.world.procs[pid])
    requires w'.flying <= w.flying + Sent(w.world, s)
    ensures LateInv(cfg, w')
  {
    var db, db' := w.world.db, w'.world.db;
    SentIsEntitled(cfg, w, s);
    forall pid | pid in w'.world.procs ensures LateProcOk(cfg, db', w'.world.procs[pid]) {
      if pid in w.world.procs && w'.world.procs[pid] == w.world.procs[pid] {
        LaterKeepsProc(cfg, db, db', w.world.procs[pid]);
      }
    }
    forall t | t in w'.flying ensures Entitled(cfg, db', t) {
      LaterKeepsEntitled(cfg, db, db', t);
    }
  }

  lemma LateRun(cfg: Config, w: LateWorld, pid: nat, r: Reply, w': LateWorld)
    requires LateInv(cfg, w) && LateNext(cfg, w, Now(Run(pid, r)), w')
    ensures LateDbOk(cfg, w'.world.db) && Later(w.world.db, w'.world.db)
    ensures LateProcOk(cfg, w'.world.db, w'.world.procs[pid])
  {
    var db, db', p := w.world.db, w'.world.db, w.world.procs[pid];
    LateExec(cfg, db, p, r, db');
    LaterKeepsProc(cfg, db, db', p);
    if p.Work? {
      LateAdvance(cfg, db', p, r);
    } else {
      LatePayout(cfg, db', p, r);
    }
  }

  lemma LateCreateIntent(cfg: Config, db: Db, request: Intents.Request, db': Db)
    requires LateDbOk(cfg, db) && db' == WithIntent(db, request)
    ensures LateDbOk(cfg, db') && Later(db, db')
  {
    forall id | id in db'.rows ensures LateRowOk(cfg, db', id) {
      if id in db.rows {
        assert LateRowOk(cfg, db, id);
      } else {
        PostExcludesVoid(db.books, id);
        assert PendingId(id) !in db.books.transfers;
      }
    }
  }

  lemma LateByPeople(cfg: Config, db: Db, id: string, changed: Intent, kind: EventKind, db': Db)
    requires LateDbOk(cfg, db) && id in db.rows && db.rows[id].intent.state == Draft
    requires changed.request == db.rows[id].intent.request && changed.state in {Approved, Voided}
    requires db' == db.(rows := db.rows[id := Swap(db.rows[id], changed, kind)])
    ensures LateDbOk(cfg, db') && Later(db, db')
  {
    assert LateRowOk(cfg, db, id);
    LateSwap(cfg, db, id, changed, kind, db');
  }

  lemma LateExpiry(cfg: Config, db: Db, t: TransferId, db': Db)
    requires LateDbOk(cfg, db) && Expires(db.books, t, db'.books) && db'.rows == db.rows
    ensures LateDbOk(cfg, db') && Later(db, db')
  {
    ExpiryKeepsBooks(db.books, t, db'.books);
    forall x | x in db'.rows ensures LateRowOk(cfg, db', x) {
      assert LateRowOk(cfg, db, x);
    }
  }

  lemma LateGrows(cfg: Config, w: LateWorld, s: LateStep, w': LateWorld)
    requires LateInv(cfg, w) && LateNext(cfg, w, s, w')
    ensures LateDbOk(cfg, w'.world.db) && Later(w.world.db, w'.world.db)
  {
    var db, db' := w.world.db, w'.world.db;
    match s
    case Land(t) => LateEntry(cfg, db, t, db');
    case Now(step) =>
      match step
      case CreateIntent(request) => LateCreateIntent(cfg, db, request, db');
      case ApproveIntent(id, _, checker) =>
        LateByPeople(cfg, db, id, Approve(db.rows[id].intent, checker).value, IntentApproved, db');
      case VoidDraftIntent(id, expected, actor) =>
        LateByPeople(cfg, db, id, VoidDraft(db.rows[id].intent, expected, actor).value, IntentVoided, db');
      case Expiry(t) => LateExpiry(cfg, db, t, db');
      case Run(pid, r) => LateRun(cfg, w, pid, r, w');
      case _ =>
  }

  lemma LateRunKeepsInv(cfg: Config, w: LateWorld, pid: nat, r: Reply, w': LateWorld)
    requires LateInv(cfg, w) && LateNext(cfg, w, Now(Run(pid, r)), w')
    ensures LateInv(cfg, w')
  {
    LateRun(cfg, w, pid, r, w');
    LaterKeepsInv(cfg, w, Run(pid, r), w');
  }

  lemma LateStepKeepsInv(cfg: Config, w: LateWorld, s: LateStep, w': LateWorld)
    requires LateInv(cfg, w) && LateNext(cfg, w, s, w')
    ensures LateInv(cfg, w')
  {
    if s.Now? && s.step.Run? {
      LateRunKeepsInv(cfg, w, s.step.pid, s.step.reply, w');
    } else {
      LateGrows(cfg, w, s, w');
      LaterKeepsInv(cfg, w, if s.Now? then s.step else Crash(0), w');
    }
  }

  lemma {:induction false} LateInvAlways(cfg: Config, ws: seq<LateWorld>, ss: seq<LateStep>, k: nat)
    requires LateBehaviour(cfg, ws, ss) && k < |ws|
    ensures LateInv(cfg, ws[k])
  {
    if k > 0 {
      LateInvAlways(cfg, ws, ss, k - 1);
      LateStepKeepsInv(cfg, ws[k - 1], ss[k - 1], ws[k]);
    }
  }

  lemma LateLastGrows(cfg: Config, ws: seq<LateWorld>, ss: seq<LateStep>, m: nat)
    requires LateBehaviour(cfg, ws, ss) && 0 < m < |ws|
    ensures Later(ws[m - 1].world.db, ws[m].world.db)
  {
    LateInvAlways(cfg, ws, ss, m - 1);
    LateGrows(cfg, ws[m - 1], ss[m - 1], ws[m]);
  }

  lemma LateOneMore(cfg: Config, ws: seq<LateWorld>, ss: seq<LateStep>, k: nat, m: nat)
    requires LateBehaviour(cfg, ws, ss) && k < m < |ws| && Later(ws[k].world.db, ws[m - 1].world.db)
    ensures Later(ws[k].world.db, ws[m].world.db)
  {
    LateLastGrows(cfg, ws, ss, m);
    LaterTrans(ws[k].world.db, ws[m - 1].world.db, ws[m].world.db);
  }

  lemma {:induction false} LateExtends(cfg: Config, ws: seq<LateWorld>, ss: seq<LateStep>, k: nat, m: nat)
    requires LateBehaviour(cfg, ws, ss) && k <= m < |ws|
    ensures Later(ws[k].world.db, ws[m].world.db)
  {
    if k < m {
      LateExtends(cfg, ws, ss, k, m - 1);
      LateOneMore(cfg, ws, ss, k, m);
    } else {
      LaterSame(ws[k].world.db);
    }
  }

  // ---- what still holds when requests land late ----

  /** In every such run a POSTED intent's own money has moved and no void exists, a VOIDED or AMBIGUOUS
      intent has no post, a RESERVED intent has its reservation, and one not yet requested has nothing
      in the ledger. */
  lemma LateRowMatchesLedger(cfg: Config, ws: seq<LateWorld>, ss: seq<LateStep>, k: nat, id: string)
    requires LateBehaviour(cfg, ws, ss) && k < |ws| && id in ws[k].world.db.rows
    ensures var db := ws[k].world.db;
            var intent := db.rows[id].intent;
            && intent.request.intentId == id
            && (intent.state == Posted ==> PostedAs(cfg, db.books, intent.request))
            && (intent.state in {Voided, Ambiguous} ==> PostId(id) !in db.books.transfers)
            && (intent.state == Reserved ==>
                  PendingId(id) in db.books.transfers
                  && ReservationOf(cfg, intent.request, db.books.transfers[PendingId(id)]))
            && (intent.state in {Draft, Approved} ==>
                  PendingId(id) !in db.books.transfers && PostId(id) !in db.books.transfers
                  && VoidId(id) !in db.books.transfers)
  {
    LateInvAlways(cfg, ws, ss, k);
    var db := ws[k].world.db;
    assert LateRowOk(cfg, db, id);
    PostExcludesVoid(db.books, id);
    if PostId(id) in db.books.transfers {
      assert ResolvesItsPending(db.books, PostId(id));
    }
  }

  /** POSTED and VOIDED rows never change again, and no late request can bring the opposite transfer. */
  lemma LateTerminalForever(cfg: Config, ws: seq<LateWorld>, ss: seq<LateStep>, k: nat, m: nat, id: string)
    requires LateBehaviour(cfg, ws, ss) && k <= m < |ws|
    requires id in ws[k].world.db.rows && Terminal(ws[k].world.db.rows[id].intent.state)
    ensures id in ws[m].world.db.rows && ws[m].world.db.rows[id] == ws[k].world.db.rows[id]
    ensures ws[k].world.db.rows[id].intent.state == Posted ==> VoidId(id) !in ws[m].world.db.books.transfers
    ensures ws[k].world.db.rows[id].intent.state == Voided ==> PostId(id) !in ws[m].world.db.books.transfers
  {
    LateExtends(cfg, ws, ss, k, m);
    assert RowExtends(ws[k].world.db.rows[id], ws[m].world.db.rows[id]);
    LateRowMatchesLedger(cfg, ws, ss, m, id);
  }

  /** Conservation does not depend on when requests land. */
  lemma LateMoneyConserved(cfg: Config, ws: seq<LateWorld>, ss: seq<LateStep>, k: nat)
    requires LateBehaviour(cfg, ws, ss) && k < |ws|
    ensures var db := ws[k].world.db;
            && Balanced(db.books)
            && SumBalances(db.books.debits) == SumBalances(db.books.credits)
            && SumBalances(db.books.debits)
               == SumAmounts(db.rows, MovedIds(db)) + Total(Legs(db.books.transfers), Everywhere, 0)
            && PostedIds(db) <= MovedIds(db)
            && forall id :: id in MovedIds(db) ==> PostedAs(cfg, db.books, db.rows[id].intent.request)
  {
    var db := ws[k].world.db;
    LateInvAlways(cfg, ws, ss, k);
    LateIsLedger(cfg, db);
    MoneyOf(cfg, db);
    forall id | id in PostedIds(db) ensures id in MovedIds(db) {
      LateRowMatchesLedger(cfg, ws, ss, k, id);
    }
  }

  lemma LateIsLedger(cfg: Config, db: Db)
    requires LateDbOk(cfg, db)
    ensures LedgerOk(cfg, db)
  {
    forall id | id in db.rows
      ensures db.rows[id].intent.request.intentId == id
      ensures PendingId(id) in db.books.transfers ==>
                ReservationOf(cfg, db.rows[id].intent.request, db.books.transfers[PendingId(id)])
    {
      assert LateRowOk(cfg, db, id);
    }
  }

  /** A post or void call that reports success still reports the truth. */
  lemma LateSuccessIsTrue(cfg: Config, ws: seq<LateWorld>, ss: seq<LateStep>, k: nat, pid: nat)
    requires LateBehaviour(cfg, ws, ss) && k < |ws| && pid in ws[k].world.procs
    requires ws[k].world.procs[pid].Work? && ws[k].world.procs[pid].pc.Done? && ws[k].world.procs[pid].pc.result.Ok?
    ensures var p := ws[k].world.procs[pid];
            var db := ws[k].world.db;
            && p.id in db.rows
            && (p.task.ReserveApproved? ==>
                  p.pc.result.value.state in {Reserved, Posted}
                  && PendingId(p.id) in db.books.transfers
                  && ReservationOf(cfg, db.rows[p.id].intent.request, db.books.transfers[PendingId(p.id)]))
            && (p.task.PostReserved? ==>
                  PostedAs(cfg, db.books, db.rows[p.id].intent.request) && db.rows[p.id].intent.state == Posted)
            && (p.task.VoidReserved? ==>
                  db.rows[p.id].intent.state == Voided && PostId(p.id) !in db.books.transfers)
  {
    LateInvAlways(cfg, ws, ss, k);
    var p := ws[k].world.procs[pid];
    assert LateProcOk(cfg, ws[k].world.db, p);
    var row, i := ws[k].world.db.rows[p.id], p.pc.result.value;
    assert LateRowOk(cfg, ws[k].world.db, p.id);
    assert i.version < |row.outbox| ==> LifecycleMove(row.outbox[i.version - 1].state, row.outbox[i.version].state);
    assert Terminal(i.state) ==> i.version == |row.outbox|;
    assert row.outbox[i.version - 1] in row.outbox;
    LateRowMatchesLedger(cfg, ws, ss, k, p.id);
  }
}
