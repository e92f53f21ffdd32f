/** Safety of two-phase money movement over every run of TwoPhase: what the intent table says and
    what the ledger holds never contradict each other, whatever the interleaving, the crashes and
    the lost replies. */
module TwoPhaseSafety {
  import opened Wrappers
  import opened Intents
  import opened Ledger
  import opened TwoPhase

  // ---- the invariant ----

  /** What the ledger must show for an intent to be in a state. */
  predicate Evidence(b: Books, id: string, state: State) {
    match state
    case Draft => PendingId(id) !in b.transfers
    case Approved => PendingId(id) !in b.transfers
    case ReservationRequested => true
    case Reserved => PendingId(id) in b.transfers
    case Posted => PostId(id) in b.transfers
    case Voided => VoidId(id) in b.transfers || PendingId(id) !in b.transfers
    case Ambiguous => PendingId(id) !in b.transfers
    case ReconciliationRequired => true
  }

  /** A reservation carries the intent's own accounts and amount. */
  predicate ReservationOf(cfg: Config, r: Intents.Request, t: Transfer) {
    && ParseId(cfg, r.debitAccount) == Some(t.debit)
    && ParseId(cfg, r.creditAccount) == Some(t.credit)
    && t == ReserveTransfer(r.intentId, t.debit, t.credit, r.amount, cfg.ledger, cfg.code)
    && ValidTransfer(t.debit, t.credit, t.amount)
  }

  /** One outbox row per version, each a lifecycle move, the last one the current state. */
  predicate TrailOk(row: Row) {
    && |row.outbox| == row.intent.version >= 1
    && row.outbox[0] == Event(IntentCreated, Draft)
    && row.outbox[|row.outbox| - 1].state == row.intent.state
    && forall k :: 0 < k < |row.outbox| ==> LifecycleMove(row.outbox[k - 1].state, row.outbox[k].state)
  }

  predicate RowOk(cfg: Config, db: Db, id: string)
    requires id in db.rows
  {
    var row := db.rows[id];
    && row.intent.request.intentId == id
    && TrailOk(row)
    && Evidence(db.books, id, row.intent.state)
    && (PendingId(id) in db.books.transfers ==>
          ReservationOf(cfg, row.intent.request, db.books.transfers[PendingId(id)]))
  }

  ghost predicate DbOk(cfg: Config, db: Db) {
    && BooksOk(db.books)
    && Balanced(db.books)
    && (forall id :: id in db.rows ==> RowOk(cfg, db, id))
    && (forall t: TransferId :: t in db.books.transfers && t.ns.PendingNs? ==> t.key in db.rows)
  }

  /** An intent value read earlier: it was the row at its version. */
  predicate Snapshot(db: Db, id: string, i: Intent) {
    && id in db.rows
    && i.request == db.rows[id].intent.request
    && 1 <= i.version <= |db.rows[id].outbox|
    && db.rows[id].outbox[i.version - 1].state == i.state
  }

  predicate Fresh(db: Db, p: Proc)
    requires p.Work?
  {
    p.id in db.rows && db.rows[p.id].intent.version == p.current.version
  }

  /** States a call may report on success. */
  predicate Reports(task: Task, state: State) {
    match task
    case ReserveApproved => state == Reserved || state == Posted
    case PostReserved => state == Posted
    case VoidReserved => state == Voided
    case ReconcileObserved => state in {Posted, Voided, Reserved, Ambiguous}
    case ResolveOfficer(_, _, _) => state in {ReconciliationRequired, Voided}
  }

  predicate ProcOk(cfg: Config, db: Db, p: Proc) {
    match p
    case Payout(_, _) => PayoutOk(db, p)
    case Work(task, id, pc, current, _, _, _) =>
      match pc
      case Read => true
      case Done(result) => result.Ok? ==> Snapshot(db, id, result.value) && Reports(task, result.value.state)
      case Ask => task.ReserveApproved? && Snapshot(db, id, current) && current.state == Approved
      case _ => Snapshot(db, id, current) && TaskOk(cfg, db, p)
  }

  predicate TaskOk(cfg: Config, db: Db, p: Proc)
    requires p.Work? && Snapshot(db, p.id, p.current)
  {
    match p.task
    case ReserveApproved => ReserveOk(cfg, db, p)
    case PostReserved =>
      && p.current.state == Reserved
      && PendingId(p.id) in db.books.transfers
      && CloseOk(cfg, db, p, VoidNs, PostNs, PostTransfer(p.id, cfg.ledger, cfg.code), Posted, PostId(p.id))
    case VoidReserved =>
      && p.current.state == Reserved
      && PendingId(p.id) in db.books.transfers
      && CloseOk(cfg, db, p, PostNs, VoidNs, VoidTransfer(p.id, cfg.ledger, cfg.code), Voided, VoidId(p.id))
    case ReconcileObserved => ReconcileOk(db, p)
    case ResolveOfficer(_, _, _) =>
      && p.current.state == Ambiguous
      && PendingId(p.id) !in db.books.transfers
      && Rank(db.rows[p.id].intent.state) == 3
      && (p.pc.Settle? || p.pc == Look(PostNs) || p.pc == Look(PendingNs) || (p.pc == Look(VoidNs) && !p.pendingSeen))
  }

  predicate ReserveOk(cfg: Config, db: Db, p: Proc)
    requires p.Work? && Snapshot(db, p.id, p.current)
  {
    && p.current.state == ReservationRequested
    && (p.pc.Park? || Fresh(db, p))
    && (match p.pc
        case Look(ns) => ns == PendingNs
        case Make(t) => ReservationOf(cfg, p.current.request, t)
        case Check(t) => ReservationOf(cfg, p.current.request, t)
        case Record(next) => next == Reserved && PendingId(p.id) in db.books.transfers
        case Park => true
        case _ => false)
  }

  predicate CloseOk(cfg: Config, db: Db, p: Proc, first: Namespace, second: Namespace, t: Transfer, next: State, made: TransferId)
    requires p.Work?
  {
    match p.pc
    case Look(ns) => ns == first || ns == second
    case Make(x) => x == t
    case Check(x) => x == t
    case Record(n) => n == next && made in db.books.transfers
    case Park => true
    case _ => false
  }

  predicate ReconcileOk(db: Db, p: Proc)
    requires p.Work?
  {
    && p.current.state == ReconciliationRequired
    && (match p.pc
        case Look(ns) =>
          && ns in {PendingNs, PostNs, VoidNs}
          && (ns != PendingNs ==> SawPending(db, p))
          && (ns == VoidNs ==> p.postSeen ==> PostId(p.id) in db.books.transfers)
        case Record(next) =>
          && next in {Posted, Voided, Reserved, Ambiguous}
          && (Fresh(db, p) ==> Evidence(db.books, p.id, next))
        case _ => false)
  }

  /** While the row is untouched no reservation can appear, so a missing one is still missing. */
  predicate SawPending(db: Db, p: Proc)
    requires p.Work?
  {
    if p.pendingSeen then PendingId(p.id) in db.books.transfers
    else Fresh(db, p) ==> PendingId(p.id) !in db.books.transfers
  }

  predicate Holds(db: Db, t: Transfer) {
    t.id in db.books.transfers && db.books.transfers[t.id] == t
  }

  predicate PayoutOk(db: Db, p: Proc)
    requires p.Payout?
  {
    match p.step
    case Send => true
    case CheckFee(cost) => cost.Created? ==> Holds(db, CostLeg(p.input))
    case CheckCost => Holds(db, FeeLeg(p.input))
    case Paid => Holds(db, FeeLeg(p.input)) && Holds(db, CostLeg(p.input))
    case Refused => true
  }

  /** The process that took an intent into RESERVATION_REQUESTED and may still move it on. */
  predicate Holding(db: Db, p: Proc) {
    && p.Work? && p.task.ReserveApproved?
    && !p.pc.Read? && !p.pc.Ask? && !p.pc.Done?
    && Fresh(db, p)
  }

  ghost predicate Inv(cfg: Config, w: World) {
    && DbOk(cfg, w.db)
    && (forall pid :: pid in w.procs ==> ProcOk(cfg, w.db, w.procs[pid]))
    && (forall p, q :: p in w.procs && q in w.procs && p != q && Holding(w.db, w.procs[p]) && Holding(w.db, w.procs[q])
          ==> w.procs[p].id != w.procs[q].id)
  }

  // ---- what each effect keeps ----

  /** Row id is replaced by its successor version, on evidence for the new state. */
  ghost predicate Swapped(db: Db, db': Db, id: string, next: State) {
    && id in db.rows && id in db'.rows
    && db'.books == db.books
    && db'.rows == db.rows[id := db'.rows[id]]
    && LifecycleMove(db.rows[id].intent.state, next)
    && exists kind, changed: Intent ::
         && db'.rows[id] == Swap(db.rows[id], changed, kind)
         && changed.request == db.rows[id].intent.request
         && changed.state == next
  }

  lemma SwapKeepsDb(cfg: Config, db: Db, db': Db, id: string, next: State)
    requires DbOk(cfg, db) && Swapped(db, db', id, next)
    requires Evidence(db.books, id, next)
    ensures DbOk(cfg, db')
  {
    assert RowOk(cfg, db, id);
    forall x | x in db'.rows ensures RowOk(cfg, db', x) {
      if x != id {
        assert RowOk(cfg, db, x);
      }
    }
  }

  lemma SwapKeepsSnapshot(cfg: Config, db: Db, db': Db, id: string, next: State, x: string, i: Intent)
    requires DbOk(cfg, db) && Swapped(db, db', id, next)
    requires Snapshot(db, x, i)
    ensures Snapshot(db', x, i)
    ensures x == id ==> db'.rows[id].intent.version != i.version
  {
    assert RowOk(cfg, db, id);
  }

  /** A stale process keeps its invariant; only the holder of the row's version could lose it. */
  lemma SwapKeepsProc(cfg: Config, db: Db, db': Db, id: string, next: State, q: Proc)
    requires DbOk(cfg, db) && Swapped(db, db', id, next)
    requires ProcOk(cfg, db, q)
    requires Holding(db, q) ==> q.id != id
    ensures ProcOk(cfg, db', q)
    ensures Holding(db', q) ==> Holding(db, q)
  {
    assert RowOk(cfg, db, id);
    if q.Work? {
      if q.pc.Done? && q.pc.result.Ok? {
        SwapKeepsSnapshot(cfg, db, db', id, next, q.id, q.pc.result.value);
      }
      if !q.pc.Read? && !q.pc.Done? {
        SwapKeepsSnapshot(cfg, db, db', id, next, q.id, q.current);
      }
    }
  }

  /** The books grow by one transfer; a reservation only for an intent that asked for one. */
  ghost predicate Entered(cfg: Config, db: Db, db': Db, t: Transfer) {
    && db'.rows == db.rows
    && Admissible(db.books, t) && WellFormed(t)
    && db'.books == Insert(db.books, t)
    && (t.id.ns.PendingNs? ==>
          && t.id.key in db.rows
          && db.rows[t.id.key].intent.state == ReservationRequested
          && ReservationOf(cfg, db.rows[t.id.key].intent.request, t))
  }

  lemma EntryKeepsDb(cfg: Config, db: Db, db': Db, t: Transfer)
    requires DbOk(cfg, db) && Entered(cfg, db, db', t)
    ensures DbOk(cfg, db')
  {
    InsertKeepsBooks(db.books, t);
    InsertKeepsBalance(db.books, t);
    forall x | x in db'.rows ensures RowOk(cfg, db', x) {
      assert RowOk(cfg, db, x);
    }
  }

  lemma EntryKeepsProc(cfg: Config, db: Db, db': Db, t: Transfer, q: Proc)
    requires DbOk(cfg, db) && Entered(cfg, db, db', t)
    requires ProcOk(cfg, db, q)
    ensures ProcOk(cfg, db', q)
    ensures Holding(db', q) <==> Holding(db, q)
  {
    if q.Work? && q.id in db.rows {
      assert RowOk(cfg, db, q.id);
    }
  }

  lemma ExpiryKeepsDb(cfg: Config, db: Db, t: TransferId, books: Books)
    requires DbOk(cfg, db) && Expires(db.books, t, books)
    ensures DbOk(cfg, db.(books := books))
  {
    ExpiryKeepsBooks(db.books, t, books);
    forall x | x in db.rows ensures RowOk(cfg, db.(books := books), x) {
      assert RowOk(cfg, db, x);
    }
  }

  // ---- one step of one process ----

  /** The row a holder holds is still in RESERVATION_REQUESTED. */
  lemma HolderState(cfg: Config, db: Db, q: Proc)
    requires DbOk(cfg, db) && ProcOk(cfg, db, q) && Holding(db, q)
    ensures db.rows[q.id].intent.state == ReservationRequested
  {
    assert RowOk(cfg, db, q.id);
  }

  lemma AfterReadOk(cfg: Config, db: Db, p: Proc)
    requires p.Work? && Snapshot(db, p.id, p.current) && p.current == db.rows[p.id].intent
    requires Evidence(db.books, p.id, p.current.state)
    ensures ProcOk(cfg, db, AfterRead(p))
    ensures !Holding(db, AfterRead(p))
  {
    var p' := AfterRead(p);
    match p.task
    case ReserveApproved =>
    case PostReserved => assert p'.pc.Look? ==> TaskOk(cfg, db, p');
    case VoidReserved => assert p'.pc.Look? ==> TaskOk(cfg, db, p');
    case ReconcileObserved => assert p'.pc.Look? ==> TaskOk(cfg, db, p');
    case ResolveOfficer(_, _, _) => assert !p'.pc.Done? ==> TaskOk(cfg, db, p');
  }

  /** A lookup reports what is in the books; each program draws the right conclusion from it. */
  lemma AfterLookOk(cfg: Config, db: Db, p: Proc, ns: Namespace)
    requires BooksOk(db.books)
    requires p.Work? && p.pc == Look(ns) && ProcOk(cfg, db, p)
    requires p.id in db.rows && db.rows[p.id].intent.request.intentId == p.id
    ensures var seen := TransferId(ns, p.id) in db.books.transfers;
            && ProcOk(cfg, db, AfterLook(cfg, Note(p, ns, seen), ns))
            && (Holding(db, AfterLook(cfg, Note(p, ns, seen), ns)) ==> Holding(db, p))
  {
    match p.task
    case ReserveApproved => ReserveLookOk(cfg, db, p);
    case PostReserved =>
    case VoidReserved =>
    case ReconcileObserved => ReconcileLookOk(cfg, db, p, ns);
    case ResolveOfficer(_, _, _) =>
  }

  lemma ReserveLookOk(cfg: Config, db: Db, p: Proc)
    requires p.Work? && p.pc == Look(PendingNs) && p.task.ReserveApproved? && ProcOk(cfg, db, p)
    requires p.id in db.rows && db.rows[p.id].intent.request.intentId == p.id
    ensures var seen := PendingId(p.id) in db.books.transfers;
            && ProcOk(cfg, db, AfterLook(cfg, Note(p, PendingNs, seen), PendingNs))
            && (Holding(db, AfterLook(cfg, Note(p, PendingNs, seen), PendingNs)) ==> Holding(db, p))
  {
  }

  lemma ReconcileLookOk(cfg: Config, db: Db, p: Proc, ns: Namespace)
    requires BooksOk(db.books)
    requires p.Work? && p.pc == Look(ns) && p.task.ReconcileObserved? && ProcOk(cfg, db, p)
    ensures var seen := TransferId(ns, p.id) in db.books.transfers;
            ProcOk(cfg, db, AfterLook(cfg, Note(p, ns, seen), ns))
  {
    PostExcludesVoid(db.books, p.id);
  }

  /** Parking or giving up needs no evidence. */
  lemma TroubleOk(cfg: Config, db: Db, p: Proc, e: Error)
    requires p.Work? && ProcOk(cfg, db, p) && !p.pc.Read? && !p.pc.Ask? && !p.pc.Done?
    ensures ProcOk(cfg, db, Trouble(p, e))
    ensures Holding(db, Trouble(p, e)) ==> Holding(db, p)
  {
    var p' := Trouble(p, e);
    match p.task
    case ReserveApproved => assert TaskOk(cfg, db, p');
    case PostReserved => assert TaskOk(cfg, db, p');
    case VoidReserved => assert TaskOk(cfg, db, p');
    case ReconcileObserved =>
    case ResolveOfficer(_, _, _) =>
  }

  /** Once the transfer is known to be in the books the program may record the state it proves. */
  lemma AfterMakeOk(cfg: Config, db: Db, p: Proc, t: Transfer)
    requires p.Work? && ProcOk(cfg, db, p) && (p.pc == Make(t) || p.pc == Check(t))
    requires p.id in db.rows && db.rows[p.id].intent.request.intentId == p.id
    requires t.id in db.books.transfers
    ensures ProcOk(cfg, db, AfterMake(p))
    ensures Holding(db, AfterMake(p)) ==> Holding(db, p)
  {
  }

  /** Every answer that leaves tables and books alone. */
  lemma IdleWork(cfg: Config, db: Db, p: Proc, r: Reply)
    requires DbOk(cfg, db) && p.Work? && ProcOk(cfg, db, p)
    requires Exec(db, CallAt(p), r, db)
    ensures ProcOk(cfg, db, Advance(cfg, p, r))
    ensures Holding(db, Advance(cfg, p, r)) ==> Holding(db, p)
  {
    assert p.id in db.rows ==> RowOk(cfg, db, p.id);
    match p.pc
    case Read =>
      if r.RowIs? {
        AfterReadOk(cfg, db, p.(current := r.intent));
      }
    case Look(ns) => IdleLook(cfg, db, p, r, ns);
    case Make(t) => IdleMake(cfg, db, p, r, t);
    case Check(t) => IdleCheck(cfg, db, p, r, t);
    case Done(_) =>
    case _ => IdleWrite(cfg, db, p, r);
  }

  lemma IdleLook(cfg: Config, db: Db, p: Proc, r: Reply, ns: Namespace)
    requires BooksOk(db.books) && p.Work? && p.pc == Look(ns) && ProcOk(cfg, db, p)
    requires p.id in db.rows && db.rows[p.id].intent.request.intentId == p.id
    requires Exec(db, Lookup(TransferId(ns, p.id)), r, db)
    ensures ProcOk(cfg, db, Advance(cfg, p, r))
    ensures Holding(db, Advance(cfg, p, r)) ==> Holding(db, p)
  {
    if r.Failure? {
      TroubleOk(cfg, db, p, r.error);
    } else {
      AfterLookOk(cfg, db, p, ns);
    }
  }

  lemma IdleCheck(cfg: Config, db: Db, p: Proc, r: Reply, t: Transfer)
    requires p.Work? && p.pc == Check(t) && ProcOk(cfg, db, p)
    requires p.id in db.rows && db.rows[p.id].intent.request.intentId == p.id
    requires Exec(db, Lookup(t.id), r, db)
    ensures ProcOk(cfg, db, Advance(cfg, p, r))
    ensures Holding(db, Advance(cfg, p, r)) ==> Holding(db, p)
  {
    if r.Found? && SameContent(r.transfer, t) {
      AfterMakeOk(cfg, db, p, t);
    } else {
      TroubleOk(cfg, db, p, ErrorOf(r));
    }
  }

  lemma IdleMake(cfg: Config, db: Db, p: Proc, r: Reply, t: Transfer)
    requires p.Work? && p.pc == Make(t) && ProcOk(cfg, db, p)
    requires Exec(db, CallAt(p), r, db)
    ensures ProcOk(cfg, db, Advance(cfg, p, r))
    ensures Holding(db, Advance(cfg, p, r)) ==> Holding(db, p)
  {
    assert Admissible(db.books, t) ==> t.id in Insert(db.books, t).transfers;
    assert r != Answer(Status.Created);
    if r != Answer(Status.Exists) {
      TroubleOk(cfg, db, p, ErrorOf(r));
    }
  }

  /** A table write that changed nothing reported a failure. */
  lemma IdleWrite(cfg: Config, db: Db, p: Proc, r: Reply)
    requires p.Work? && (p.pc.Ask? || p.pc.Record? || p.pc.Park? || p.pc.Settle?) && ProcOk(cfg, db, p)
    requires Exec(db, CallAt(p), r, db)
    ensures ProcOk(cfg, db, Advance(cfg, p, r))
    ensures Holding(db, Advance(cfg, p, r)) ==> Holding(db, p)
  {
    assert r.Failure?;
    if p.pc.Record? {
      TroubleOk(cfg, db, p, r.error);
    }
  }

  lemma IdlePayout(cfg: Config, db: Db, p: Proc, r: Reply)
    requires BooksOk(db.books) && p.Payout? && ProcOk(cfg, db, p)
    requires Exec(db, CallAt(p), r, db)
    ensures ProcOk(cfg, db, Advance(cfg, p, r))
  {
    var fee, cost := FeeLeg(p.input), CostLeg(p.input);
    assert fee.id in db.books.transfers ==> WellFormed(db.books.transfers[fee.id]);
    assert cost.id in db.books.transfers ==> WellFormed(db.books.transfers[cost.id]);
    if p.step.Send? && r.Answers? {
      var mid := AfterStatus(db.books, fee, r.first);
      assert mid.transfers.Keys <= db.books.transfers.Keys;
      assert r.first.Created? ==> fee.id in mid.transfers;
      assert Admissible(mid, cost) ==> cost.id in Insert(mid, cost).transfers;
    }
  }

  /** The compare-and-swap passes only for a process whose reading is current, so its evidence is
      evidence for the row. */
  lemma MoveBase(cfg: Config, db: Db, p: Proc, next: State, db': Db)
    requires DbOk(cfg, db) && p.Work? && ProcOk(cfg, db, p)
    requires CallAt(p) == Move(p.id, p.current.version, next)
    requires CanMove(db, p.id, p.current.version, next) && db' == Moved(db, p.id, next)
    ensures db.rows[p.id].intent.state == p.current.state
    ensures Swapped(db, db', p.id, next) && Evidence(db.books, p.id, next)
    ensures DbOk(cfg, db')
    ensures Snapshot(db', p.id, p.current) && db'.rows[p.id].intent.version != p.current.version
    ensures Snapshot(db', p.id, db'.rows[p.id].intent) && db'.rows[p.id].intent.state == next
  {
    var row := db.rows[p.id];
    assert RowOk(cfg, db, p.id);
    assert Snapshot(db, p.id, p.current);
    assert db'.rows[p.id] == Swap(row, row.intent.(state := next), StateChanged);
    MoveEvidence(cfg, db, p, next);
    SwapKeepsDb(cfg, db, db', p.id, next);
    SwapKeepsSnapshot(cfg, db, db', p.id, next, p.id, p.current);
  }

  lemma MoveEvidence(cfg: Config, db: Db, p: Proc, next: State)
    requires p.Work? && ProcOk(cfg, db, p) && p.id in db.rows && RowOk(cfg, db, p.id)
    requires CallAt(p) == Move(p.id, p.current.version, next)
    requires CanMove(db, p.id, p.current.version, next)
    ensures Evidence(db.books, p.id, next)
  {
    match p.pc
    case Record(_) => assert TaskOk(cfg, db, p);
    case _ =>
  }

  lemma MoveStep(cfg: Config, db: Db, p: Proc, next: State, r: Reply, db': Db)
    requires DbOk(cfg, db) && p.Work? && ProcOk(cfg, db, p)
    requires CallAt(p) == Move(p.id, p.current.version, next)
    requires CanMove(db, p.id, p.current.version, next) && db' == Moved(db, p.id, next)
    requires r.Failure? || r == RowIs(db'.rows[p.id].intent)
    ensures Swapped(db, db', p.id, next) && db.rows[p.id].intent.state == p.current.state
    ensures DbOk(cfg, db')
    ensures ProcOk(cfg, db', Advance(cfg, p, r))
    ensures Holding(db', Advance(cfg, p, r)) ==> p.pc.Ask? && p.id == Advance(cfg, p, r).id
  {
    MoveBase(cfg, db, p, next, db');
    match p.pc
    case Ask => AskStep(cfg, db, p, r, db');
    case Record(_) =>
      MoveFailure(cfg, db, p, next, r, db');
      assert Reports(p.task, next);
    case _ =>
  }

  lemma AskStep(cfg: Config, db: Db, p: Proc, r: Reply, db': Db)
    requires p.Work? && ProcOk(cfg, db, p) && p.pc.Ask? && p.id in db'.rows
    requires Snapshot(db', p.id, db'.rows[p.id].intent) && db'.rows[p.id].intent.state == ReservationRequested
    requires r.Failure? || r == RowIs(db'.rows[p.id].intent)
    ensures ProcOk(cfg, db', Advance(cfg, p, r))
    ensures p.id == Advance(cfg, p, r).id
  {
    if r.RowIs? {
      var p' := AfterRequest(cfg, p.(current := r.intent));
      assert TaskOk(cfg, db', p');
    }
  }

  lemma MoveFailure(cfg: Config, db: Db, p: Proc, next: State, r: Reply, db': Db)
    requires DbOk(cfg, db) && p.Work? && ProcOk(cfg, db, p) && p.pc == Record(next)
    requires Swapped(db, db', p.id, next)
    requires Snapshot(db', p.id, p.current) && db'.rows[p.id].intent.version != p.current.version
    ensures r.Failure? ==> ProcOk(cfg, db', Advance(cfg, p, r)) && !Holding(db', Advance(cfg, p, r))
  {
    var p' := Trouble(p, ErrorOf(r));
    if r.Failure? {
      match p.task
      case ReserveApproved => assert TaskOk(cfg, db', p');
      case PostReserved => assert TaskOk(cfg, db', p');
      case VoidReserved => assert TaskOk(cfg, db', p');
      case ReconcileObserved =>
      case ResolveOfficer(_, _, _) =>
    }
  }

  lemma ResolveStep(cfg: Config, db: Db, p: Proc, changed: Intent, r: Reply, db': Db)
    requires DbOk(cfg, db) && p.Work? && ProcOk(cfg, db, p) && p.pc.Settle? && p.task.ResolveOfficer?
    requires p.id in db.rows
    requires ResolveAmbiguous(db.rows[p.id].intent, p.task.expected, p.task.officer, p.task.resolution) == Ok(changed)
    requires db' == db.(rows := db.rows[p.id := Swap(db.rows[p.id], changed, OfficerResolved)])
    requires r.Failure? || r == RowIs(db'.rows[p.id].intent)
    ensures Swapped(db, db', p.id, changed.state) && Evidence(db.books, p.id, changed.state)
    ensures db.rows[p.id].intent.state == Ambiguous
    ensures DbOk(cfg, db')
    ensures ProcOk(cfg, db', Advance(cfg, p, r))
    ensures !Holding(db', Advance(cfg, p, r))
  {
    assert RowOk(cfg, db, p.id);
    assert Snapshot(db, p.id, p.current);
    SwapKeepsDb(cfg, db, db', p.id, changed.state);
    assert Snapshot(db', p.id, db'.rows[p.id].intent);
  }

  /** A create that took effect entered a transfer the program was entitled to. */
  lemma MakeStep(cfg: Config, db: Db, p: Proc, t: Transfer, r: Reply, db': Db)
    requires DbOk(cfg, db) && p.Work? && ProcOk(cfg, db, p) && p.pc == Make(t)
    requires Admissible(db.books, t) && db'.rows == db.rows && db'.books == Insert(db.books, t)
    requires r.Failure? || r == Answer(Status.Created)
    ensures Entered(cfg, db, db', t)
    ensures DbOk(cfg, db')
    ensures ProcOk(cfg, db', Advance(cfg, p, r))
    ensures Holding(db', Advance(cfg, p, r)) ==> Holding(db, p)
  {
    assert RowOk(cfg, db, p.id);
    EntryKeepsDb(cfg, db, db', t);
    EntryKeepsProc(cfg, db, db', t, p);
    assert RowOk(cfg, db', p.id);
    if r.Failure? {
      TroubleOk(cfg, db', p, r.error);
    } else {
      AfterMakeOk(cfg, db', p, t);
    }
  }

  // ---- the whole system ----

  /** The other processes keep their invariants when a row moves under its own version. */
  lemma OthersAfterSwap(cfg: Config, w: World, w': World, pid: nat, id: string, next: State)
    requires Inv(cfg, w) && Swapped(w.db, w'.db, id, next) && DbOk(cfg, w'.db)
    requires forall q :: q in w'.procs && q != pid ==> q in w.procs && w'.procs[q] == w.procs[q]
    requires forall q :: q in w.procs && q != pid && Holding(w.db, w.procs[q]) ==> w.procs[q].id != id
    requires pid in w'.procs ==> ProcOk(cfg, w'.db, w'.procs[pid])
    requires pid in w'.procs && Holding(w'.db, w'.procs[pid]) ==> w'.procs[pid].id == id
    ensures Inv(cfg, w')
  {
    forall q | q in w'.procs && q != pid
      ensures ProcOk(cfg, w'.db, w'.procs[q])
      ensures Holding(w'.db, w'.procs[q]) ==> Holding(w.db, w.procs[q])
    {
      SwapKeepsProc(cfg, w.db, w'.db, id, next, w.procs[q]);
    }
  }

  /** Setting one process to a state that holds nothing new. */
  lemma SetProcKeepsInv(cfg: Config, w: World, pid: nat, p: Proc, w': World)
    requires Inv(cfg, w) && ProcOk(cfg, w.db, p)
    requires Holding(w.db, p) ==> pid in w.procs && Holding(w.db, w.procs[pid]) && w.procs[pid].id == p.id
    requires w' == World(w.db, w.procs[pid := p])
    ensures Inv(cfg, w')
  {
  }

  lemma EntryKeepsInv(cfg: Config, w: World, t: Transfer, w': World)
    requires Inv(cfg, w) && w'.procs == w.procs
    requires w'.db == w.db || Entered(cfg, w.db, w'.db, t)
    ensures Inv(cfg, w')
  {
    if w'.db != w.db {
      EntryKeepsDb(cfg, w.db, w'.db, t);
      forall q | q in w.procs
        ensures ProcOk(cfg, w'.db, w.procs[q])
        ensures Holding(w'.db, w.procs[q]) <==> Holding(w.db, w.procs[q])
      {
        EntryKeepsProc(cfg, w.db, w'.db, t, w.procs[q]);
      }
    } else {
      assert w' == w;
    }
  }

  /** Nobody else can hold an intent that a current reading is about to move. */
  lemma NoOtherHolder(cfg: Config, w: World, pid: nat)
    requires Inv(cfg, w) && pid in w.procs && w.procs[pid].Work?
    requires w.procs[pid].id in w.db.rows
    requires w.db.rows[w.procs[pid].id].intent.state == ReservationRequested ==> Holding(w.db, w.procs[pid])
    ensures forall q :: q in w.procs && q != pid && Holding(w.db, w.procs[q]) ==> w.procs[q].id != w.procs[pid].id
  {
    forall q | q in w.procs && q != pid && Holding(w.db, w.procs[q])
      ensures w.procs[q].id != w.procs[pid].id
    {
      HolderState(cfg, w.db, w.procs[q]);
    }
  }

  lemma MoveStepKeepsInv(cfg: Config, w: World, pid: nat, next: State, r: Reply, w': World)
    requires Inv(cfg, w) && pid in w.procs && w.procs[pid].Work?
    requires CallAt(w.procs[pid]) == Move(w.procs[pid].id, w.procs[pid].current.version, next)
    requires Exec(w.db, CallAt(w.procs[pid]), r, w'.db) && w'.db != w.db
    requires w'.procs == w.procs[pid := Advance(cfg, w.procs[pid], r)]
    ensures Inv(cfg, w') && Swapped(w.db, w'.db, w.procs[pid].id, next)
    ensures w.db.rows[w.procs[pid].id].intent.state == ReservationRequested ==> Holding(w.db, w.procs[pid])
  {
    var p := w.procs[pid];
    MoveStep(cfg, w.db, p, next, r, w'.db);
    NoOtherHolder(cfg, w, pid);
    OthersAfterSwap(cfg, w, w', pid, p.id, next);
  }

  lemma ResolveStepKeepsInv(cfg: Config, w: World, pid: nat, r: Reply, w': World)
    requires Inv(cfg, w) && pid in w.procs && w.procs[pid].Work?
    requires CallAt(w.procs[pid]).Resolve?
    requires Exec(w.db, CallAt(w.procs[pid]), r, w'.db) && w'.db != w.db
    requires w'.procs == w.procs[pid := Advance(cfg, w.procs[pid], r)]
    ensures Inv(cfg, w') && exists next :: Swapped(w.db, w'.db, w.procs[pid].id, next)
    ensures w.db.rows[w.procs[pid].id].intent.state == Ambiguous
  {
    var p := w.procs[pid];
    var changed := ResolveAmbiguous(w.db.rows[p.id].intent, p.task.expected, p.task.officer, p.task.resolution).value;
    ResolveStep(cfg, w.db, p, changed, r, w'.db);
    NoOtherHolder(cfg, w, pid);
    OthersAfterSwap(cfg, w, w', pid, p.id, changed.state);
  }

  lemma CreateTookEffect(db: Db, t: Transfer, r: Reply, db': Db)
    requires Exec(db, CreateOne(t), r, db') && db' != db
    ensures Admissible(db.books, t) && db'.rows == db.rows && db'.books == Insert(db.books, t)
    ensures r.Failure? || r == Answer(Status.Created)
  {
    assert db' == Db(db.rows, db'.books);
  }

  lemma MakeStepKeepsInv(cfg: Config, w: World, pid: nat, r: Reply, w': World)
    requires Inv(cfg, w) && pid in w.procs && w.procs[pid].Work? && w.procs[pid].pc.Make?
    requires Exec(w.db, CreateOne(w.procs[pid].pc.transfer), r, w'.db) && w'.db != w.db
    requires w'.procs == w.procs[pid := Advance(cfg, w.procs[pid], r)]
    ensures Inv(cfg, w')
    ensures Entered(cfg, w.db, w'.db, w.procs[pid].pc.transfer)
  {
    var p := w.procs[pid];
    var t := p.pc.transfer;
    CreateTookEffect(w.db, t, r, w'.db);
    MakeStep(cfg, w.db, p, t, r, w'.db);
    EntryKeepsInv(cfg, w, t, World(w'.db, w.procs));
    EntryKeepsProc(cfg, w.db, w'.db, t, p);
    SetProcKeepsInv(cfg, World(w'.db, w.procs), pid, Advance(cfg, p, r), w');
  }

  function Midway(db: Db, t1: Transfer, db': Db): Db {
    Db(db'.rows, if Admissible(db.books, t1) && t1.id in db'.books.transfers then Insert(db.books, t1) else db.books)
  }

  /** The legs of a payout enter one after the other, each at most once. */
  lemma PairEntered(cfg: Config, db: Db, t1: Transfer, t2: Transfer, r: Reply, db': Db)
    requires DbOk(cfg, db) && Exec(db, CreatePair(t1, t2), r, db')
    requires t1.kind.Single? && t1.id.ns.FeeNs? && t2.kind.Single? && t2.id.ns.CostNs?
    ensures Midway(db, t1, db') == db || Entered(cfg, db, Midway(db, t1, db'), t1)
    ensures db' == Midway(db, t1, db') || Entered(cfg, Midway(db, t1, db'), db', t2)
    ensures r.Answers? && r.first.Created? ==> Holds(db', t1)
    ensures r.Answers? && r.second.Created? ==> Holds(db', t2)
  {
    var mid := Midway(db, t1, db');
    assert Admissible(db.books, t1) ==> t1.id in Insert(db.books, t1).transfers;
    assert db' == Db(db.rows, db'.books);
    if r.Answers? {
      assert AfterStatus(db.books, t1, r.first) == mid.books;
    }
    assert CreatesUnseen(mid.books, t2, db'.books);
  }

  lemma PayoutReply(cfg: Config, db: Db, p: Proc, r: Reply, db': Db)
    requires p.Payout? && p.step.Send? && BooksOk(db'.books)
    requires r.Answers? && r.first.Created? ==> Holds(db', FeeLeg(p.input))
    requires r.Answers? && r.second.Created? ==> Holds(db', CostLeg(p.input))
    ensures ProcOk(cfg, db', Advance(cfg, p, r))
    ensures Advance(cfg, p, r).Payout?
  {
  }

  lemma PayoutSendKeepsInv(cfg: Config, w: World, pid: nat, r: Reply, w': World)
    requires Inv(cfg, w) && pid in w.procs && w.procs[pid].Payout? && w.procs[pid].step.Send?
    requires Exec(w.db, CreatePair(FeeLeg(w.procs[pid].input), CostLeg(w.procs[pid].input)), r, w'.db)
    requires w'.procs == w.procs[pid := Advance(cfg, w.procs[pid], r)]
    ensures Inv(cfg, w')
  {
    var p := w.procs[pid];
    var t1, t2 := FeeLeg(p.input), CostLeg(p.input);
    PairEntered(cfg, w.db, t1, t2, r, w'.db);
    var mid := World(Midway(w.db, t1, w'.db), w.procs);
    var end := World(w'.db, w.procs);
    EntryKeepsInv(cfg, w, t1, mid);
    EntryKeepsInv(cfg, mid, t2, end);
    PayoutReply(cfg, w.db, p, r, w'.db);
    SetProcKeepsInv(cfg, end, pid, Advance(cfg, p, r), w');
  }

  lemma RunKeepsInv(cfg: Config, w: World, pid: nat, r: Reply, w': World)
    requires Inv(cfg, w) && Next(cfg, w, Run(pid, r), w')
    ensures Inv(cfg, w')
  {
    var p := w.procs[pid];
    if p.Payout? && p.step.Send? {
      PayoutSendKeepsInv(cfg, w, pid, r, w');
    } else if w'.db == w.db {
      IdleKeepsInv(cfg, w, pid, r, w');
    } else if CallAt(p).CreateOne? {
      MakeStepKeepsInv(cfg, w, pid, r, w');
    } else if CallAt(p).Resolve? {
      ResolveStepKeepsInv(cfg, w, pid, r, w');
    } else {
      MoveStepKeepsInv(cfg, w, pid, CallAt(p).next, r, w');
    }
  }

  lemma IdleKeepsInv(cfg: Config, w: World, pid: nat, r: Reply, w': World)
    requires Inv(cfg, w) && pid in w.procs && Exec(w.db, CallAt(w.procs[pid]), r, w.db)
    requires w'.db == w.db && w'.procs == w.procs[pid := Advance(cfg, w.procs[pid], r)]
    ensures Inv(cfg, w')
  {
    var p := w.procs[pid];
    if p.Payout? {
      IdlePayout(cfg, w.db, p, r);
    } else {
      IdleWork(cfg, w.db, p, r);
    }
    SetProcKeepsInv(cfg, w, pid, Advance(cfg, p, r), w');
  }

  lemma CreateKeepsDb(cfg: Config, db: Db, request: Intents.Request)
    requires DbOk(cfg, db)
    ensures DbOk(cfg, WithIntent(db, request))
  {
    var db' := WithIntent(db, request);
    forall id | id in db'.rows ensures RowOk(cfg, db', id) {
      if id in db.rows {
        assert RowOk(cfg, db, id);
      }
    }
  }

  lemma CreateKeepsProc(cfg: Config, db: Db, db': Db, q: Proc)
    requires ProcOk(cfg, db, q)
    requires db'.books == db.books && forall id :: id in db.rows ==> id in db'.rows && db'.rows[id] == db.rows[id]
    ensures ProcOk(cfg, db', q)
    ensures Holding(db', q) ==> Holding(db, q)
  {
  }

  lemma CreateKeepsInv(cfg: Config, w: World, request: Intents.Request, w': World)
    requires Inv(cfg, w) && w' == w.(db := WithIntent(w.db, request))
    ensures Inv(cfg, w')
  {
    CreateKeepsDb(cfg, w.db, request);
    forall q | q in w.procs
      ensures ProcOk(cfg, w'.db, w.procs[q])
      ensures Holding(w'.db, w.procs[q]) ==> Holding(w.db, w.procs[q])
    {
      CreateKeepsProc(cfg, w.db, w'.db, w.procs[q]);
    }
  }

  lemma StepKeepsInv(cfg: Config, w: World, s: Step, w': World)
    requires Inv(cfg, w) && Next(cfg, w, s, w')
    ensures Inv(cfg, w')
  {
    match s
    case CreateIntent(request) => CreateKeepsInv(cfg, w, request, w');
    case ApproveIntent(id, _, checker) => SwapByPeople(cfg, w, id, Approve(w.db.rows[id].intent, checker).value, IntentApproved, w');
    case VoidDraftIntent(id, expected, actor) =>
      SwapByPeople(cfg, w, id, VoidDraft(w.db.rows[id].intent, expected, actor).value, IntentVoided, w');
    case Start(pid, proc) => SetProcKeepsInv(cfg, w, pid, proc, w');
    case Crash(_) =>
    case Expiry(t) => ExpiryKeepsInv(cfg, w, t, w');
    case Run(pid, reply) => RunKeepsInv(cfg, w, pid, reply, w');
  }

  lemma ExpiryKeepsInv(cfg: Config, w: World, t: TransferId, w': World)
    requires Inv(cfg, w) && Next(cfg, w, Expiry(t), w')
    ensures Inv(cfg, w')
  {
    ExpiryKeepsDb(cfg, w.db, t, w'.db.books);
    forall q | q in w.procs ensures ProcOk(cfg, w'.db, w.procs[q]) {
      ExpiryKeepsProc(cfg, w.db, w'.db.books, w.procs[q]);
    }
  }

  lemma ExpiryKeepsProc(cfg: Config, db: Db, books: Books, q: Proc)
    requires ProcOk(cfg, db, q) && books.transfers == db.books.transfers
    ensures ProcOk(cfg, db.(books := books), q)
  {
  }

  /** Approval and the maker's void happen before any reservation. */
  lemma SwapByPeople(cfg: Config, w: World, id: string, changed: Intent, kind: EventKind, w': World)
    requires Inv(cfg, w) && id in w.db.rows && w.db.rows[id].intent.state == Draft
    requires changed.request == w.db.rows[id].intent.request && changed.state in {Approved, Voided}
    requires w' == w.(db := w.db.(rows := w.db.rows[id := Swap(w.db.rows[id], changed, kind)]))
    ensures Inv(cfg, w') && Swapped(w.db, w'.db, id, changed.state)
  {
    assert RowOk(cfg, w.db, id);
    SwapKeepsDb(cfg, w.db, w'.db, id, changed.state);
    forall q | q in w.procs && Holding(w.db, w.procs[q]) ensures w.procs[q].id != id {
      HolderState(cfg, w.db, w.procs[q]);
    }
    forall q | q in w.procs
      ensures ProcOk(cfg, w'.db, w.procs[q])
      ensures Holding(w'.db, w.procs[q]) ==> Holding(w.db, w.procs[q])
    {
      SwapKeepsProc(cfg, w.db, w'.db, id, changed.state, w.procs[q]);
    }
  }

  /** The invariant holds at every point of every run. */
  lemma {:induction false} InvAlways(cfg: Config, ws: seq<World>, ss: seq<Step>, k: nat)
    requires Behaviour(cfg, ws, ss) && k < |ws|
    ensures Inv(cfg, ws[k])
  {
    if k > 0 {
      InvAlways(cfg, ws, ss, k - 1);
      StepKeepsInv(cfg, ws[k - 1], ss[k - 1], ws[k]);
    }
  }
}
