/** Two-phase money movement across the intent table and the ledger: every call of the orchestrator
    (internal/orchestration/orchestrator.go), of the officer resolver (resolver.go) and of the
    disbursement rail (internal/ledger/fx.go) as a small program that makes one store or ledger
    call at a time.

    No transaction spans the two systems, so a step is one call: any number of processes run
    interleaved, any of them may stop for good between two steps, and any call may report a
    failure although its effect happened. Next is the whole system; CallAt and Advance are the
    programs. */
module TwoPhase {
  import opened Wrappers
  import opened Intents
  import opened Ledger

  /** The service's ledger and code, and the hexadecimal reading of an account identifier. */
  datatype Config = Config(ledger: nat, code: nat, hex: string -> Option<nat>)

  /** Zero is not an account. */
  function ParseId(cfg: Config, text: string): Option<nat> {
    match cfg.hex(text)
    case None => None
    case Some(id) => if id == 0 then None else Some(id)
  }

  // ---- the durable state ----

  datatype EventKind = IntentCreated | IntentApproved | StateChanged | IntentVoided | OfficerResolved

  /** One outbox row; every row is written by the transaction that changes the intent. */
  datatype Event = Event(kind: EventKind, state: State)

  datatype Row = Row(intent: Intent, outbox: seq<Event>)

  datatype Db = Db(rows: map<string, Row>, books: Books)

  function PendingId(id: string): TransferId { TransferId(PendingNs, id) }
  function PostId(id: string): TransferId { TransferId(PostNs, id) }
  function VoidId(id: string): TransferId { TransferId(VoidNs, id) }

  /** The compare-and-swap on version together with its outbox row. */
  function Swap(row: Row, changed: Intent, kind: EventKind): Row {
    Row(changed.(version := row.intent.version + 1), row.outbox + [Event(kind, changed.state)])
  }

  predicate CanMove(db: Db, id: string, expected: int, next: State) {
    && id in db.rows
    && db.rows[id].intent.version == expected
    && ValidOperationalTransition(db.rows[id].intent.state, next)
  }

  function Moved(db: Db, id: string, next: State): Db
    requires id in db.rows
  {
    var row := db.rows[id];
    db.(rows := db.rows[id := Swap(row, row.intent.(state := next), StateChanged)])
  }

  // ---- calls and their answers ----

  datatype Call =
    | Get(id: string)
    | Move(id: string, expected: int, next: State)
    | Resolve(id: string, expected: int, officer: string, resolution: Resolution)
    | Lookup(transferId: TransferId)
    | CreateOne(transfer: Transfer)
    | CreatePair(first: Transfer, second: Transfer)
    | NoCall

  datatype Reply =
    | RowIs(intent: Intent)
    | Found(transfer: Transfer)
    | Missing
    | Answer(status: Status)
    | Answers(first: Status, second: Status)
    | Failure(error: Error)

  predicate CreatesPairUnseen(b: Books, t1: Transfer, t2: Transfer, b': Books) {
    || CreatesUnseen(b, t2, b')
    || (Admissible(b, t1) && CreatesUnseen(Insert(b, t1), t2, b'))
  }

  function AfterStatus(b: Books, t: Transfer, s: Status): Books {
    if s.Created? && Admissible(b, t) then Insert(b, t) else b
  }

  /** What one call may do and answer. Failure is always possible, before or after the effect. */
  predicate Exec(db: Db, c: Call, r: Reply, db': Db) {
    match c
    case Get(id) =>
      db' == db && (r.Failure? || (id in db.rows && r == RowIs(db.rows[id].intent)))
    case Move(id, expected, next) =>
      || (r.Failure? && db' == db)
      || (&& CanMove(db, id, expected, next)
          && db' == Moved(db, id, next)
          && (r.Failure? || r == RowIs(db'.rows[id].intent)))
    case Resolve(id, expected, officer, resolution) =>
      || (r.Failure? && db' == db)
      || (&& id in db.rows
          && ResolveAmbiguous(db.rows[id].intent, expected, officer, resolution).Ok?
          && var changed := ResolveAmbiguous(db.rows[id].intent, expected, officer, resolution).value;
          && db' == db.(rows := db.rows[id := Swap(db.rows[id], changed, OfficerResolved)])
          && (r.Failure? || r == RowIs(db'.rows[id].intent)))
    case Lookup(t) =>
      && db' == db
      && (r.Failure? || (if t in db.books.transfers then r == Found(db.books.transfers[t]) else r == Missing))
    case CreateOne(t) =>
      && db'.rows == db.rows
      && (|| (r.Failure? && CreatesUnseen(db.books, t, db'.books))
          || (r.Answer? && Creates(db.books, t, r.status, db'.books)))
    case CreatePair(t1, t2) =>
      && db'.rows == db.rows
      && (|| (r.Failure? && CreatesPairUnseen(db.books, t1, t2, db'.books))
          || (&& r.Answers?
              && Creates(db.books, t1, r.first, AfterStatus(db.books, t1, r.first))
              && Creates(AfterStatus(db.books, t1, r.first), t2, r.second, db'.books)))
    case NoCall => db' == db
  }

  // ---- the programs ----

  datatype Task =
    | ReserveApproved
    | PostReserved
    | VoidReserved
    | ReconcileObserved
    | ResolveOfficer(expected: int, officer: string, resolution: Resolution)

  /** Where a call stands. Make and Check carry the transfer being created. */
  datatype Pc =
    | Read | Ask | Look(ns: Namespace) | Make(transfer: Transfer) | Check(transfer: Transfer)
    | Record(next: State) | Park | Settle | Done(result: Result<Intent, Error>)

  datatype PayoutInput = PayoutInput(
    applicationId: string, feeMinor: nat, costMinor: nat, costNgnEquivalent: nat, rateConfirmed: bool,
    ngnDebit: nat, ngnCredit: nat, usdDebit: nat, usdCredit: nat,
    ngnLedger: nat, usdLedger: nat, feeCode: nat, costCode: nat)

  datatype PayoutPc = Send | CheckFee(cost: Status) | CheckCost | Paid | Refused

  datatype Proc =
    | Work(task: Task, id: string, pc: Pc, current: Intent, pendingSeen: bool, postSeen: bool, voidSeen: bool)
    | Payout(input: PayoutInput, step: PayoutPc)

  const BLANK := Intent(Intents.Request("", "", "", "", 0, 0, 0, "", ""), Draft, None, 0)

  /** A call as it enters the program; an unknown disposition is refused before any read. */
  function Begin(task: Task, id: string): (p: Proc)
    ensures p.Work? && p.id == id && p.task == task
  {
    var pc := if task.ResolveOfficer? && task.resolution.Other? then Done(Err(InvalidResolution)) else Read;
    Work(task, id, pc, BLANK, false, false, false)
  }

  function FeeLeg(input: PayoutInput): Transfer {
    Transfer(TransferId(FeeNs, input.applicationId), input.ngnDebit, input.ngnCredit, input.feeMinor,
             None, input.ngnLedger, input.feeCode, Single)
  }

  function CostLeg(input: PayoutInput): Transfer {
    Transfer(TransferId(CostNs, input.applicationId), input.usdDebit, input.usdCredit, input.costMinor,
             None, input.usdLedger, input.costCode, Single)
  }

  predicate PayoutValid(input: PayoutInput) {
    && input.applicationId != ""
    && input.ngnLedger != 0 && input.usdLedger != 0 && input.feeCode != 0 && input.costCode != 0
    && input.rateConfirmed && input.feeMinor != 0 && input.costNgnEquivalent != 0
    && ValidTransfer(input.ngnDebit, input.ngnCredit, input.feeMinor)
    && ValidTransfer(input.usdDebit, input.usdCredit, input.costMinor)
  }

  function BeginPayout(input: PayoutInput): Proc {
    Payout(input, if PayoutValid(input) then Send else Refused)
  }

  function CallAt(p: Proc): Call {
    match p
    case Work(task, id, pc, current, _, _, _) => (
      match pc
      case Read => Get(id)
      case Ask => Move(id, current.version, ReservationRequested)
      case Look(ns) => Lookup(TransferId(ns, id))
      case Make(t) => CreateOne(t)
      case Check(t) => Lookup(t.id)
      case Record(next) => Move(id, current.version, next)
      case Park => Move(id, current.version, ReconciliationRequired)
      case Settle => if task.ResolveOfficer? then Resolve(id, task.expected, task.officer, task.resolution) else NoCall
      case Done(_) => NoCall
    )
    case Payout(input, step) =>
      match step
      case Send => CreatePair(FeeLeg(input), CostLeg(input))
      case CheckFee(_) => Lookup(FeeLeg(input).id)
      case CheckCost => Lookup(CostLeg(input).id)
      case Paid => NoCall
      case Refused => NoCall
  }

  /** Store and ledger calls a program has left at most; it bounds every call by nine. */
  function Left(p: Proc): nat
    requires p.Work?
  {
    match p.pc
    case Read => 9
    case Ask => 8
    case Look(ns) => LooksLeft(p.task, ns)
    case Make(_) => 4
    case Check(_) => 3
    case Record(_) => 2
    case Settle => 2
    case Park => 1
    case Done(_) => 0
  }

  function LooksLeft(task: Task, ns: Namespace): nat {
    match task
    case ReserveApproved => 5
    case PostReserved => if ns.VoidNs? then 6 else 5
    case VoidReserved => if ns.PostNs? then 6 else 5
    case ReconcileObserved => if ns.PendingNs? then 7 else if ns.PostNs? then 6 else 5
    case ResolveOfficer(_, _, _) => if ns.PostNs? then 7 else if ns.PendingNs? then 6 else 5
  }

  function Advance(cfg: Config, p: Proc, r: Reply): (q: Proc)
    ensures q.Work? == p.Work?
    ensures p.Work? ==> q.id == p.id && q.task == p.task
    ensures p.Work? && !p.pc.Done? ==> Left(q) < Left(p)
  {
    match p
    case Payout(_, _) => AdvancePayout(p, r)
    case Work(task, _, pc, _, _, _, _) =>
      match pc
      case Read => if r.RowIs? then AfterRead(p.(current := r.intent)) else Fail(p, ErrorOf(r))
      case Ask => if r.RowIs? then AfterRequest(cfg, p.(current := r.intent)) else Fail(p, ErrorOf(r))
      case Look(ns) =>
        if r.Found? || r.Missing? then AfterLook(cfg, Note(p, ns, r.Found?), ns) else Trouble(p, ErrorOf(r))
      case Make(t) =>
        if r == Answer(Created) then AfterMake(p)
        else if r == Answer(Exists) then p.(pc := Check(t))
        else Trouble(p, ErrorOf(r))
      case Check(t) =>
        if r.Found? && SameContent(r.transfer, t) then AfterMake(p) else Trouble(p, ErrorOf(r))
      case Record(_) =>
        if r.RowIs? then p.(pc := Done(Ok(r.intent))) else Trouble(p, ErrorOf(r))
      case Park => Fail(p, ErrorOf(r))
      case Settle => if r.RowIs? then p.(pc := Done(Ok(r.intent))) else Fail(p, ErrorOf(r))
      case Done(_) => p
  }

  function ErrorOf(r: Reply): Error {
    if r.Failure? then r.error else Unavailable
  }

  function Fail(p: Proc, e: Error): (q: Proc)
    requires p.Work?
    ensures q.Work? && q.id == p.id && q.task == p.task
    ensures Left(q) == 0
  {
    p.(pc := Done(Err(e)))
  }

  /** A failure after the read parks the intent, except in the two calls that only observe. */
  function Trouble(p: Proc, e: Error): (q: Proc)
    requires p.Work?
    ensures q.Work? && q.id == p.id && q.task == p.task
    ensures Left(q) <= 1
  {
    if p.task.ReconcileObserved? || p.task.ResolveOfficer? then Fail(p, e) else p.(pc := Park)
  }

  function AfterRead(p: Proc): (q: Proc)
    requires p.Work?
    ensures q.Work? && q.id == p.id && q.task == p.task
    ensures Left(q) <= 8
  {
    var state := p.current.state;
    match p.task
    case ReserveApproved =>
      if state == Reserved || state == Posted then p.(pc := Done(Ok(p.current)))
      else if state != Approved then Fail(p, NotReady)
      else p.(pc := Ask)
    case PostReserved =>
      if state == Posted then p.(pc := Done(Ok(p.current)))
      else if state != Reserved then Fail(p, NotReady)
      else p.(pc := Look(VoidNs))
    case VoidReserved =>
      if state == Voided then p.(pc := Done(Ok(p.current)))
      else if state != Reserved then Fail(p, NotReady)
      else p.(pc := Look(PostNs))
    case ReconcileObserved =>
      if state != ReconciliationRequired then Fail(p, NotReady) else p.(pc := Look(PendingNs))
    case ResolveOfficer(_, _, resolution) =>
      if state != Ambiguous then Fail(p, InvalidState)
      else if resolution.Reconcile? then p.(pc := Settle)
      else p.(pc := Look(PostNs))
  }

  /** Both account identifiers must read as accounts before the ledger is asked anything. */
  function AfterRequest(cfg: Config, p: Proc): (q: Proc)
    requires p.Work?
    ensures q.Work? && q.id == p.id && q.task == p.task
    ensures Left(q) <= 7
  {
    if ParseId(cfg, p.current.request.debitAccount).None? || ParseId(cfg, p.current.request.creditAccount).None?
    then p.(pc := Park)
    else p.(pc := Look(PendingNs))
  }

  function Note(p: Proc, ns: Namespace, seen: bool): (q: Proc)
    requires p.Work?
    ensures q.Work? && q.id == p.id && q.task == p.task
  {
    match ns
    case PendingNs => p.(pendingSeen := seen)
    case PostNs => p.(postSeen := seen)
    case VoidNs => p.(voidSeen := seen)
    case FeeNs => p
    case CostNs => p
  }

  function AfterLook(cfg: Config, p: Proc, ns: Namespace): (q: Proc)
    requires p.Work?
    ensures q.Work? && q.id == p.id && q.task == p.task
    ensures Left(q) < LooksLeft(p.task, ns)
  {
    match p.task
    case ReserveApproved => AfterReserveLook(cfg, p)
    case PostReserved =>
      if ns == VoidNs then (if p.voidSeen then p.(pc := Park) else p.(pc := Look(PostNs)))
      else if p.postSeen then p.(pc := Record(Posted))
      else p.(pc := Make(PostTransfer(p.id, cfg.ledger, cfg.code)))
    case VoidReserved =>
      if ns == PostNs then (if p.postSeen then p.(pc := Park) else p.(pc := Look(VoidNs)))
      else if p.voidSeen then p.(pc := Record(Voided))
      else p.(pc := Make(VoidTransfer(p.id, cfg.ledger, cfg.code)))
    case ReconcileObserved =>
      if ns == PendingNs then p.(pc := Look(PostNs))
      else if ns == PostNs then p.(pc := Look(VoidNs))
      else p.(pc := Record(Observed(p.pendingSeen, p.postSeen, p.voidSeen)))
    case ResolveOfficer(_, _, _) =>
      if ns == PostNs then (if p.postSeen then Fail(p, ResolutionRejected) else p.(pc := Look(PendingNs)))
      else if ns == PendingNs then p.(pc := Look(VoidNs))
      else if p.pendingSeen && !p.voidSeen then p.(pc := Make(VoidTransfer(p.id, cfg.ledger, cfg.code)))
      else p.(pc := Settle)
  }

  function AfterReserveLook(cfg: Config, p: Proc): (q: Proc)
    requires p.Work?
    ensures q.Work? && q.id == p.id && q.task == p.task
    ensures Left(q) <= 4
  {
    var debit, credit := ParseId(cfg, p.current.request.debitAccount), ParseId(cfg, p.current.request.creditAccount);
    if p.pendingSeen then p.(pc := Record(Reserved))
    else if debit.Some? && credit.Some? && ValidTransfer(debit.value, credit.value, p.current.request.amount)
    then p.(pc := Make(ReserveTransfer(p.id, debit.value, credit.value, p.current.request.amount, cfg.ledger, cfg.code)))
    else p.(pc := Park)
  }

  /** The state the ledger records show; missing or contradictory evidence is AMBIGUOUS. */
  function Observed(pendingFound: bool, postFound: bool, voidFound: bool): State {
    if postFound && !voidFound then Posted
    else if voidFound && !postFound then Voided
    else if pendingFound && !postFound && !voidFound then Reserved
    else Ambiguous
  }

  function AfterMake(p: Proc): (q: Proc)
    requires p.Work?
    ensures q.Work? && q.id == p.id && q.task == p.task
    ensures Left(q) <= 2
  {
    match p.task
    case ReserveApproved => p.(pc := Record(Reserved))
    case PostReserved => p.(pc := Record(Posted))
    case VoidReserved => p.(pc := Record(Voided))
    case ReconcileObserved => Fail(p, Unavailable)
    case ResolveOfficer(_, _, _) => p.(pc := Settle)
  }

  /** Both results are read in order; "exists" is accepted only after comparing the stored leg. */
  function AdvancePayout(p: Proc, r: Reply): Proc
    requires p.Payout?
  {
    match p.step
    case Send =>
      if !r.Answers? || r.first.Rejected? then p.(step := Refused)
      else if r.first.Exists? then p.(step := CheckFee(r.second))
      else AfterFee(p, r.second)
    case CheckFee(cost) =>
      if r.Found? && SameContent(r.transfer, FeeLeg(p.input)) then AfterFee(p, cost) else p.(step := Refused)
    case CheckCost =>
      if r.Found? && SameContent(r.transfer, CostLeg(p.input)) then p.(step := Paid) else p.(step := Refused)
    case Paid => p
    case Refused => p
  }

  function AfterFee(p: Proc, cost: Status): Proc
    requires p.Payout?
  {
    match cost
    case Created => p.(step := Paid)
    case Exists => p.(step := CheckCost)
    case Rejected => p.(step := Refused)
  }

  // ---- the system ----

  datatype World = World(db: Db, procs: map<nat, Proc>)

  datatype Step =
    | CreateIntent(request: Intents.Request)
    | ApproveIntent(id: string, expected: int, checker: string)
    | VoidDraftIntent(id: string, expected: int, actor: string)
    | Start(pid: nat, proc: Proc)
    | Crash(pid: nat)
    | Expiry(transferId: TransferId)
    | Run(pid: nat, reply: Reply)

  predicate Init(w: World) {
    w == World(Db(map[], Books(map[], map[], map[], map[])), map[])
  }

  /** A new intent, or nothing when its reference or identifier is taken. */
  function WithIntent(db: Db, request: Intents.Request): Db {
    if request.intentId in db.rows
       || exists id :: id in db.rows && db.rows[id].intent.request.externalRef == request.externalRef
    then db
    else db.(rows := db.rows[request.intentId :=
      Row(Intent(request, Draft, None, 1), [Event(IntentCreated, Draft)])])
  }

  predicate Next(cfg: Config, w: World, s: Step, w': World) {
    match s
    case CreateIntent(request) =>
      ValidRequest(request) && w' == w.(db := WithIntent(w.db, request))
    case ApproveIntent(id, expected, checker) =>
      && id in w.db.rows
      && var row := w.db.rows[id];
      && row.intent.version == expected
      && Approve(row.intent, checker).Ok?
      && w' == w.(db := w.db.(rows := w.db.rows[id := Swap(row, Approve(row.intent, checker).value, IntentApproved)]))
    case VoidDraftIntent(id, expected, actor) =>
      && id in w.db.rows
      && var row := w.db.rows[id];
      && VoidDraft(row.intent, expected, actor).Ok?
      && w' == w.(db := w.db.(rows := w.db.rows[id := Swap(row, VoidDraft(row.intent, expected, actor).value, IntentVoided)]))
    case Start(pid, proc) =>
      && pid !in w.procs
      && (proc == (if proc.Work? then Begin(proc.task, proc.id) else BeginPayout(proc.input)))
      && w' == w.(procs := w.procs[pid := proc])
    case Crash(pid) =>
      && pid in w.procs
      && w' == w.(procs := w.procs - {pid})
    case Expiry(t) =>
      && Expires(w.db.books, t, w'.db.books)
      && w' == w.(db := w.db.(books := w'.db.books))
    case Run(pid, reply) =>
      && pid in w.procs
      && Exec(w.db, CallAt(w.procs[pid]), reply, w'.db)
      && w'.procs == w.procs[pid := Advance(cfg, w.procs[pid], reply)]
  }

  /** A run of the whole system: ss[k] leads from ws[k] to ws[k + 1]. */
  ghost predicate Behaviour(cfg: Config, ws: seq<World>, ss: seq<Step>) {
    && |ws| == |ss| + 1
    && Init(ws[0])
    && forall k :: 0 <= k < |ss| ==> Next(cfg, ws[k], ss[k], ws[k + 1])
  }
}
