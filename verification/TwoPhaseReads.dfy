/** What a finished call answers is decided by the row it read, whatever happened in between. */
module TwoPhaseReads {
  import opened Wrappers
  import opened Intents
  import opened Ledger
  import opened TwoPhase
  import opened TwoPhaseSafety

  /** The answer to the row last read; version 0 means that none was. Work done before is reported as it was
      read, a state the call is not for is refused, and success after that is the state the call is for. */
  predicate AnswersRead(p: Proc)
    requires p.Work? && p.pc.Done?
  {
    var state, r := p.current.state, p.pc.result;
    if p.current.version == 0 then r.Err?
    else
      match p.task
      case ReserveApproved =>
        && (state in {Reserved, Posted} ==> r == Ok(p.current))
        && (state in {Draft, Voided, Ambiguous, ReconciliationRequired} ==> r == Err(NotReady))
        && (state in {Approved, ReservationRequested} && r.Ok? ==> r.value.state == Reserved)
      case PostReserved =>
        && (state == Posted ==> r == Ok(p.current))
        && (state !in {Reserved, Posted} ==> r == Err(NotReady))
        && (state == Reserved && r.Ok? ==> r.value.state == Posted)
      case VoidReserved =>
        && (state == Voided ==> r == Ok(p.current))
        && (state !in {Reserved, Voided} ==> r == Err(NotReady))
        && (state == Reserved && r.Ok? ==> r.value.state == Voided)
      case ReconcileObserved => state != ReconciliationRequired ==> r == Err(NotReady)
      case ResolveOfficer(_, _, resolution) =>
        && (state != Ambiguous ==> r == Err(InvalidState))
        && (r.Ok? ==> r.value.state == (if resolution.Reconcile? then ReconciliationRequired else Voided))
  }

  predicate ReadsOk(p: Proc) {
    p.Work? ==> (p.pc.Read? ==> p.current.version == 0) && (p.pc.Done? ==> AnswersRead(p))
  }

  lemma ReadStep(cfg: Config, db: Db, p: Proc, r: Reply, db': Db)
    requires DbOk(cfg, db) && p.Work? && p.pc.Read? && ReadsOk(p) && Exec(db, CallAt(p), r, db')
    ensures ReadsOk(Advance(cfg, p, r))
  {
    assert p.id in db.rows ==> RowOk(cfg, db, p.id);
  }

  /** A call past its read and request: the state it works on, and what it is about to record. */
  predicate Busy(p: Proc) {
    && p.Work? && !p.pc.Read? && !p.pc.Ask? && !p.pc.Done? && p.current.version >= 1
    && match p.task
       case ReserveApproved => p.current.state == ReservationRequested && (p.pc.Record? ==> p.pc.next == Reserved)
       case PostReserved => p.current.state == Reserved && (p.pc.Record? ==> p.pc.next == Posted)
       case VoidReserved => p.current.state == Reserved && (p.pc.Record? ==> p.pc.next == Voided)
       case ReconcileObserved => p.current.state == ReconciliationRequired
       case ResolveOfficer(_, _, _) => p.current.state == Ambiguous && !p.pc.Record?
  }

  lemma IsBusy(cfg: Config, db: Db, p: Proc)
    requires ProcOk(cfg, db, p) && p.Work? && !p.pc.Read? && !p.pc.Ask? && !p.pc.Done?
    ensures Busy(p) && (p.pc.Settle? ==> p.task.ResolveOfficer?)
  {
  }

  lemma AskStep(cfg: Config, db: Db, p: Proc, r: Reply, db': Db)
    requires ProcOk(cfg, db, p) && p.Work? && p.pc.Ask? && Exec(db, CallAt(p), r, db')
    ensures ReadsOk(Advance(cfg, p, r))
  {
  }

  lemma BusyFails(p: Proc, e: Error)
    requires Busy(p)
    ensures ReadsOk(Fail(p, e)) && ReadsOk(Trouble(p, e))
  {
  }

  lemma LookStep(cfg: Config, p: Proc, r: Reply)
    requires Busy(p) && p.pc.Look?
    ensures ReadsOk(Advance(cfg, p, r))
  {
    BusyFails(p, ErrorOf(r));
    LookedStep(cfg, Note(p, p.pc.ns, r.Found?), p.pc.ns);
  }

  lemma LookedStep(cfg: Config, p: Proc, ns: Namespace)
    requires Busy(p)
    ensures ReadsOk(AfterLook(cfg, p, ns))
  {
    BusyFails(p, ResolutionRejected);
  }

  lemma MakeStep(cfg: Config, p: Proc, r: Reply)
    requires Busy(p) && (p.pc.Make? || p.pc.Check?)
    ensures ReadsOk(Advance(cfg, p, r))
  {
    BusyFails(p, ErrorOf(r));
    BusyFails(p, Unavailable);
  }

  lemma RecordStep(cfg: Config, db: Db, p: Proc, r: Reply, db': Db)
    requires Busy(p) && (p.pc.Record? || p.pc.Park?) && Exec(db, CallAt(p), r, db')
    ensures ReadsOk(Advance(cfg, p, r))
  {
    BusyFails(p, ErrorOf(r));
  }

  lemma SettleStep(cfg: Config, db: Db, p: Proc, r: Reply, db': Db)
    requires Busy(p) && p.pc.Settle? && p.task.ResolveOfficer? && Exec(db, CallAt(p), r, db')
    ensures ReadsOk(Advance(cfg, p, r))
  {
  }

  lemma LaterStep(cfg: Config, db: Db, p: Proc, r: Reply, db': Db)
    requires ProcOk(cfg, db, p) && p.Work? && !p.pc.Read? && !p.pc.Done? && Exec(db, CallAt(p), r, db')
    ensures ReadsOk(Advance(cfg, p, r))
  {
    if p.pc.Ask? {
      AskStep(cfg, db, p, r, db');
    } else {
      IsBusy(cfg, db, p);
      BusyStep(cfg, db, p, r, db');
    }
  }

  lemma BusyStep(cfg: Config, db: Db, p: Proc, r: Reply, db': Db)
    requires Busy(p) && (p.pc.Settle? ==> p.task.ResolveOfficer?) && Exec(db, CallAt(p), r, db')
    ensures ReadsOk(Advance(cfg, p, r))
  {
    match p.pc
    case Look(_) => LookStep(cfg, p, r);
    case Make(_) => MakeStep(cfg, p, r);
    case Check(_) => MakeStep(cfg, p, r);
    case Record(_) => RecordStep(cfg, db, p, r, db');
    case Park => RecordStep(cfg, db, p, r, db');
    case Settle => SettleStep(cfg, db, p, r, db');
    case _ =>
  }

  lemma RunStep(cfg: Config, w: World, pid: nat, r: Reply, w': World)
    requires Inv(cfg, w) && Next(cfg, w, Run(pid, r), w') && ReadsOk(w.procs[pid])
    ensures ReadsOk(w'.procs[pid])
  {
    var p := w.procs[pid];
    if p.Work? && p.pc.Read? {
      ReadStep(cfg, w.db, p, r, w'.db);
    } else if p.Work? && !p.pc.Done? {
      LaterStep(cfg, w.db, p, r, w'.db);
    }
  }

  lemma {:induction false} ReadsAlways(cfg: Config, ws: seq<World>, ss: seq<Step>, k: nat, pid: nat)
    requires Behaviour(cfg, ws, ss) && k < |ws| && pid in ws[k].procs
    ensures ReadsOk(ws[k].procs[pid])
  {
    if k > 0 {
      InvAlways(cfg, ws, ss, k - 1);
      var w, s, w' := ws[k - 1], ss[k - 1], ws[k];
      assert Next(cfg, w, s, w');
      if pid in w.procs {
        ReadsAlways(cfg, ws, ss, k - 1, pid);
      }
      if s.Run? && s.pid == pid {
        RunStep(cfg, w, pid, s.reply, w');
      }
    }
  }

  /** In every run, under any interference, failure and lost reply. */
  lemma AnswersWhatItRead(cfg: Config, ws: seq<World>, ss: seq<Step>, k: nat, pid: nat)
    requires Behaviour(cfg, ws, ss) && k < |ws| && pid in ws[k].procs && ws[k].procs[pid].Work? && ws[k].procs[pid].pc.Done?
    ensures AnswersRead(ws[k].procs[pid])
  {
    ReadsAlways(cfg, ws, ss, k, pid);
  }
}
