/** Who may still answer for a requested reservation when creates may land late: at most one call per
    intent, and no other call ever sends a reservation. */
module TwoPhaseHolders {
  import opened Wrappers
  import opened Intents
  import opened Ledger
  import opened TwoPhase
  import opened TwoPhaseSafety
  import opened TwoPhaseTheorems
  import opened TwoPhaseLate

  /** A ReserveApproved call that may still send or record its reservation. */
  predicate Requesting(p: Proc) {
    p.Work? && p.task.ReserveApproved? && (p.pc.Look? || p.pc.Make? || p.pc.Check? || p.pc.Record?)
  }

  /** Such a call has read the row as it is, and no two calls hold one intent. */
  ghost predicate HoldersOk(w: World) {
    && (forall pid :: pid in w.procs && Requesting(w.procs[pid]) ==> Fresh(w.db, w.procs[pid]))
    && (forall p, q :: p in w.procs && q in w.procs && p != q && Holding(w.db, w.procs[p]) && Holding(w.db, w.procs[q])
          ==> w.procs[p].id != w.procs[q].id)
  }

  lemma LateHolderState(cfg: Config, db: Db, q: Proc)
    requires LateDbOk(cfg, db) && LateProcOk(cfg, db, q) && Holding(db, q)
    ensures db.rows[q.id].intent.state == ReservationRequested && q.current.state == ReservationRequested
  {
    assert LateRowOk(cfg, db, q.id);
  }

  // ---- steps that change no row ----

  /** Such a step makes no call requesting or holding that was not before. */
  lemma AdvanceHolds(cfg: Config, db: Db, p: Proc, r: Reply, db': Db)
    requires p.Work? && Exec(db, CallAt(p), r, db') && db'.rows == db.rows
    ensures var q := Advance(cfg, p, r);
            && (Requesting(q) ==> Requesting(p) && q.current == p.current && q.id == p.id)
            && (Holding(db, q) ==> Holding(db, p) && q.id == p.id)
  {
    match p.pc
    case Ask => NoAnswerWithoutMove(db, p, r, db');
    case Look(ns) => LookHolds(cfg, db, p, r, ns);
    case _ =>
  }

  lemma LookHolds(cfg: Config, db: Db, p: Proc, r: Reply, ns: Namespace)
    requires p.Work? && p.pc == Look(ns)
    ensures var q := Advance(cfg, p, r); q.current == p.current && q.id == p.id && q.task == p.task
  {
  }

  lemma NoAnswerWithoutMove(db: Db, p: Proc, r: Reply, db': Db)
    requires p.Work? && p.pc.Ask? && Exec(db, CallAt(p), r, db') && db'.rows == db.rows
    ensures r.Failure?
  {
  }

  lemma SameRows(w: World, w': World, pid: nat)
    requires HoldersOk(w) && w'.db.rows == w.db.rows
    requires forall q :: q in w'.procs && q != pid ==> q in w.procs && w'.procs[q] == w.procs[q]
    requires pid in w'.procs ==>
               && (Requesting(w'.procs[pid]) ==> Fresh(w.db, w'.procs[pid]))
               && (Holding(w.db, w'.procs[pid]) ==> pid in w.procs && Holding(w.db, w.procs[pid]) && w'.procs[pid].id == w.procs[pid].id)
    ensures HoldersOk(w')
  {
  }

  lemma QuietRun(cfg: Config, w: World, pid: nat, r: Reply, w': World)
    requires HoldersOk(w) && Next(cfg, w, Run(pid, r), w') && w'.db.rows == w.db.rows
    ensures HoldersOk(w')
  {
    var p := w.procs[pid];
    if p.Work? {
      AdvanceHolds(cfg, w.db, p, r, w'.db);
    }
    SameRows(w, w', pid);
  }

  // ---- steps that change one row ----

  lemma OneRow(cfg: Config, w: World, w': World, pid: nat, id: string)
    requires HoldersOk(w) && id in w.db.rows && id in w'.db.rows && w'.db.rows == w.db.rows[id := w'.db.rows[id]]
    requires w'.db.rows[id].intent.version == w.db.rows[id].intent.version + 1
    requires LateDbOk(cfg, w.db) && forall q :: q in w.procs ==> LateProcOk(cfg, w.db, w.procs[q])
    requires forall q :: q in w'.procs && q != pid ==> q in w.procs && w'.procs[q] == w.procs[q]
    requires forall q :: q in w.procs && q != pid && Holding(w.db, w.procs[q]) ==> w.procs[q].id != id
    requires pid in w'.procs ==>
               && (Requesting(w'.procs[pid]) ==> Fresh(w'.db, w'.procs[pid]))
               && (Holding(w'.db, w'.procs[pid]) ==> w'.procs[pid].id == id)
    ensures HoldersOk(w')
  {
    forall q | q in w'.procs && q != pid
      ensures Requesting(w'.procs[q]) ==> Fresh(w'.db, w'.procs[q])
      ensures Holding(w'.db, w'.procs[q]) ==> Holding(w.db, w.procs[q]) && w.procs[q].id != id
    {
      OtherAfterRow(cfg, w.db, w'.db, w.procs[q], id);
    }
  }

  lemma OtherAfterRow(cfg: Config, db: Db, db': Db, q: Proc, id: string)
    requires LateDbOk(cfg, db) && LateProcOk(cfg, db, q) && id in db.rows && id in db'.rows
    requires db'.rows == db.rows[id := db'.rows[id]] && db'.rows[id].intent.version == db.rows[id].intent.version + 1
    requires Requesting(q) ==> Fresh(db, q)
    requires Holding(db, q) ==> q.id != id
    ensures Requesting(q) ==> Fresh(db', q)
    ensures Holding(db', q) ==> Holding(db, q) && q.id != id
  {
    assert LateRowOk(cfg, db, id);
  }

  /** Nobody else holds an intent whose row a call is about to move. */
  lemma MoverIsHolder(cfg: Config, w: World, pid: nat, next: State)
    requires HoldersOk(w) && LateDbOk(cfg, w.db) && forall q :: q in w.procs ==> LateProcOk(cfg, w.db, w.procs[q])
    requires pid in w.procs && w.procs[pid].Work?
    requires CallAt(w.procs[pid]) == Move(w.procs[pid].id, w.procs[pid].current.version, next)
    requires CanMove(w.db, w.procs[pid].id, w.procs[pid].current.version, next)
    ensures forall q :: q in w.procs && q != pid && Holding(w.db, w.procs[q]) ==> w.procs[q].id != w.procs[pid].id
  {
    var p := w.procs[pid];
    forall q | q in w.procs && q != pid && Holding(w.db, w.procs[q]) && w.procs[q].id == p.id ensures false {
      LateHolderState(cfg, w.db, w.procs[q]);
      MoverHolds(cfg, w.db, p, next);
    }
  }

  lemma MoverHolds(cfg: Config, db: Db, p: Proc, next: State)
    requires LateDbOk(cfg, db) && p.Work? && LateProcOk(cfg, db, p) && p.id in db.rows
    requires CallAt(p) == Move(p.id, p.current.version, next) && p.current.version == db.rows[p.id].intent.version
    requires db.rows[p.id].intent.state == ReservationRequested
    ensures Holding(db, p)
  {
    assert LateRowOk(cfg, db, p.id);
  }

  /** What the mover is after its row moved. */
  lemma MoverAfter(cfg: Config, db: Db, p: Proc, next: State, r: Reply, db': Db)
    requires p.Work? && CallAt(p) == Move(p.id, p.current.version, next) && CanMove(db, p.id, p.current.version, next)
    requires db' == Moved(db, p.id, next) && (r.Failure? || r == RowIs(db'.rows[p.id].intent))
    ensures var q := Advance(cfg, p, r);
            && q.id == p.id && (Requesting(q) ==> Fresh(db', q))
  {
  }

  lemma MoveHolders(cfg: Config, w: World, pid: nat, next: State, r: Reply, w': World)
    requires HoldersOk(w) && LateDbOk(cfg, w.db) && forall q :: q in w.procs ==> LateProcOk(cfg, w.db, w.procs[q])
    requires pid in w.procs && w.procs[pid].Work?
    requires CallAt(w.procs[pid]) == Move(w.procs[pid].id, w.procs[pid].current.version, next)
    requires Exec(w.db, CallAt(w.procs[pid]), r, w'.db) && w'.db != w.db
    requires w'.procs == w.procs[pid := Advance(cfg, w.procs[pid], r)]
    ensures HoldersOk(w')
  {
    MoverIsHolder(cfg, w, pid, next);
    MoverAfter(cfg, w.db, w.procs[pid], next, r, w'.db);
    OneRow(cfg, w, w', pid, w.procs[pid].id);
  }

  lemma ResolveHolders(cfg: Config, w: World, pid: nat, r: Reply, w': World)
    requires HoldersOk(w) && LateDbOk(cfg, w.db) && forall q :: q in w.procs ==> LateProcOk(cfg, w.db, w.procs[q])
    requires pid in w.procs && w.procs[pid].Work? && CallAt(w.procs[pid]).Resolve?
    requires Exec(w.db, CallAt(w.procs[pid]), r, w'.db) && w'.db != w.db
    requires w'.procs == w.procs[pid := Advance(cfg, w.procs[pid], r)]
    ensures HoldersOk(w')
  {
    var p := w.procs[pid];
    ResolveMoves(w.db, p, r, w'.db);
    forall q | q in w.procs && Holding(w.db, w.procs[q]) ensures w.procs[q].id != p.id {
      LateHolderState(cfg, w.db, w.procs[q]);
    }
    assert Advance(cfg, p, r).pc.Done?;
    OneRow(cfg, w, w', pid, p.id);
  }

  lemma ResolveMoves(db: Db, p: Proc, r: Reply, db': Db)
    requires p.Work? && CallAt(p).Resolve? && Exec(db, CallAt(p), r, db') && db' != db
    ensures p.pc.Settle? && p.id in db.rows && p.id in db'.rows && db.rows[p.id].intent.state == Ambiguous
    ensures db'.rows == db.rows[p.id := db'.rows[p.id]] && db'.rows[p.id].intent.version == db.rows[p.id].intent.version + 1
  {
  }

  lemma PeopleHolders(cfg: Config, w: World, id: string, changed: Intent, kind: EventKind, w': World)
    requires HoldersOk(w) && LateDbOk(cfg, w.db) && forall q :: q in w.procs ==> LateProcOk(cfg, w.db, w.procs[q])
    requires id in w.db.rows && w.db.rows[id].intent.state == Draft
    requires w' == w.(db := w.db.(rows := w.db.rows[id := Swap(w.db.rows[id], changed, kind)]))
    ensures HoldersOk(w')
  {
    forall q | q in w.procs && Holding(w.db, w.procs[q]) ensures w.procs[q].id != id {
      LateHolderState(cfg, w.db, w.procs[q]);
    }
    forall q | q in w'.procs
      ensures Requesting(w'.procs[q]) ==> Fresh(w'.db, w'.procs[q])
      ensures Holding(w'.db, w'.procs[q]) ==> Holding(w.db, w.procs[q])
    {
      OtherAfterRow(cfg, w.db, w'.db, w.procs[q], id);
    }
  }

  lemma CreateHolders(cfg: Config, w: World, request: Intents.Request, w': World)
    requires HoldersOk(w) && forall q :: q in w.procs ==> LateProcOk(cfg, w.db, w.procs[q])
    requires w' == w.(db := WithIntent(w.db, request))
    ensures HoldersOk(w')
  {
    forall q | q in w'.procs
      ensures Requesting(w'.procs[q]) ==> Fresh(w'.db, w'.procs[q])
      ensures Holding(w'.db, w'.procs[q]) ==> Holding(w.db, w.procs[q])
    {
      assert LateProcOk(cfg, w.db, w.procs[q]);
    }
  }

  lemma RunHolders(cfg: Config, w: LateWorld, pid: nat, r: Reply, w': World)
    requires LateInv(cfg, w) && HoldersOk(w.world) && Next(cfg, w.world, Run(pid, r), w')
    ensures HoldersOk(w')
  {
    var p := w.world.procs[pid];
    if w'.db.rows == w.world.db.rows {
      QuietRun(cfg, w.world, pid, r, w');
    } else {
      WriterOnly(w.world.db, p, r, w'.db);
      if CallAt(p).Resolve? {
        ResolveHolders(cfg, w.world, pid, r, w');
      } else {
        MoveHolders(cfg, w.world, pid, CallAt(p).next, r, w');
      }
    }
  }

  /** Only a record or a resolution changes rows. */
  lemma WriterOnly(db: Db, p: Proc, r: Reply, db': Db)
    requires Exec(db, CallAt(p), r, db') && db'.rows != db.rows
    ensures p.Work? && (CallAt(p).Resolve? || (CallAt(p).Move? && CallAt(p) == Move(p.id, p.current.version, CallAt(p).next)))
  {
  }

  lemma NowHolders(cfg: Config, w: LateWorld, s: Step, w': World)
    requires LateInv(cfg, w) && HoldersOk(w.world) && Next(cfg, w.world, s, w')
    ensures HoldersOk(w')
  {
    match s
    case CreateIntent(request) => CreateHolders(cfg, w.world, request, w');
    case ApproveIntent(id, _, checker) =>
      PeopleHolders(cfg, w.world, id, Approve(w.world.db.rows[id].intent, checker).value, IntentApproved, w');
    case VoidDraftIntent(id, expected, actor) =>
      PeopleHolders(cfg, w.world, id, VoidDraft(w.world.db.rows[id].intent, expected, actor).value, IntentVoided, w');
    case Start(pid, _) => SameRows(w.world, w', pid);
    case Crash(pid) => SameRows(w.world, w', pid);
    case Expiry(_) => SameRows(w.world, w', 0);
    case Run(pid, r) => RunHolders(cfg, w, pid, r, w');
  }

  lemma StepHolders(cfg: Config, w: LateWorld, s: LateStep, w': LateWorld)
    requires LateInv(cfg, w) && HoldersOk(w.world) && LateNext(cfg, w, s, w')
    ensures HoldersOk(w'.world)
  {
    match s
    case Now(step) => NowHolders(cfg, w, step, w'.world);
    case Land(_) => SameRows(w.world, w'.world, 0);
  }

  lemma HoldersOneMore(cfg: Config, ws: seq<LateWorld>, ss: seq<LateStep>, k: nat)
    requires LateBehaviour(cfg, ws, ss) && 0 < k < |ws| && HoldersOk(ws[k - 1].world)
    ensures HoldersOk(ws[k].world)
  {
    LateInvAlways(cfg, ws, ss, k - 1);
    StepHolders(cfg, ws[k - 1], ss[k - 1], ws[k]);
  }

  lemma {:induction false} HoldersAlways(cfg: Config, ws: seq<LateWorld>, ss: seq<LateStep>, k: nat)
    requires LateBehaviour(cfg, ws, ss) && k < |ws|
    ensures HoldersOk(ws[k].world)
  {
    if k > 0 {
      HoldersAlways(cfg, ws, ss, k - 1);
      HoldersOneMore(cfg, ws, ss, k);
    }
  }

  /** What holds before step k of a run. */
  lemma SoundAt(cfg: Config, ws: seq<LateWorld>, ss: seq<LateStep>, k: nat, w: LateWorld, s: LateStep, w': LateWorld)
    requires LateBehaviour(cfg, ws, ss) && k < |ss| && w == ws[k] && s == ss[k] && w' == ws[k + 1]
    ensures LateInv(cfg, w) && HoldersOk(w.world) && LateNext(cfg, w, s, w')
  {
    LateInvAlways(cfg, ws, ss, k);
    HoldersAlways(cfg, ws, ss, k);
  }
}
