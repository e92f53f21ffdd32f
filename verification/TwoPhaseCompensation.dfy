/** What late requests do to AMBIGUOUS intents: the officer's compensating void is reached and does its
    work, and a reservation that lands after the intent was closed stays in the ledger. */
module TwoPhaseCompensation {
  import opened Wrappers
  import opened Intents
  import opened Ledger
  import opened TwoPhase
  import opened TwoPhaseSafety
  import opened TwoPhaseTheorems
  import opened TwoPhaseProgress
  import opened TwoPhaseClosing
  import opened TwoPhaseLate
  import Text

  // ---- runs ----

  lemma LateAppend(cfg: Config, ws: seq<LateWorld>, ss: seq<LateStep>, s: LateStep, w: LateWorld)
    requires LateBehaviour(cfg, ws, ss) && LateNext(cfg, ws[|ws| - 1], s, w)
    ensures LateBehaviour(cfg, ws + [w], ss + [s])
  {
    var us, ts := ws + [w], ss + [s];
    forall k | 0 <= k < |ts| ensures LateNext(cfg, us[k], ts[k], us[k + 1]) {
      if k < |ss| {
        assert us[k] == ws[k] && ts[k] == ss[k] && us[k + 1] == ws[k + 1];
      }
    }
  }

  lemma Shorter(cfg: Config, ws: seq<World>, ss: seq<Step>)
    requires Behaviour(cfg, ws, ss) && ss != []
    ensures Behaviour(cfg, ws[..|ss|], ss[..|ss| - 1])
  {
    forall k | 0 <= k < |ss| - 1 ensures Next(cfg, ws[..|ss|][k], ss[..|ss| - 1][k], ws[..|ss|][k + 1]) {
      assert Next(cfg, ws[k], ss[k], ws[k + 1]);
    }
  }

  /** Every run is a run with late requests of which none has landed; all of them are still in flight. */
  lemma {:induction false} NothingLanded(cfg: Config, ws: seq<World>, ss: seq<Step>)
    returns (ls: seq<LateWorld>, ts: seq<LateStep>)
    requires Behaviour(cfg, ws, ss)
    ensures LateBehaviour(cfg, ls, ts) && |ls| == |ws|
    ensures forall k :: 0 <= k < |ws| ==> ls[k].world == ws[k]
    ensures forall k :: 0 <= k < |ss| ==> Sent(ws[k], ss[k]) <= ls[|ls| - 1].flying
    decreases |ss|
  {
    if ss == [] {
      ls, ts := [LateWorld(ws[0], {})], [];
    } else {
      var n := |ss| - 1;
      Shorter(cfg, ws, ss);
      ls, ts := NothingLanded(cfg, ws[..|ss|], ss[..n]);
      var w := LateWorld(ws[n + 1], ls[n].flying + Sent(ws[n], ss[n]));
      assert Next(cfg, ws[n], ss[n], ws[n + 1]);
      LateAppend(cfg, ls, ts, Now(ss[n]), w);
      forall k | 0 <= k < |ss| ensures Sent(ws[k], ss[k]) <= w.flying {
        if k < n {
          assert ss[..n][k] == ss[k] && ws[..|ss|][k] == ws[k];
        }
      }
      ls, ts := ls + [w], ts + [Now(ss[n])];
    }
  }

  predicate OthersKept(w: World, w': World, pid: nat) {
    forall q :: q in w.procs && q != pid ==> q in w'.procs && w'.procs[q] == w.procs[q]
  }

  /** A run with late requests continued by one process working alone. */
  lemma {:induction false} LateRunAlone(cfg: Config, ws: seq<LateWorld>, ss: seq<LateStep>, pid: nat)
    returns (us: seq<LateWorld>, ts: seq<LateStep>)
    requires LateBehaviour(cfg, ws, ss)
    requires pid in ws[|ws| - 1].world.procs && ws[|ws| - 1].world.procs[pid].Work?
    ensures LateBehaviour(cfg, us, ts) && ws <= us
    ensures OthersKept(ws[|ws| - 1].world, us[|us| - 1].world, pid)
    ensures ws[|ws| - 1].flying <= us[|us| - 1].flying
    ensures us[|us| - 1].world.db == Alone(cfg, ws[|ws| - 1].world.db, ws[|ws| - 1].world.procs[pid]).0
    decreases Left(ws[|ws| - 1].world.procs[pid])
  {
    var w := ws[|ws| - 1];
    var p := w.world.procs[pid];
    if p.pc.Done? {
      us, ts := ws, ss;
    } else {
      var (db, r) := Honest(w.world.db, CallAt(p));
      HonestIsPossible(w.world.db, CallAt(p));
      var s := Run(pid, r);
      var w' := LateWorld(World(db, w.world.procs[pid := Advance(cfg, p, r)]), w.flying + Sent(w.world, s));
      LateAppend(cfg, ws, ss, Now(s), w');
      us, ts := LateRunAlone(cfg, ws + [w'], ss + [Now(s)], pid);
    }
  }

  lemma LateRunCall(cfg: Config, ws: seq<LateWorld>, ss: seq<LateStep>, task: Task, id: string)
    returns (us: seq<LateWorld>, ts: seq<LateStep>)
    requires LateBehaviour(cfg, ws, ss)
    ensures LateBehaviour(cfg, us, ts) && ws <= us
    ensures ws[|ws| - 1].flying <= us[|us| - 1].flying
    ensures us[|us| - 1].world.db == CallAlone(cfg, ws[|ws| - 1].world.db, task, id)
  {
    var w := ws[|ws| - 1];
    var pid := FreshAbove(w.world.procs.Keys);
    var s := Start(pid, Begin(task, id));
    var w' := LateWorld(w.world.(procs := w.world.procs[pid := Begin(task, id)]), w.flying + Sent(w.world, s));
    LateAppend(cfg, ws, ss, Now(s), w');
    us, ts := LateRunAlone(cfg, ws + [w'], ss + [Now(s)], pid);
  }

  // ---- an AMBIGUOUS intent whose reservation is in flight ----

  function Reservation(cfg: Config, r: Intents.Request): Transfer
    requires AccountsParse(cfg, r)
  {
    ReserveTransfer(r.intentId, ParseId(cfg, r.debitAccount).value, ParseId(cfg, r.creditAccount).value, r.amount,
                    cfg.ledger, cfg.code)
  }

  function RequestedDb(r: Intents.Request, checker: string): Db {
    Moved(ApprovedDb(r, checker), r.intentId, ReservationRequested)
  }

  function ParkedDb(r: Intents.Request, checker: string): Db {
    Moved(RequestedDb(r, checker), r.intentId, ReconciliationRequired)
  }

  function AmbiguousDb(r: Intents.Request, checker: string): Db {
    Moved(ParkedDb(r, checker), r.intentId, Ambiguous)
  }

  function RequestingAt(r: Intents.Request, checker: string, pc: Pc): Proc {
    Work(ReserveApproved, r.intentId, pc, RequestedDb(r, checker).rows[r.intentId].intent, false, false, false)
  }

  lemma ExtendRun(cfg: Config, ws: seq<World>, ss: seq<Step>, p: Proc, r: Reply, db: Db)
    returns (us: seq<World>, ts: seq<Step>)
    requires Behaviour(cfg, ws, ss) && ws[|ws| - 1].procs == map[0 := p]
    requires Exec(ws[|ws| - 1].db, CallAt(p), r, db)
    ensures Behaviour(cfg, us, ts) && us == ws + [World(db, map[0 := Advance(cfg, p, r)])] && ts == ss + [Run(0, r)]
  {
    var w := World(db, map[0 := Advance(cfg, p, r)]);
    assert ws[|ws| - 1].procs[0 := Advance(cfg, p, r)] == w.procs;
    AppendStep(cfg, ws, ss, Run(0, r), w);
    us, ts := ws + [w], ss + [Run(0, r)];
  }

  /** The request is recorded, nothing is found, and the create is about to be sent. */
  lemma SendingRun(cfg: Config, r: Intents.Request, checker: string) returns (ws: seq<World>, ss: seq<Step>)
    requires Checks(checker, r) && AccountsParse(cfg, r)
    ensures Behaviour(cfg, ws, ss)
    ensures ws[|ws| - 1] == World(RequestedDb(r, checker), map[0 := RequestingAt(r, checker, Make(Reservation(cfg, r)))])
  {
    ws, ss := AskingRun(cfg, r, checker);
    var db := RequestedDb(r, checker);
    ws, ss := ExtendRun(cfg, ws, ss, Asking(r, checker), RowIs(db.rows[r.intentId].intent), db);
    ws, ss := ExtendRun(cfg, ws, ss, RequestingAt(r, checker, Look(PendingNs)), Missing, db);
  }

  /** The create fails and the intent is parked. */
  lemma ParkedRun(cfg: Config, r: Intents.Request, checker: string)
    returns (ws: seq<World>, ss: seq<Step>, k: nat)
    requires Checks(checker, r) && AccountsParse(cfg, r)
    ensures Behaviour(cfg, ws, ss) && ws[|ws| - 1].db == ParkedDb(r, checker)
    ensures k < |ss| && Sent(ws[k], ss[k]) == {Reservation(cfg, r)}
  {
    ws, ss := SendingRun(cfg, r, checker);
    k := |ss|;
    ws, ss := ExtendRun(cfg, ws, ss, RequestingAt(r, checker, Make(Reservation(cfg, r))), Failure(Unavailable),
                        RequestedDb(r, checker));
    ws, ss := ExtendRun(cfg, ws, ss, RequestingAt(r, checker, Park), Failure(Unavailable), ParkedDb(r, checker));
  }

  lemma LastOk(cfg: Config, ws: seq<World>, ss: seq<Step>, db: Db)
    requires Behaviour(cfg, ws, ss) && ws[|ws| - 1].db == db
    ensures DbOk(cfg, db)
  {
    DbAlways(cfg, ws, ss, |ws| - 1);
  }

  lemma NoEvidence(cfg: Config, r: Intents.Request, checker: string)
    requires DbOk(cfg, ParkedDb(r, checker))
    ensures CallAlone(cfg, ParkedDb(r, checker), ReconcileObserved, r.intentId) == AmbiguousDb(r, checker)
  {
    ReconcileAlone(cfg, ParkedDb(r, checker), r.intentId);
  }

  /** Reconciliation finds no evidence. */
  lemma AmbiguousRun(cfg: Config, r: Intents.Request, checker: string)
    returns (ws: seq<World>, ss: seq<Step>, k: nat)
    requires Checks(checker, r) && AccountsParse(cfg, r)
    ensures Behaviour(cfg, ws, ss) && ws[|ws| - 1].db == AmbiguousDb(r, checker)
    ensures k < |ss| && Sent(ws[k], ss[k]) == {Reservation(cfg, r)}
  {
    var us, ts, n := ParkedRun(cfg, r, checker);
    LastOk(cfg, us, ts, ParkedDb(r, checker));
    NoEvidence(cfg, r, checker);
    ws, ss := RunCall(cfg, us, ts, ReconcileObserved, r.intentId);
    k := n;
  }

  /** The same with the reservation in flight. */
  lemma AmbiguousInFlight(cfg: Config, r: Intents.Request, checker: string)
    returns (ws: seq<LateWorld>, ss: seq<LateStep>)
    requires Checks(checker, r) && AccountsParse(cfg, r)
    ensures LateBehaviour(cfg, ws, ss) && ws[|ws| - 1].world.db == AmbiguousDb(r, checker)
    ensures Reservation(cfg, r) in ws[|ws| - 1].flying
  {
    var us, ts, k := AmbiguousRun(cfg, r, checker);
    ws, ss := NothingLanded(cfg, us, ts);
    assert Sent(us[k], ts[k]) <= ws[|ws| - 1].flying;
    assert ws[|us| - 1].world == us[|us| - 1];
  }

  // ---- the compensation ----

  predicate Compensable(db: Db, id: string) {
    && id in db.rows && db.rows[id].intent.state == Ambiguous
    && PostId(id) !in db.books.transfers && VoidId(id) !in db.books.transfers
    && PendingId(id) in db.books.transfers && db.books.transfers[PendingId(id)].kind == Pending
    && PendingId(id) !in db.books.closed
  }

  function Closing(db: Db, id: string, officer: string, pc: Pc, pendingSeen: bool): Proc
    requires id in db.rows
  {
    Work(ResolveOfficer(db.rows[id].intent.version, officer, Close), id, pc, db.rows[id].intent, pendingSeen, false, false)
  }

  /** The three lookups lead to the void. */
  lemma LooksCompensate(cfg: Config, db: Db, id: string, officer: string)
    requires Compensable(db, id)
    ensures Alone(cfg, db, Begin(ResolveOfficer(db.rows[id].intent.version, officer, Close), id))
            == Alone(cfg, db, Closing(db, id, officer, Make(VoidTransfer(id, cfg.ledger, cfg.code)), true))
  {
    ReadAlone(cfg, db, ResolveOfficer(db.rows[id].intent.version, officer, Close), id, Look(PostNs));
    LookAlone(cfg, db, Closing(db, id, officer, Look(PostNs), false), PostNs);
    LookAlone(cfg, db, Closing(db, id, officer, Look(PendingNs), false), PendingNs);
    LookAlone(cfg, db, Closing(db, id, officer, Look(VoidNs), true), VoidNs);
  }

  lemma SettleAlone(cfg: Config, db: Db, p: Proc)
    requires p.Work? && p.pc.Settle? && p.task.ResolveOfficer? && p.task.resolution.Close? && p.id in db.rows
    requires db.rows[p.id].intent.state == Ambiguous && db.rows[p.id].intent.version == p.task.expected
    requires Text.Canonical(p.task.officer)
    ensures var end := Alone(cfg, db, p).0;
            p.id in end.rows && end.rows[p.id].intent.state == Voided && end.books == db.books
  {
    OneStep(cfg, db, p);
  }

  /** An officer's CLOSE of an AMBIGUOUS intent, alone, when its reservation turns up open. */
  lemma Compensates(cfg: Config, db: Db, id: string, officer: string)
    requires Compensable(db, id) && Text.Canonical(officer)
    ensures var end := CallAlone(cfg, db, ResolveOfficer(db.rows[id].intent.version, officer, Close), id);
            && id in end.rows && end.rows[id].intent.state == Voided
            && end.books == Insert(db.books, VoidTransfer(id, cfg.ledger, cfg.code))
  {
    var t := VoidTransfer(id, cfg.ledger, cfg.code);
    LooksCompensate(cfg, db, id, officer);
    MakeAlone(cfg, db, Closing(db, id, officer, Make(t), true), t);
    SettleAlone(cfg, db.(books := Insert(db.books, t)), Closing(db, id, officer, Settle, true));
  }

  function LandedDb(db: Db, t: Transfer): Db
    requires Admissible(db.books, t)
  {
    db.(books := Insert(db.books, t))
  }

  /** The compensating void is reached: a reservation lands after its intent was declared AMBIGUOUS, and
      the officer's CLOSE voids it before the intent is recorded VOIDED. */
  lemma CompensationHappens(cfg: Config, r: Intents.Request, checker: string, officer: string)
    returns (ws: seq<LateWorld>, ss: seq<LateStep>)
    requires Checks(checker, r) && AccountsParse(cfg, r) && Text.Canonical(officer)
    ensures LateBehaviour(cfg, ws, ss) && r.intentId in ws[|ws| - 1].world.db.rows
    ensures var db, id := ws[|ws| - 1].world.db, r.intentId;
            && db.rows[id].intent.state == Voided
            && PendingId(id) in db.books.closed && db.books.closed[PendingId(id)] == ClosedBy(VoidId(id))
  {
    var us, ts := AmbiguousInFlight(cfg, r, checker);
    var db, t := AmbiguousDb(r, checker), Reservation(cfg, r);
    var landed := LandedDb(db, t);
    LateAppend(cfg, us, ts, Land(t), us[|us| - 1].(world := us[|us| - 1].world.(db := landed)));
    Compensates(cfg, landed, r.intentId, officer);
    ws, ss := LateRunCall(cfg, us + [us[|us| - 1].(world := us[|us| - 1].world.(db := landed))], ts + [Land(t)],
                          ResolveOfficer(landed.rows[r.intentId].intent.version, officer, Close), r.intentId);
  }

  lemma AmbiguousIsOk(cfg: Config, r: Intents.Request, checker: string)
    requires Checks(checker, r) && AccountsParse(cfg, r)
    ensures DbOk(cfg, AmbiguousDb(r, checker))
  {
    var us, ts, _ := AmbiguousRun(cfg, r, checker);
    LastOk(cfg, us, ts, AmbiguousDb(r, checker));
  }

  lemma ClosedUnseen(cfg: Config, r: Intents.Request, checker: string, officer: string)
    requires Checks(checker, r) && AccountsParse(cfg, r) && Text.Canonical(officer)
    ensures var db, id := AmbiguousDb(r, checker), r.intentId;
            var end := CallAlone(cfg, db, ResolveOfficer(db.rows[id].intent.version, officer, Close), id);
            && id in end.rows && end.rows[id].intent.state == Voided && end.books == NO_BOOKS
  {
    AmbiguousIsOk(cfg, r, checker);
    ResolveAlone(cfg, AmbiguousDb(r, checker), r.intentId, officer);
  }

  /** A reservation that lands after the officer's CLOSE is not compensated: the intent is VOIDED and its
      reservation is open. No post can follow (LateTerminalForever). TwoPhaseOrphans.VoidedLocksExactly says for
      every run whether a VOIDED intent can still get there. */
  lemma ReservationOutlivesClose(cfg: Config, r: Intents.Request, checker: string, officer: string)
    returns (ws: seq<LateWorld>, ss: seq<LateStep>)
    requires Checks(checker, r) && AccountsParse(cfg, r) && Text.Canonical(officer)
    ensures LateBehaviour(cfg, ws, ss) && r.intentId in ws[|ws| - 1].world.db.rows
    ensures var db, id := ws[|ws| - 1].world.db, r.intentId;
            && db.rows[id].intent.state == Voided
            && PendingId(id) in db.books.transfers && PendingId(id) !in db.books.closed
  {
    var us, ts := AmbiguousInFlight(cfg, r, checker);
    ClosedUnseen(cfg, r, checker, officer);
    var version := AmbiguousDb(r, checker).rows[r.intentId].intent.version;
    us, ts := LateRunCall(cfg, us, ts, ResolveOfficer(version, officer, Close), r.intentId);
    var w, t := us[|us| - 1], Reservation(cfg, r);
    var w' := w.(world := w.world.(db := LandedDb(w.world.db, t)));
    LateAppend(cfg, us, ts, Land(t), w');
    ws, ss := us + [w'], ts + [Land(t)];
  }
}
