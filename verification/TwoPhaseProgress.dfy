/** Progress: what one call does when it runs alone and nothing fails, and when an intent can still
    be closed at all. */
module TwoPhaseProgress {
  import opened Wrappers
  import opened Intents
  import opened Ledger
  import opened TwoPhase
  import opened TwoPhaseSafety
  import opened TwoPhaseTheorems
  import Text

  /** The answer of a store and a ledger that do not fail. */
  function Honest(db: Db, c: Call): (Db, Reply) {
    match c
    case Get(id) => (db, if id in db.rows then RowIs(db.rows[id].intent) else Failure(NotFound))
    case Move(id, expected, next) =>
      if CanMove(db, id, expected, next) then (Moved(db, id, next), RowIs(Moved(db, id, next).rows[id].intent))
      else (db, Failure(Conflict))
    case Resolve(id, expected, officer, resolution) =>
      if id in db.rows && ResolveAmbiguous(db.rows[id].intent, expected, officer, resolution).Ok? then
        var changed := ResolveAmbiguous(db.rows[id].intent, expected, officer, resolution).value;
        var row := Swap(db.rows[id], changed, OfficerResolved);
        (db.(rows := db.rows[id := row]), RowIs(row.intent))
      else (db, Failure(Conflict))
    case Lookup(t) => (db, if t in db.books.transfers then Found(db.books.transfers[t]) else Missing)
    case CreateOne(t) =>
      if t.id in db.books.transfers then (db, Answer(Status.Exists))
      else if Admissible(db.books, t) then (db.(books := Insert(db.books, t)), Answer(Status.Created))
      else (db, Answer(Rejected))
    case CreatePair(_, _) => (db, Failure(Unavailable))
    case NoCall => (db, Failure(Unavailable))
  }

  lemma HonestIsPossible(db: Db, c: Call)
    ensures Exec(db, c, Honest(db, c).1, Honest(db, c).0)
  {
  }

  /** One call run alone to its end. */
  function Alone(cfg: Config, db: Db, p: Proc): (r: (Db, Proc))
    requires p.Work?
    ensures r.1.Work? && r.1.pc.Done?
    decreases Left(p)
  {
    if p.pc.Done? then (db, p)
    else Alone(cfg, Honest(db, CallAt(p)).0, Advance(cfg, p, Honest(db, CallAt(p)).1))
  }

  function CallAlone(cfg: Config, db: Db, task: Task, id: string): Db {
    Alone(cfg, db, Begin(task, id)).0
  }

  lemma OneStep(cfg: Config, db: Db, p: Proc)
    requires p.Work? && !p.pc.Done?
    ensures Alone(cfg, db, p) == Alone(cfg, Honest(db, CallAt(p)).0, Advance(cfg, p, Honest(db, CallAt(p)).1))
  {
  }

  predicate OutstandingState(s: State) { s in {Reserved, ReconciliationRequired, Ambiguous} }

  ghost predicate Lapsed(db: Db, id: string) {
    PendingId(id) in db.books.closed && db.books.closed[PendingId(id)] == Expired
  }

  /** A read that finds the intent in the state the call is for. */
  lemma ReadAlone(cfg: Config, db: Db, task: Task, id: string, next: Pc)
    requires id in db.rows && Begin(task, id).pc.Read?
    requires AfterRead(Work(task, id, Read, db.rows[id].intent, false, false, false)).pc == next
    ensures var p := Work(task, id, next, db.rows[id].intent, false, false, false);
            Alone(cfg, db, Begin(task, id)) == Alone(cfg, db, p)
  {
    OneStep(cfg, db, Begin(task, id));
    assert AfterRead(Work(task, id, Read, db.rows[id].intent, false, false, false)) == Work(task, id, next, db.rows[id].intent, false, false, false);
  }

  /** A record made under a current reading. */
  lemma RecordAlone(cfg: Config, db: Db, p: Proc, next: State)
    requires p.Work? && p.pc == Record(next) && CanMove(db, p.id, p.current.version, next)
    ensures Alone(cfg, db, p).0 == Moved(db, p.id, next)
  {
    OneStep(cfg, db, p);
  }

  lemma LookAlone(cfg: Config, db: Db, p: Proc, ns: Namespace)
    requires p.Work? && p.pc == Look(ns)
    ensures var q := AfterLook(cfg, Note(p, ns, TransferId(ns, p.id) in db.books.transfers), ns);
            Alone(cfg, db, p) == Alone(cfg, db, q)
  {
    OneStep(cfg, db, p);
  }

  /** A post or void of an open reservation, looked up by nobody before. */
  lemma MakeAlone(cfg: Config, db: Db, p: Proc, t: Transfer)
    requires p.Work? && p.pc == Make(t) && Admissible(db.books, t)
    ensures Alone(cfg, db, p) == Alone(cfg, db.(books := Insert(db.books, t)), AfterMake(p))
  {
    OneStep(cfg, db, p);
  }

  /** PostReserved alone: with no void in the ledger and an unexpired reservation the intent ends
      POSTED and the post is in the ledger. */
  lemma PostAlone(cfg: Config, db: Db, id: string)
    requires BooksOk(db.books) && id in db.rows && db.rows[id].intent.state == Reserved
    requires PendingId(id) in db.books.transfers && VoidId(id) !in db.books.transfers && !Lapsed(db, id)
    ensures var end := CallAlone(cfg, db, PostReserved, id);
            && id in end.rows && end.rows[id].intent.state == Posted && PostId(id) in end.books.transfers
  {
    var p := Work(PostReserved, id, Look(VoidNs), db.rows[id].intent, false, false, false);
    ReadAlone(cfg, db, PostReserved, id, Look(VoidNs));
    LookAlone(cfg, db, p, VoidNs);
    var p1 := p.(voidSeen := false, pc := Look(PostNs));
    LookAlone(cfg, db, p1, PostNs);
    if PostId(id) in db.books.transfers {
      RecordAlone(cfg, db, p1.(postSeen := true, pc := Record(Posted)), Posted);
    } else {
      var t := PostTransfer(id, cfg.ledger, cfg.code);
      OpenReservation(cfg, db, id);
      MakeAlone(cfg, db, p1.(postSeen := false, pc := Make(t)), t);
      RecordAlone(cfg, db.(books := Insert(db.books, t)), p1.(postSeen := false, pc := Record(Posted)), Posted);
    }
  }

  lemma ClosedByPostOrVoid(b: Books, id: string)
    requires BooksOk(b) && PendingId(id) in b.closed && b.closed[PendingId(id)].ClosedBy?
    ensures PostId(id) in b.transfers || VoidId(id) in b.transfers
  {
    assert ClosureOk(b, PendingId(id));
    assert WellFormed(b.transfers[b.closed[PendingId(id)].id]);
  }

  /** A reservation neither posted nor voided nor expired is open. */
  lemma OpenReservation(cfg: Config, db: Db, id: string)
    requires BooksOk(db.books) && PendingId(id) in db.books.transfers && !Lapsed(db, id)
    requires PostId(id) !in db.books.transfers && VoidId(id) !in db.books.transfers
    ensures Admissible(db.books, PostTransfer(id, cfg.ledger, cfg.code))
    ensures Admissible(db.books, VoidTransfer(id, cfg.ledger, cfg.code))
  {
    assert WellFormed(db.books.transfers[PendingId(id)]);
    if PendingId(id) in db.books.closed && db.books.closed[PendingId(id)].ClosedBy? {
      ClosedByPostOrVoid(db.books, id);
    }
  }

  /** VoidReserved alone, the mirror image. */
  lemma VoidAlone(cfg: Config, db: Db, id: string)
    requires BooksOk(db.books) && id in db.rows && db.rows[id].intent.state == Reserved
    requires PendingId(id) in db.books.transfers && PostId(id) !in db.books.transfers && !Lapsed(db, id)
    ensures var end := CallAlone(cfg, db, VoidReserved, id);
            && id in end.rows && end.rows[id].intent.state == Voided && VoidId(id) in end.books.transfers
  {
    var p := Work(VoidReserved, id, Look(PostNs), db.rows[id].intent, false, false, false);
    ReadAlone(cfg, db, VoidReserved, id, Look(PostNs));
    LookAlone(cfg, db, p, PostNs);
    var p1 := p.(postSeen := false, pc := Look(VoidNs));
    LookAlone(cfg, db, p1, VoidNs);
    if VoidId(id) in db.books.transfers {
      RecordAlone(cfg, db, p1.(voidSeen := true, pc := Record(Voided)), Voided);
    } else {
      var t := VoidTransfer(id, cfg.ledger, cfg.code);
      OpenReservation(cfg, db, id);
      MakeAlone(cfg, db, p1.(voidSeen := false, pc := Make(t)), t);
      RecordAlone(cfg, db.(books := Insert(db.books, t)), p1.(voidSeen := false, pc := Record(Voided)), Voided);
    }
  }

  /** The first two lookups of ReconcileObserved. */
  lemma ReconcileLooks(cfg: Config, db: Db, id: string)
    requires id in db.rows && db.rows[id].intent.state == ReconciliationRequired
    ensures var p := Work(ReconcileObserved, id, Look(VoidNs), db.rows[id].intent, PendingId(id) in db.books.transfers,
                          PostId(id) in db.books.transfers, false);
            Alone(cfg, db, Begin(ReconcileObserved, id)) == Alone(cfg, db, p)
  {
    var p := Work(ReconcileObserved, id, Look(PendingNs), db.rows[id].intent, false, false, false);
    ReadAlone(cfg, db, ReconcileObserved, id, Look(PendingNs));
    LookAlone(cfg, db, p, PendingNs);
    LookAlone(cfg, db, p.(pendingSeen := PendingId(id) in db.books.transfers, pc := Look(PostNs)), PostNs);
  }

  /** The last lookup and the record it leads to. */
  lemma LastLookAlone(cfg: Config, db: Db, p: Proc)
    requires p.Work? && p.task.ReconcileObserved? && p.pc == Look(VoidNs) && p.id in db.rows
    requires db.rows[p.id].intent.state == ReconciliationRequired && db.rows[p.id].intent.version == p.current.version
    ensures Alone(cfg, db, p).0 == Moved(db, p.id, Observed(p.pendingSeen, p.postSeen, VoidId(p.id) in db.books.transfers))
  {
    LookAlone(cfg, db, p, VoidNs);
    var next := Observed(p.pendingSeen, p.postSeen, VoidId(p.id) in db.books.transfers);
    RecordAlone(cfg, db, p.(voidSeen := VoidId(p.id) in db.books.transfers, pc := Record(next)), next);
  }

  /** ReconcileObserved alone records what the three lookups show and touches no money. */
  lemma ReconcileAlone(cfg: Config, db: Db, id: string)
    requires id in db.rows && db.rows[id].intent.state == ReconciliationRequired
    ensures var end := CallAlone(cfg, db, ReconcileObserved, id);
            && end == Moved(db, id, Observed(PendingId(id) in db.books.transfers, PostId(id) in db.books.transfers,
                                             VoidId(id) in db.books.transfers))
  {
    ReconcileLooks(cfg, db, id);
    LastLookAlone(cfg, db, Work(ReconcileObserved, id, Look(VoidNs), db.rows[id].intent, PendingId(id) in db.books.transfers,
                                PostId(id) in db.books.transfers, false));
  }

  /** The officer's VOID of an AMBIGUOUS intent, alone and at the current version. */
  lemma ResolveAlone(cfg: Config, db: Db, id: string, officer: string)
    requires id in db.rows && db.rows[id].intent.state == Ambiguous && Text.Canonical(officer)
    requires PostId(id) !in db.books.transfers && PendingId(id) !in db.books.transfers && VoidId(id) !in db.books.transfers
    ensures var end := CallAlone(cfg, db, ResolveOfficer(db.rows[id].intent.version, officer, Close), id);
            && id in end.rows && end.rows[id].intent.state == Voided && end.books == db.books
  {
    var task := ResolveOfficer(db.rows[id].intent.version, officer, Close);
    var p := Work(task, id, Look(PostNs), db.rows[id].intent, false, false, false);
    ReadAlone(cfg, db, task, id, Look(PostNs));
    LookAlone(cfg, db, p, PostNs);
    var p1 := p.(postSeen := false, pc := Look(PendingNs));
    LookAlone(cfg, db, p1, PendingNs);
    var p2 := p1.(pendingSeen := false, pc := Look(VoidNs));
    LookAlone(cfg, db, p2, VoidNs);
    OneStep(cfg, db, p2.(voidSeen := false, pc := Settle));
  }

  /** The call an operator makes next, from the state and the ledger evidence. */
  function Suitable(db: Db, id: string, officer: string): Task
    requires id in db.rows
  {
    match db.rows[id].intent.state
    case Reserved => if VoidId(id) in db.books.transfers then VoidReserved else PostReserved
    case Ambiguous => ResolveOfficer(db.rows[id].intent.version, officer, Close)
    case _ => ReconcileObserved
  }

  /** Closed, and closed the way the ledger shows. */
  predicate ClosedTruly(db: Db, id: string) {
    && id in db.rows
    && (|| (db.rows[id].intent.state == Posted && PostId(id) in db.books.transfers)
        || (db.rows[id].intent.state == Voided && PostId(id) !in db.books.transfers))
  }

  lemma ClosesFromReserved(cfg: Config, db: Db, id: string, officer: string)
    requires DbOk(cfg, db) && id in db.rows && !Lapsed(db, id)
    requires db.rows[id].intent.state in {Reserved, Ambiguous} && Text.Canonical(officer)
    ensures ClosedTruly(CallAlone(cfg, db, Suitable(db, id, officer), id), id)
  {
    assert RowOk(cfg, db, id);
    PostExcludesVoid(db.books, id);
    if db.rows[id].intent.state == Ambiguous {
      ResolveAlone(cfg, db, id, officer);
    } else if VoidId(id) in db.books.transfers {
      VoidAlone(cfg, db, id);
      VoidKeepsPostOut(cfg, db, id);
    } else {
      PostAlone(cfg, db, id);
    }
  }

  lemma VoidKeepsPostOut(cfg: Config, db: Db, id: string)
    requires DbOk(cfg, db) && id in db.rows && db.rows[id].intent.state == Reserved
    requires PostId(id) !in db.books.transfers && VoidId(id) in db.books.transfers
    ensures CallAlone(cfg, db, VoidReserved, id).books == db.books
  {
    var p := Work(VoidReserved, id, Look(PostNs), db.rows[id].intent, false, false, false);
    assert RowOk(cfg, db, id);
    ReadAlone(cfg, db, VoidReserved, id, Look(PostNs));
    LookAlone(cfg, db, p, PostNs);
    var p1 := p.(postSeen := false, pc := Look(VoidNs));
    LookAlone(cfg, db, p1, VoidNs);
    RecordAlone(cfg, db, p1.(voidSeen := true, pc := Record(Voided)), Voided);
  }

  /** From RESERVED, RECONCILIATION_REQUIRED or AMBIGUOUS, with the reservation unexpired, two suitable
      calls run alone close the intent, and close it the way the ledger shows. */
  lemma ClosesInTwoCalls(cfg: Config, db: Db, id: string, officer: string)
    requires DbOk(cfg, db) && id in db.rows && !Lapsed(db, id)
    requires OutstandingState(db.rows[id].intent.state) && Text.Canonical(officer)
    ensures var one := CallAlone(cfg, db, Suitable(db, id, officer), id);
            && id in one.rows
            && (|| ClosedTruly(one, id)
                || ClosedTruly(CallAlone(cfg, one, Suitable(one, id, officer), id), id))
  {
    assert RowOk(cfg, db, id);
    if db.rows[id].intent.state == ReconciliationRequired {
      ReconcileAlone(cfg, db, id);
      PostExcludesVoid(db.books, id);
      var next := Observed(PendingId(id) in db.books.transfers, PostId(id) in db.books.transfers,
                           VoidId(id) in db.books.transfers);
      var one := Moved(db, id, next);
      if !Terminal(next) {
        assert one.rows[id] == Swap(db.rows[id], db.rows[id].intent.(state := next), StateChanged);
        SwapKeepsDb(cfg, db, one, id, next);
        ClosesFromReserved(cfg, one, id, officer);
      }
    } else {
      ClosesFromReserved(cfg, db, id, officer);
    }
  }

  // ---- closing is possible exactly when the reservation has not lapsed ----

  lemma AppendStep(cfg: Config, ws: seq<World>, ss: seq<Step>, s: Step, w: World)
    requires Behaviour(cfg, ws, ss) && Next(cfg, ws[|ws| - 1], s, w)
    ensures Behaviour(cfg, ws + [w], ss + [s])
  {
    var us, ts := ws + [w], ss + [s];
    forall k | 0 <= k < |ts| ensures Next(cfg, us[k], ts[k], us[k + 1]) {
      if k < |ss| {
        assert us[k] == ws[k] && ts[k] == ss[k] && us[k + 1] == ws[k + 1];
      }
    }
  }

  /** A run continued by one process working alone. */
  lemma {:induction false} RunAlone(cfg: Config, ws: seq<World>, ss: seq<Step>, pid: nat)
    returns (us: seq<World>, ts: seq<Step>)
    requires Behaviour(cfg, ws, ss) && pid in ws[|ws| - 1].procs && ws[|ws| - 1].procs[pid].Work?
    ensures Behaviour(cfg, us, ts) && ws <= us && ss <= ts
    ensures us[|us| - 1].db == Alone(cfg, ws[|ws| - 1].db, ws[|ws| - 1].procs[pid]).0
    decreases Left(ws[|ws| - 1].procs[pid])
  {
    var w := ws[|ws| - 1];
    var p := w.procs[pid];
    if p.pc.Done? {
      us, ts := ws, ss;
    } else {
      var (db, r) := Honest(w.db, CallAt(p));
      HonestIsPossible(w.db, CallAt(p));
      var w' := World(db, w.procs[pid := Advance(cfg, p, r)]);
      AppendStep(cfg, ws, ss, Run(pid, r), w');
      us, ts := RunAlone(cfg, ws + [w'], ss + [Run(pid, r)], pid);
    }
  }

  lemma {:induction false} FreshAbove(ids: set<nat>) returns (above: nat)
    ensures forall x :: x in ids ==> x < above
  {
    if ids == {} {
      above := 0;
    } else {
      var x :| x in ids;
      var bound := FreshAbove(ids - {x});
      above := if x < bound then bound else x + 1;
      forall y | y in ids ensures y < above {
        if y != x {
          assert y in ids - {x};
        }
      }
    }
  }

  /** A run continued by a new call working alone. */
  lemma RunCall(cfg: Config, ws: seq<World>, ss: seq<Step>, task: Task, id: string)
    returns (us: seq<World>, ts: seq<Step>)
    requires Behaviour(cfg, ws, ss)
    ensures Behaviour(cfg, us, ts) && ws <= us && ss <= ts
    ensures us[|us| - 1].db == CallAlone(cfg, ws[|ws| - 1].db, task, id)
  {
    var w := ws[|ws| - 1];
    var pid := FreshAbove(w.procs.Keys);
    var w' := w.(procs := w.procs[pid := Begin(task, id)]);
    AppendStep(cfg, ws, ss, Start(pid, Begin(task, id)), w');
    us, ts := RunAlone(cfg, ws + [w'], ss + [Start(pid, Begin(task, id))], pid);
  }

  ghost predicate CanStillClose(cfg: Config, ws: seq<World>, ss: seq<Step>, id: string) {
    exists us: seq<World>, ts: seq<Step> :: Behaviour(cfg, us, ts) && ws <= us
                     && id in us[|us| - 1].db.rows && Terminal(us[|us| - 1].db.rows[id].intent.state)
  }

  /** Whatever happened so far, an outstanding intent can still be closed if and only if its
      reservation has not expired in the ledger. */
  lemma ClosableIffUnexpired(cfg: Config, ws: seq<World>, ss: seq<Step>, id: string)
    requires Behaviour(cfg, ws, ss) && id in ws[|ws| - 1].db.rows
    requires OutstandingState(ws[|ws| - 1].db.rows[id].intent.state)
    ensures CanStillClose(cfg, ws, ss, id) <==> !Lapsed(ws[|ws| - 1].db, id)
  {
    var db := ws[|ws| - 1].db;
    if Lapsed(db, id) {
      forall us: seq<World>, ts: seq<Step> | Behaviour(cfg, us, ts) && ws <= us && id in us[|us| - 1].db.rows
        ensures !Terminal(us[|us| - 1].db.rows[id].intent.state)
      {
        ExpiredNeverCloses(cfg, us, ts, |ws| - 1, |us| - 1, id);
      }
    } else {
      DbAlways(cfg, ws, ss, |ws| - 1);
      var officer := "officer";
      ClosesInTwoCalls(cfg, db, id, officer);
      var us, ts := RunCall(cfg, ws, ss, Suitable(db, id, officer), id);
      var one := us[|us| - 1].db;
      if !ClosedTruly(one, id) {
        us, ts := RunCall(cfg, us, ts, Suitable(one, id, officer), id);
      }
      assert ws <= us && Behaviour(cfg, us, ts);
    }
  }
}
