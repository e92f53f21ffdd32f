/** Who let an intent pass: maker and checker over whole runs, and what each outbox row is called. */
module TwoPhaseApprovals {
  import opened Wrappers
  import opened Intents
  import opened Ledger
  import opened TwoPhase
  import opened TwoPhaseSafety
  import opened TwoPhaseTheorems
  import Text

  /** The kind of the outbox row a change of state writes. */
  function KindOf(previous: State, next: State): EventKind {
    match previous
    case Draft => if next == Approved then IntentApproved else EventKind.IntentVoided
    case Ambiguous => OfficerResolved
    case _ => StateChanged
  }

  predicate KindsOk(row: Row) {
    forall k :: 0 < k < |row.outbox| ==> row.outbox[k].kind == KindOf(row.outbox[k - 1].state, row.outbox[k].state)
  }

  /** A program moves only the row it read, and never a DRAFT or AMBIGUOUS one. */
  lemma MoverState(cfg: Config, db: Db, p: Proc)
    requires DbOk(cfg, db) && ProcOk(cfg, db, p) && p.Work? && CallAt(p).Move?
    requires CanMove(db, p.id, p.current.version, CallAt(p).next)
    ensures db.rows[p.id].intent.state in {Approved, ReservationRequested, Reserved, ReconciliationRequired}
  {
    assert RowOk(cfg, db, p.id);
  }

  /** The row a step replaced, and the change it made. */
  predicate Changed(row: Row, row': Row) {
    && row'.intent.request == row.intent.request
    && row'.outbox == row.outbox + [Event(KindOf(row.intent.state, row'.intent.state), row'.intent.state)]
    && (row.intent.state != Draft ==> row'.intent.checker == row.intent.checker)
  }

  lemma MoveChanges(db: Db, id: string, next: State, x: string)
    requires id in db.rows && db.rows[id].intent.state !in {Draft, Ambiguous} && x in db.rows
    ensures var db' := Moved(db, id, next); x in db'.rows && (db'.rows[x] == db.rows[x] || (x == id && Changed(db.rows[x], db'.rows[x])))
  {
  }

  lemma ResolveChanges(db: Db, c: Call, r: Reply, db': Db, x: string)
    requires c.Resolve? && Exec(db, c, r, db') && db' != db && x in db.rows
    ensures x in db'.rows
    ensures db'.rows[x] == db.rows[x] || (db.rows[x].intent.state == Ambiguous && Changed(db.rows[x], db'.rows[x]))
  {
  }

  lemma ProcChanges(cfg: Config, w: World, pid: nat, r: Reply, w': World, id: string)
    requires Inv(cfg, w) && Next(cfg, w, Run(pid, r), w') && id in w.db.rows
    ensures id in w'.db.rows
    ensures w'.db.rows[id] == w.db.rows[id] || (w.db.rows[id].intent.state != Draft && Changed(w.db.rows[id], w'.db.rows[id]))
  {
    var p := w.procs[pid];
    if p.Work? && CallAt(p).Move? && w'.db != w.db {
      MoverState(cfg, w.db, p);
      MoveChanges(w.db, p.id, CallAt(p).next, id);
    } else if p.Work? && CallAt(p).Resolve? && w'.db != w.db {
      ResolveChanges(w.db, CallAt(p), r, w'.db, id);
    }
  }

  /** The people's steps on a DRAFT, with who took them. */
  predicate Decided(s: Step, id: string, row: Row, row': Row) {
    if row'.intent.state == Approved then
      && s.ApproveIntent? && s.id == id && row'.intent.checker == Some(s.checker)
      && s.checker != row.intent.request.maker && !Text.Blank(s.checker)
    else
      && s.VoidDraftIntent? && s.id == id && s.actor == row.intent.request.maker
      && row'.intent.state == Voided && row'.intent.checker == row.intent.checker
  }

  lemma StepChanges(cfg: Config, w: World, s: Step, w': World, id: string)
    requires Inv(cfg, w) && Next(cfg, w, s, w') && id in w.db.rows
    ensures id in w'.db.rows
    ensures w'.db.rows[id] == w.db.rows[id] || Changed(w.db.rows[id], w'.db.rows[id])
    ensures w'.db.rows[id] != w.db.rows[id] && w.db.rows[id].intent.state == Draft ==> Decided(s, id, w.db.rows[id], w'.db.rows[id])
  {
    if s.Run? {
      ProcChanges(cfg, w, s.pid, s.reply, w', id);
    }
  }

  /** What is known about a row's checker from its state. */
  predicate CheckerOk(row: Row) { row.intent.state == Draft ==> row.intent.checker.None? && |row.outbox| == 1 }

  lemma NewRow(cfg: Config, w: World, s: Step, w': World, id: string)
    requires Next(cfg, w, s, w') && id !in w.db.rows && id in w'.db.rows
    ensures KindsOk(w'.db.rows[id]) && CheckerOk(w'.db.rows[id]) && w'.db.rows[id].intent.state == Draft
  {
  }

  lemma KindsStep(cfg: Config, w: World, s: Step, w': World, id: string)
    requires Inv(cfg, w) && Inv(cfg, w') && Next(cfg, w, s, w') && id in w'.db.rows
    requires id in w.db.rows ==> KindsOk(w.db.rows[id]) && CheckerOk(w.db.rows[id])
    ensures KindsOk(w'.db.rows[id]) && CheckerOk(w'.db.rows[id])
  {
    if id in w.db.rows {
      StepChanges(cfg, w, s, w', id);
      RowKinds(cfg, w.db, w'.db, id);
    } else {
      NewRow(cfg, w, s, w', id);
    }
  }

  lemma RowKinds(cfg: Config, db: Db, db': Db, id: string)
    requires DbOk(cfg, db) && DbOk(cfg, db') && id in db.rows && id in db'.rows
    requires KindsOk(db.rows[id]) && CheckerOk(db.rows[id])
    requires db'.rows[id] == db.rows[id] || Changed(db.rows[id], db'.rows[id])
    ensures KindsOk(db'.rows[id]) && CheckerOk(db'.rows[id])
  {
    var row, row' := db.rows[id], db'.rows[id];
    assert RowOk(cfg, db, id) && RowOk(cfg, db', id);
    assert row' != row ==> LifecycleMove(row'.outbox[|row.outbox| - 1].state, row'.outbox[|row.outbox|].state);
  }

  lemma {:induction false} KindsAlways(cfg: Config, ws: seq<World>, ss: seq<Step>, k: nat, id: string)
    requires Behaviour(cfg, ws, ss) && k < |ws| && id in ws[k].db.rows
    ensures KindsOk(ws[k].db.rows[id]) && CheckerOk(ws[k].db.rows[id])
  {
    if k > 0 {
      InvAlways(cfg, ws, ss, k - 1);
      InvAlways(cfg, ws, ss, k);
      if id in ws[k - 1].db.rows {
        KindsAlways(cfg, ws, ss, k - 1, id);
      }
      KindsStep(cfg, ws[k - 1], ss[k - 1], ws[k], id);
    }
  }

  /** What a row that left DRAFT owes to the step at which it did. */
  predicate LeftDraft(s: Step, id: string, row: Row) {
    && |row.outbox| >= 2 && (row.outbox[1].state == Approved || row.outbox[1].state == Voided)
    && (row.outbox[1].state == Approved ==>
          && s.ApproveIntent? && s.id == id && row.intent.checker == Some(s.checker)
          && s.checker != row.intent.request.maker && !Text.Blank(s.checker))
    && (row.outbox[1].state == Voided ==>
          && s.VoidDraftIntent? && s.id == id && s.actor == row.intent.request.maker
          && row.intent.checker.None? && |row.outbox| == 2)
  }

  /** The first change of a DRAFT. */
  lemma FirstChange(cfg: Config, w: World, s: Step, w': World, id: string)
    requires Inv(cfg, w) && Inv(cfg, w') && Next(cfg, w, s, w') && id in w.db.rows && id in w'.db.rows
    requires CheckerOk(w.db.rows[id]) && w.db.rows[id].intent.state == Draft && w'.db.rows[id].intent.state != Draft
    ensures LeftDraft(s, id, w'.db.rows[id])
  {
    StepChanges(cfg, w, s, w', id);
  }

  /** Later changes keep who did it; a voided DRAFT has none. */
  lemma LaterChange(cfg: Config, w: World, s: Step, w': World, id: string, first: Step)
    requires Inv(cfg, w) && Next(cfg, w, s, w') && id in w.db.rows && id in w'.db.rows
    requires w.db.rows[id].intent.state != Draft && LeftDraft(first, id, w.db.rows[id])
    ensures LeftDraft(first, id, w'.db.rows[id])
  {
    StepChanges(cfg, w, s, w', id);
    StepGrows(cfg, w, s, w');
    assert RowOk(cfg, w.db, id) && RowGrows(w.db.rows[id], w'.db.rows[id]);
  }

  /** In every run an intent past DRAFT was either approved by somebody other than its maker, whose name it
      carries for ever, or voided as a DRAFT by its maker, and then nothing else ever happened to it. */
  lemma {:induction false} ApprovedByAnother(cfg: Config, ws: seq<World>, ss: seq<Step>, k: nat, id: string) returns (j: nat)
    requires Behaviour(cfg, ws, ss) && k < |ws| && id in ws[k].db.rows && ws[k].db.rows[id].intent.state != Draft
    ensures j < k && LeftDraft(ss[j], id, ws[k].db.rows[id])
  {
    OldRow(cfg, ws, ss, k, id);
    if ws[k - 1].db.rows[id].intent.state == Draft {
      j := k - 1;
    } else {
      j := ApprovedByAnother(cfg, ws, ss, k - 1, id);
      InvAlways(cfg, ws, ss, k - 1);
      LaterChange(cfg, ws[k - 1], ss[k - 1], ws[k], id, ss[j]);
    }
  }

  lemma OldRow(cfg: Config, ws: seq<World>, ss: seq<Step>, k: nat, id: string)
    requires Behaviour(cfg, ws, ss) && k < |ws| && id in ws[k].db.rows && ws[k].db.rows[id].intent.state != Draft
    ensures k > 0 && id in ws[k - 1].db.rows
    ensures ws[k - 1].db.rows[id].intent.state == Draft ==> LeftDraft(ss[k - 1], id, ws[k].db.rows[id])
  {
    InvAlways(cfg, ws, ss, k - 1);
    InvAlways(cfg, ws, ss, k);
    if id in ws[k - 1].db.rows {
      KindsAlways(cfg, ws, ss, k - 1, id);
    }
    LeavesDraft(cfg, ws[k - 1], ss[k - 1], ws[k], id);
  }

  lemma LeavesDraft(cfg: Config, w: World, s: Step, w': World, id: string)
    requires Inv(cfg, w) && Inv(cfg, w') && Next(cfg, w, s, w') && id in w'.db.rows && w'.db.rows[id].intent.state != Draft
    requires id in w.db.rows ==> CheckerOk(w.db.rows[id])
    ensures id in w.db.rows && (w.db.rows[id].intent.state == Draft ==> LeftDraft(s, id, w'.db.rows[id]))
  {
    if id !in w.db.rows {
      NewRow(cfg, w, s, w', id);
    } else if w.db.rows[id].intent.state == Draft {
      FirstChange(cfg, w, s, w', id);
    }
  }

  /** The outbox names every change for what it is. */
  lemma OutboxNamesChanges(cfg: Config, ws: seq<World>, ss: seq<Step>, k: nat, id: string)
    requires Behaviour(cfg, ws, ss) && k < |ws| && id in ws[k].db.rows
    ensures var trail := ws[k].db.rows[id].outbox;
            && |trail| == ws[k].db.rows[id].intent.version >= 1 && trail[0] == Event(IntentCreated, Draft)
            && forall n :: 0 < n < |trail| ==> NamedRight(trail[n - 1], trail[n])
  {
    InvAlways(cfg, ws, ss, k);
    KindsAlways(cfg, ws, ss, k, id);
    assert RowOk(cfg, ws[k].db, id);
    TrailNames(ws[k].db.rows[id]);
  }

  predicate NamedRight(before: Event, e: Event) {
    && (e.kind == IntentApproved <==> e.state == Approved)
    && (e.kind == EventKind.IntentVoided <==> before.state == Draft && e.state == Voided)
    && (e.kind == OfficerResolved <==> before.state == Ambiguous)
    && e.kind != IntentCreated
  }

  lemma TrailNames(row: Row)
    requires TrailOk(row) && KindsOk(row)
    ensures forall n :: 0 < n < |row.outbox| ==> NamedRight(row.outbox[n - 1], row.outbox[n])
  {
    forall n | 0 < n < |row.outbox| ensures NamedRight(row.outbox[n - 1], row.outbox[n]) {
      var a, b := row.outbox[n - 1], row.outbox[n];
      assert LifecycleMove(a.state, b.state) && b.kind == KindOf(a.state, b.state);
    }
  }

  // ---- creation ----

  /** Every intent stands under its own id, moves an amount between two accounts in NGN or USD, and shares its
      external reference with no other. */
  ghost predicate RequestsOk(db: Db) {
    && (forall id :: id in db.rows ==> RequestOk(id, db.rows[id].intent.request))
    && (forall a, b :: a in db.rows && b in db.rows && RefOf(db, a) == RefOf(db, b) ==> a == b)
  }

  function RefOf(db: Db, id: string): string
    requires id in db.rows
  {
    db.rows[id].intent.request.externalRef
  }

  predicate RequestOk(id: string, r: Intents.Request) {
    && r.intentId == id && r.amount > 0 && r.debitAccount != r.creditAccount && r.currency in {"NGN", "USD"}
    && r.maker != "" && r.externalRef != "" && r.ledger > 0 && r.code > 0
  }

  lemma CreateKeepsRequests(db: Db, r: Intents.Request)
    requires RequestsOk(db) && ValidRequest(r)
    ensures RequestsOk(WithIntent(db, r))
  {
    var db' := WithIntent(db, r);
    if db' != db {
      forall a, b | a in db'.rows && b in db'.rows && RefOf(db', a) == RefOf(db', b) ensures a == b {
        assert db'.rows[r.intentId].intent.request == r;
        assert a != r.intentId ==> a in db.rows && RefOf(db', a) == RefOf(db, a);
        assert b != r.intentId ==> b in db.rows && RefOf(db', b) == RefOf(db, b);
      }
    }
  }

  lemma OthersAddNoRow(cfg: Config, w: World, s: Step, w': World)
    requires Next(cfg, w, s, w') && !s.CreateIntent?
    ensures w'.db.rows.Keys == w.db.rows.Keys
  {
    if s.Run? {
      CallAddsNoRow(w.db, CallAt(w.procs[s.pid]), s.reply, w'.db);
    }
  }

  lemma CallAddsNoRow(db: Db, c: Call, r: Reply, db': Db)
    requires Exec(db, c, r, db')
    ensures db'.rows.Keys == db.rows.Keys
  {
  }

  lemma StepKeepsRequests(cfg: Config, w: World, s: Step, w': World)
    requires Inv(cfg, w) && Next(cfg, w, s, w') && RequestsOk(w.db)
    ensures RequestsOk(w'.db)
  {
    if s.CreateIntent? {
      CreateKeepsRequests(w.db, s.request);
    } else {
      OthersAddNoRow(cfg, w, s, w');
      StepGrows(cfg, w, s, w');
      SameRequests(w.db, w'.db);
    }
  }

  lemma SameRequests(db: Db, db': Db)
    requires Grows(db, db') && db'.rows.Keys == db.rows.Keys && RequestsOk(db)
    ensures RequestsOk(db')
  {
    forall id | id in db'.rows ensures db'.rows[id].intent.request == db.rows[id].intent.request {
      assert RowGrows(db.rows[id], db'.rows[id]);
    }
    assert forall id :: id in db'.rows ==> RefOf(db', id) == RefOf(db, id);
  }

  lemma {:induction false} RequestsAlways(cfg: Config, ws: seq<World>, ss: seq<Step>, k: nat)
    requires Behaviour(cfg, ws, ss) && k < |ws|
    ensures RequestsOk(ws[k].db)
  {
    if k > 0 {
      RequestsAlways(cfg, ws, ss, k - 1);
      InvAlways(cfg, ws, ss, k - 1);
      StepKeepsRequests(cfg, ws[k - 1], ss[k - 1], ws[k]);
    }
  }
}
