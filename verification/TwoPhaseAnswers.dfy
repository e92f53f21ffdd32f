/** What each call answers and leaves behind when it runs alone: for every state of the row and every content
    of the ledger, in terms of the row, the transfers and the accounts only. */
module TwoPhaseAnswers {
  import opened Wrappers
  import opened Intents
  import opened Ledger
  import opened TwoPhase
  import opened TwoPhaseProgress
  import Text

  function Answer(cfg: Config, db: Db, task: Task, id: string): Result<Intent, Error> {
    Alone(cfg, db, Begin(task, id)).1.pc.result
  }

  /** The row went through the given states, one version and one outbox row each, and no other row changed. */
  predicate Went(db: Db, end: Db, id: string, states: seq<State>) {
    && id in db.rows && states != []
    && end.rows.Keys == db.rows.Keys && (forall x :: x in db.rows && x != id ==> end.rows[x] == db.rows[x])
    && var row, row' := db.rows[id], end.rows[id];
    && row'.intent == row.intent.(state := states[|states| - 1], version := row.intent.version + |states|)
    && |row'.outbox| == |row.outbox| + |states| && row.outbox <= row'.outbox
    && forall i :: 0 <= i < |states| ==> row'.outbox[|row.outbox| + i] == Event(StateChanged, states[i])
  }

  /** The account's identifier reads as that account. */
  predicate Reads(cfg: Config, text: string, account: nat) { cfg.hex(text) == Some(account) && account != 0 }

  predicate Unreadable(cfg: Config, text: string) { cfg.hex(text).None? || cfg.hex(text) == Some(0) }

  /** The ledger before and after one more transfer, which closes what it resolves. */
  predicate Entered(b: Books, b': Books, t: Transfer) {
    && t.id !in b.transfers && b'.transfers == b.transfers[t.id := t]
    && b'.closed == (if t.pendingId.Some? then b.closed[t.pendingId.value := ClosedBy(t.id)] else b.closed)
  }

  // ---- single calls ----

  lemma RecordAnswers(cfg: Config, db: Db, p: Proc, next: State)
    requires p.Work? && p.pc == Record(next) && CanMove(db, p.id, p.current.version, next)
    ensures var r := Alone(cfg, db, p); r.0 == Moved(db, p.id, next) && r.1.pc == Done(Ok(r.0.rows[p.id].intent))
  {
    OneStep(cfg, db, p);
  }

  lemma ParkAnswers(cfg: Config, db: Db, p: Proc)
    requires p.Work? && p.pc == Park && CanMove(db, p.id, p.current.version, ReconciliationRequired)
    ensures var r := Alone(cfg, db, p); r.0 == Moved(db, p.id, ReconciliationRequired) && r.1.pc.result.Err?
  {
    OneStep(cfg, db, p);
  }

  /** A transfer the ledger refuses parks the intent. */
  lemma RefusedAnswers(cfg: Config, db: Db, p: Proc, t: Transfer)
    requires p.Work? && p.pc == Make(t) && t.id !in db.books.transfers && !Admissible(db.books, t)
    requires !p.task.ReconcileObserved? && !p.task.ResolveOfficer?
    requires CanMove(db, p.id, p.current.version, ReconciliationRequired)
    ensures var r := Alone(cfg, db, p); r.0 == Moved(db, p.id, ReconciliationRequired) && r.1.pc.result.Err?
  {
    OneStep(cfg, db, p);
    ParkAnswers(cfg, db, p.(pc := Park));
  }

  /** A transfer the ledger takes is recorded. */
  lemma MakeAnswers(cfg: Config, db: Db, p: Proc, t: Transfer, next: State)
    requires p.Work? && p.pc == Make(t) && Admissible(db.books, t) && AfterMake(p) == p.(pc := Record(next))
    requires CanMove(db, p.id, p.current.version, next)
    ensures var r := Alone(cfg, db, p);
            && r.0.rows == Moved(db, p.id, next).rows && r.0.books == Insert(db.books, t)
            && r.1.pc == Done(Ok(r.0.rows[p.id].intent))
  {
    MakeAlone(cfg, db, p, t);
    RecordAnswers(cfg, db.(books := Insert(db.books, t)), p.(pc := Record(next)), next);
  }

  lemma MovedWent(db: Db, id: string, next: State)
    requires id in db.rows
    ensures Went(db, Moved(db, id, next), id, [next])
  {
  }

  lemma WentTwice(db: Db, mid: Db, end: Db, id: string, first: State, second: State)
    requires Went(db, mid, id, [first]) && Went(mid, end, id, [second])
    ensures Went(db, end, id, [first, second])
  {
    assert end.rows[id].outbox[|db.rows[id].outbox|] == mid.rows[id].outbox[|db.rows[id].outbox|];
  }

  // ---- calls that end at the read ----

  /** Nothing under the id: every call fails and changes nothing. */
  lemma NobodyThere(cfg: Config, db: Db, task: Task, id: string)
    requires id !in db.rows
    ensures CallAlone(cfg, db, task, id) == db
    ensures Answer(cfg, db, task, id) == Err(if task.ResolveOfficer? && task.resolution.Other? then InvalidResolution else NotFound)
  {
    if Begin(task, id).pc.Read? {
      OneStep(cfg, db, Begin(task, id));
    }
  }

  /** A call finds its work already done, or finds the intent in a state it is not for. */
  lemma DoneBefore(cfg: Config, db: Db, task: Task, id: string)
    requires id in db.rows
    ensures var state := db.rows[id].intent.state;
            && (task.ReserveApproved? && state in {Reserved, Posted} ==> AnswersOnly(cfg, db, task, id, Ok(db.rows[id].intent)))
            && (task.PostReserved? && state == Posted ==> AnswersOnly(cfg, db, task, id, Ok(db.rows[id].intent)))
            && (task.VoidReserved? && state == Voided ==> AnswersOnly(cfg, db, task, id, Ok(db.rows[id].intent)))
            && (task.ReserveApproved? && state !in {Approved, Reserved, Posted} ==> AnswersOnly(cfg, db, task, id, Err(NotReady)))
            && (task.PostReserved? && state !in {Reserved, Posted} ==> AnswersOnly(cfg, db, task, id, Err(NotReady)))
            && (task.VoidReserved? && state !in {Reserved, Voided} ==> AnswersOnly(cfg, db, task, id, Err(NotReady)))
            && (task.ReconcileObserved? && state != ReconciliationRequired ==> AnswersOnly(cfg, db, task, id, Err(NotReady)))
            && (task.ResolveOfficer? && !task.resolution.Other? && state != Ambiguous ==> AnswersOnly(cfg, db, task, id, Err(InvalidState)))
            && (task.ResolveOfficer? && task.resolution.Other? ==> AnswersOnly(cfg, db, task, id, Err(InvalidResolution)))
  {
    if Begin(task, id).pc.Read? {
      OneStep(cfg, db, Begin(task, id));
    }
  }

  /** The call changes nothing and answers r. */
  predicate AnswersOnly(cfg: Config, db: Db, task: Task, id: string, r: Result<Intent, Error>) {
    CallAlone(cfg, db, task, id) == db && Answer(cfg, db, task, id) == r
  }

  // ---- ReserveApproved ----

  /** After the request the accounts are read. */
  lemma RequestAlone(cfg: Config, db: Db, id: string)
    requires id in db.rows && db.rows[id].intent.state == Approved
    ensures var mid := Moved(db, id, ReservationRequested);
            var i := mid.rows[id].intent;
            var bad := Unreadable(cfg, i.request.debitAccount) || Unreadable(cfg, i.request.creditAccount);
            Alone(cfg, db, Begin(ReserveApproved, id))
            == Alone(cfg, mid, Work(ReserveApproved, id, if bad then Park else Look(PendingNs), i, false, false, false))
  {
    ReadAlone(cfg, db, ReserveApproved, id, Ask);
    OneStep(cfg, db, Work(ReserveApproved, id, Ask, db.rows[id].intent, false, false, false));
  }

  /** From APPROVED: an unreadable account, equal accounts or an amount of zero park the intent before the
      ledger is asked for anything new; an existing reservation is taken over; otherwise the intent's own
      reservation, and nothing else, is entered. */
  lemma ReserveAnswers(cfg: Config, db: Db, id: string)
    requires id in db.rows && db.rows[id].intent.state == Approved
    ensures var end, r := CallAlone(cfg, db, ReserveApproved, id), db.rows[id].intent.request;
            var readable := !Unreadable(cfg, r.debitAccount) && !Unreadable(cfg, r.creditAccount);
            var fits := readable && cfg.hex(r.debitAccount) != cfg.hex(r.creditAccount) && r.amount != 0;
            var known := PendingId(id) in db.books.transfers;
            if readable && (known || fits) then
              && Went(db, end, id, [ReservationRequested, Reserved])
              && Answer(cfg, db, ReserveApproved, id) == Ok(end.rows[id].intent)
              && (if known then end.books == db.books else
                    exists debit, credit ::
                      && Reads(cfg, r.debitAccount, debit) && Reads(cfg, r.creditAccount, credit)
                      && Entered(db.books, end.books,
                           Transfer(PendingId(id), debit, credit, r.amount, None, cfg.ledger, cfg.code, Pending))
                      && end.books.debits == db.books.debits && end.books.credits == db.books.credits)
            else
              && Went(db, end, id, [ReservationRequested, ReconciliationRequired])
              && Answer(cfg, db, ReserveApproved, id).Err? && end.books == db.books
  {
    RequestAlone(cfg, db, id);
    var mid := Moved(db, id, ReservationRequested);
    var i := mid.rows[id].intent;
    MovedWent(db, id, ReservationRequested);
    var p := Work(ReserveApproved, id, Look(PendingNs), i, false, false, false);
    if Unreadable(cfg, i.request.debitAccount) || Unreadable(cfg, i.request.creditAccount) {
      ParkAnswers(cfg, mid, p.(pc := Park));
      ParkWent(db, mid, id, mid);
    } else {
      ReserveLooks(cfg, db, mid, p);
    }
  }

  lemma ParkWent(db: Db, mid: Db, id: string, last: Db)
    requires Went(db, mid, id, [ReservationRequested]) && last.rows == mid.rows
    ensures Went(db, Moved(last, id, ReconciliationRequired), id, [ReservationRequested, ReconciliationRequired])
    ensures Went(db, Moved(last, id, Reserved), id, [ReservationRequested, Reserved])
  {
    MovedWent(last, id, ReconciliationRequired);
    MovedWent(last, id, Reserved);
    assert Went(mid, Moved(last, id, ReconciliationRequired), id, [ReconciliationRequired]);
    assert Went(mid, Moved(last, id, Reserved), id, [Reserved]);
    WentTwice(db, mid, Moved(last, id, ReconciliationRequired), id, ReservationRequested, ReconciliationRequired);
    WentTwice(db, mid, Moved(last, id, Reserved), id, ReservationRequested, Reserved);
  }

  lemma ReservingEnters(b: Books, t: Transfer)
    requires t.kind.Pending? && t.pendingId.None? && t.id !in b.transfers
    ensures Admissible(b, t) && Entered(b, Insert(b, t), t)
    ensures Insert(b, t).debits == b.debits && Insert(b, t).credits == b.credits
  {
  }

  lemma ReserveMakes(cfg: Config, db: Db, mid: Db, p: Proc, t: Transfer)
    requires p.Work? && p.task.ReserveApproved? && p.pc == Make(t) && Went(db, mid, p.id, [ReservationRequested])
    requires p.current.version == mid.rows[p.id].intent.version && mid.books == db.books
    requires t.kind.Pending? && t.pendingId.None? && t.id !in db.books.transfers
    ensures var end := Alone(cfg, mid, p);
            && Went(db, end.0, p.id, [ReservationRequested, Reserved]) && end.1.pc.result == Ok(end.0.rows[p.id].intent)
            && Entered(db.books, end.0.books, t)
            && end.0.books.debits == db.books.debits && end.0.books.credits == db.books.credits
  {
    ReservingEnters(db.books, t);
    MakeAnswers(cfg, mid, p, t, Reserved);
    ParkWent(db, mid, p.id, mid);
  }

  lemma ReserveLooks(cfg: Config, db: Db, mid: Db, p: Proc)
    requires p.Work? && p.task.ReserveApproved? && p.pc == Look(PendingNs) && Went(db, mid, p.id, [ReservationRequested])
    requires p.current == mid.rows[p.id].intent && mid.books == db.books
    requires !Unreadable(cfg, p.current.request.debitAccount) && !Unreadable(cfg, p.current.request.creditAccount)
    ensures var id, end, r := p.id, Alone(cfg, mid, p), p.current.request;
            var known := PendingId(id) in db.books.transfers;
            if known || (cfg.hex(r.debitAccount) != cfg.hex(r.creditAccount) && r.amount != 0) then
              && Went(db, end.0, id, [ReservationRequested, Reserved]) && end.1.pc.result == Ok(end.0.rows[id].intent)
              && (if known then end.0.books == db.books else
                    exists debit, credit ::
                      && Reads(cfg, r.debitAccount, debit) && Reads(cfg, r.creditAccount, credit)
                      && Entered(db.books, end.0.books,
                           Transfer(PendingId(id), debit, credit, r.amount, None, cfg.ledger, cfg.code, Pending))
                      && end.0.books.debits == db.books.debits && end.0.books.credits == db.books.credits)
            else
              && Went(db, end.0, id, [ReservationRequested, ReconciliationRequired])
              && end.1.pc.result.Err? && end.0.books == db.books
  {
    var id, r := p.id, p.current.request;
    var known := PendingId(id) in db.books.transfers;
    LookAlone(cfg, mid, p, PendingNs);
    var q := p.(pendingSeen := known);
    ParkWent(db, mid, id, mid);
    if known {
      RecordAnswers(cfg, mid, q.(pc := Record(Reserved)), Reserved);
    } else if cfg.hex(r.debitAccount) != cfg.hex(r.creditAccount) && r.amount != 0 {
      var debit, credit := cfg.hex(r.debitAccount).value, cfg.hex(r.creditAccount).value;
      assert Reads(cfg, r.debitAccount, debit) && Reads(cfg, r.creditAccount, credit);
      var t := Transfer(PendingId(id), debit, credit, r.amount, None, cfg.ledger, cfg.code, Pending);
      ReserveMakes(cfg, db, mid, q.(pc := Make(t)), t);
    } else {
      ParkAnswers(cfg, mid, q.(pc := Park));
    }
  }

  // ---- PostReserved and VoidReserved ----

  /** The reservation is there, unresolved and unexpired. */
  predicate Outstanding(b: Books, id: string) {
    PendingId(id) in b.transfers && b.transfers[PendingId(id)].kind.Pending? && PendingId(id) !in b.closed
  }

  function Added(m: map<nat, nat>, account: nat, amount: nat): map<nat, nat> {
    m[account := amount + (if account in m then m[account] else 0)]
  }

  /** What entering the post and the void of an outstanding reservation does to the ledger. */
  lemma ResolvingEnters(cfg: Config, b: Books, id: string)
    requires Outstanding(b, id)
    ensures var p, t := b.transfers[PendingId(id)], PostTransfer(id, cfg.ledger, cfg.code);
            PostId(id) !in b.transfers ==>
              && Admissible(b, t)
              && Entered(b, Insert(b, t), Transfer(PostId(id), p.debit, p.credit, p.amount, Some(PendingId(id)),
                                                   cfg.ledger, cfg.code, PostPending))
              && Insert(b, t).debits == Added(b.debits, p.debit, p.amount)
              && Insert(b, t).credits == Added(b.credits, p.credit, p.amount)
    ensures var p, t := b.transfers[PendingId(id)], VoidTransfer(id, cfg.ledger, cfg.code);
            VoidId(id) !in b.transfers ==>
              && Admissible(b, t)
              && Entered(b, Insert(b, t), Transfer(VoidId(id), p.debit, p.credit, p.amount, Some(PendingId(id)),
                                                   cfg.ledger, cfg.code, VoidPending))
              && Insert(b, t).debits == b.debits && Insert(b, t).credits == b.credits
  {
  }

  /** From RESERVED: a void in the ledger parks the intent; a post already there is taken over; otherwise an
      outstanding reservation is posted with its own accounts and amount, and anything else parks the intent. */
  lemma PostAnswers(cfg: Config, db: Db, id: string)
    requires id in db.rows && db.rows[id].intent.state == Reserved
    ensures var end, b := CallAlone(cfg, db, PostReserved, id), db.books;
            if VoidId(id) !in b.transfers && (PostId(id) in b.transfers || Outstanding(b, id)) then
              && Went(db, end, id, [Posted]) && Answer(cfg, db, PostReserved, id) == Ok(end.rows[id].intent)
              && (if PostId(id) in b.transfers then end.books == b else
                    var p := b.transfers[PendingId(id)];
                    && Entered(b, end.books, Transfer(PostId(id), p.debit, p.credit, p.amount, Some(PendingId(id)),
                                                      cfg.ledger, cfg.code, PostPending))
                    && end.books.debits == Added(b.debits, p.debit, p.amount)
                    && end.books.credits == Added(b.credits, p.credit, p.amount))
            else
              && Went(db, end, id, [ReconciliationRequired]) && Answer(cfg, db, PostReserved, id).Err? && end.books == b
  {
    var p := Work(PostReserved, id, Look(VoidNs), db.rows[id].intent, false, false, false);
    ReadAlone(cfg, db, PostReserved, id, Look(VoidNs));
    LookAlone(cfg, db, p, VoidNs);
    MovedWent(db, id, ReconciliationRequired);
    MovedWent(db, id, Posted);
    if VoidId(id) in db.books.transfers {
      ParkAnswers(cfg, db, p.(voidSeen := true, pc := Park));
    } else {
      var q := p.(voidSeen := false, pc := Look(PostNs));
      LookAlone(cfg, db, q, PostNs);
      var t := PostTransfer(id, cfg.ledger, cfg.code);
      if PostId(id) in db.books.transfers {
        RecordAnswers(cfg, db, q.(postSeen := true, pc := Record(Posted)), Posted);
      } else if Outstanding(db.books, id) {
        ResolvingEnters(cfg, db.books, id);
        MakeAnswers(cfg, db, q.(postSeen := false, pc := Make(t)), t, Posted);
      } else {
        RefusedAnswers(cfg, db, q.(postSeen := false, pc := Make(t)), t);
      }
    }
  }

  /** The mirror image; a void moves no balance. */
  lemma VoidAnswers(cfg: Config, db: Db, id: string)
    requires id in db.rows && db.rows[id].intent.state == Reserved
    ensures var end, b := CallAlone(cfg, db, VoidReserved, id), db.books;
            if PostId(id) !in b.transfers && (VoidId(id) in b.transfers || Outstanding(b, id)) then
              && Went(db, end, id, [Voided]) && Answer(cfg, db, VoidReserved, id) == Ok(end.rows[id].intent)
              && end.books.debits == b.debits && end.books.credits == b.credits
              && (if VoidId(id) in b.transfers then end.books == b else
                    var p := b.transfers[PendingId(id)];
                    Entered(b, end.books, Transfer(VoidId(id), p.debit, p.credit, p.amount, Some(PendingId(id)),
                                                   cfg.ledger, cfg.code, VoidPending)))
            else
              && Went(db, end, id, [ReconciliationRequired]) && Answer(cfg, db, VoidReserved, id).Err? && end.books == b
  {
    var p := Work(VoidReserved, id, Look(PostNs), db.rows[id].intent, false, false, false);
    ReadAlone(cfg, db, VoidReserved, id, Look(PostNs));
    LookAlone(cfg, db, p, PostNs);
    MovedWent(db, id, ReconciliationRequired);
    MovedWent(db, id, Voided);
    if PostId(id) in db.books.transfers {
      ParkAnswers(cfg, db, p.(postSeen := true, pc := Park));
    } else {
      var q := p.(postSeen := false, pc := Look(VoidNs));
      LookAlone(cfg, db, q, VoidNs);
      var t := VoidTransfer(id, cfg.ledger, cfg.code);
      if VoidId(id) in db.books.transfers {
        RecordAnswers(cfg, db, q.(voidSeen := true, pc := Record(Voided)), Voided);
      } else if Outstanding(db.books, id) {
        ResolvingEnters(cfg, db.books, id);
        MakeAnswers(cfg, db, q.(voidSeen := false, pc := Make(t)), t, Voided);
      } else {
        RefusedAnswers(cfg, db, q.(voidSeen := false, pc := Make(t)), t);
      }
    }
  }

  // ---- ReconcileObserved ----

  /** From RECONCILIATION_REQUIRED: a post without a void is POSTED, a void without a post VOIDED, a
      reservation with neither RESERVED, and nothing at all or a contradiction AMBIGUOUS. */
  lemma ReconcileAnswers(cfg: Config, db: Db, id: string)
    requires id in db.rows && db.rows[id].intent.state == ReconciliationRequired
    ensures var end, t := CallAlone(cfg, db, ReconcileObserved, id), db.books.transfers;
            && end.books == db.books && id in end.rows && Answer(cfg, db, ReconcileObserved, id) == Ok(end.rows[id].intent)
            && (PostId(id) in t && VoidId(id) !in t ==> Went(db, end, id, [Posted]))
            && (PostId(id) !in t && VoidId(id) in t ==> Went(db, end, id, [Voided]))
            && (PendingId(id) in t && PostId(id) !in t && VoidId(id) !in t ==> Went(db, end, id, [Reserved]))
            && (PendingId(id) !in t && PostId(id) !in t && VoidId(id) !in t ==> Went(db, end, id, [Ambiguous]))
            && (PostId(id) in t && VoidId(id) in t ==> Went(db, end, id, [Ambiguous]))
  {
    ReconcileLooks(cfg, db, id);
    var t := db.books.transfers;
    var p := Work(ReconcileObserved, id, Look(VoidNs), db.rows[id].intent, PendingId(id) in t, PostId(id) in t, false);
    LookAlone(cfg, db, p, VoidNs);
    var next := Observed(p.pendingSeen, p.postSeen, VoidId(id) in t);
    RecordAnswers(cfg, db, p.(voidSeen := VoidId(id) in t, pc := Record(next)), next);
    MovedWent(db, id, next);
  }

  // ---- ResolveOfficer ----

  /** The officer's disposition is recorded, or refused and nothing changes. */
  predicate Disposed(db: Db, end: Db, id: string, task: Task, next: State, r: Result<Intent, Error>)
    requires id in db.rows && task.ResolveOfficer?
  {
    if db.rows[id].intent.version == task.expected && Text.Canonical(task.officer) then
      && end.rows.Keys == db.rows.Keys && (forall x :: x in db.rows && x != id ==> end.rows[x] == db.rows[x])
      && end.rows[id].intent == db.rows[id].intent.(state := next, version := db.rows[id].intent.version + 1)
      && end.rows[id].outbox == db.rows[id].outbox + [Event(OfficerResolved, next)]
      && r == Ok(end.rows[id].intent)
    else end.rows == db.rows && r.Err?
  }

  lemma SettleAnswers(cfg: Config, db: Db, p: Proc, next: State)
    requires p.Work? && p.task.ResolveOfficer? && p.pc == Settle && p.id in db.rows && db.rows[p.id].intent.state == Ambiguous
    requires p.task.resolution.Reconcile? ==> next == ReconciliationRequired
    requires p.task.resolution.Close? ==> next == Voided
    requires !p.task.resolution.Other?
    ensures var r := Alone(cfg, db, p); Disposed(db, r.0, p.id, p.task, next, r.1.pc.result) && r.0.books == db.books
  {
    OneStep(cfg, db, p);
  }

  /** RECONCILE of an AMBIGUOUS intent asks the ledger nothing. */
  lemma ReopenAnswers(cfg: Config, db: Db, id: string, task: Task)
    requires id in db.rows && db.rows[id].intent.state == Ambiguous && task.ResolveOfficer? && task.resolution.Reconcile?
    ensures var end := CallAlone(cfg, db, task, id);
            Disposed(db, end, id, task, ReconciliationRequired, Answer(cfg, db, task, id)) && end.books == db.books
  {
    ReadAlone(cfg, db, task, id, Settle);
    SettleAnswers(cfg, db, Work(task, id, Settle, db.rows[id].intent, false, false, false), ReconciliationRequired);
  }

  /** VOID of an AMBIGUOUS intent is refused when the ledger holds a post. A reservation without a void is
      voided first, also when the disposition is then refused for its version or officer; a reservation that
      cannot be voided any more fails the call with nothing changed. */
  lemma CloseAnswers(cfg: Config, db: Db, id: string, task: Task)
    requires id in db.rows && db.rows[id].intent.state == Ambiguous && task.ResolveOfficer? && task.resolution.Close?
    ensures var end, b, answer := CallAlone(cfg, db, task, id), db.books, Answer(cfg, db, task, id);
            if PostId(id) in b.transfers then end == db && answer == Err(ResolutionRejected)
            else if PendingId(id) !in b.transfers || VoidId(id) in b.transfers then
              end.books == b && Disposed(db, end, id, task, Voided, answer)
            else if Outstanding(b, id) then
              var p := b.transfers[PendingId(id)];
              && Disposed(db, end, id, task, Voided, answer)
              && end.books.debits == b.debits && end.books.credits == b.credits
              && Entered(b, end.books, Transfer(VoidId(id), p.debit, p.credit, p.amount, Some(PendingId(id)),
                                                cfg.ledger, cfg.code, VoidPending))
            else end == db && answer.Err?
  {
    ReadAlone(cfg, db, task, id, Look(PostNs));
    var b := db.books;
    var p := Work(task, id, Look(PostNs), db.rows[id].intent, false, false, false);
    LookAlone(cfg, db, p, PostNs);
    if PostId(id) !in b.transfers {
      var p1 := p.(postSeen := false, pc := Look(PendingNs));
      LookAlone(cfg, db, p1, PendingNs);
      var p2 := p1.(pendingSeen := PendingId(id) in b.transfers, pc := Look(VoidNs));
      LookAlone(cfg, db, p2, VoidNs);
      CloseLooks(cfg, db, p2.(voidSeen := VoidId(id) in b.transfers));
    }
  }

  lemma ReleaseAnswers(cfg: Config, db: Db, p: Proc, t: Transfer)
    requires p.Work? && p.task.ResolveOfficer? && p.task.resolution.Close? && p.id in db.rows
    requires db.rows[p.id].intent.state == Ambiguous && p.pc == Make(t) && t == VoidTransfer(p.id, cfg.ledger, cfg.code)
    requires Outstanding(db.books, p.id) && VoidId(p.id) !in db.books.transfers
    ensures var end, b, id := Alone(cfg, db, p), db.books, p.id;
            var r := b.transfers[PendingId(id)];
            && Disposed(db, end.0, id, p.task, Voided, end.1.pc.result)
            && end.0.books.debits == b.debits && end.0.books.credits == b.credits
            && Entered(b, end.0.books, Transfer(VoidId(id), r.debit, r.credit, r.amount, Some(PendingId(id)),
                                                cfg.ledger, cfg.code, VoidPending))
  {
    ResolvingEnters(cfg, db.books, p.id);
    MakeAlone(cfg, db, p, t);
    SettleAnswers(cfg, db.(books := Insert(db.books, t)), p.(pc := Settle), Voided);
  }

  lemma CloseLooks(cfg: Config, db: Db, p: Proc)
    requires p.Work? && p.task.ResolveOfficer? && p.task.resolution.Close? && p.id in db.rows
    requires db.rows[p.id].intent.state == Ambiguous
    requires p.pendingSeen == (PendingId(p.id) in db.books.transfers) && p.voidSeen == (VoidId(p.id) in db.books.transfers)
    ensures var end, b, id := Alone(cfg, db, AfterLook(cfg, p, VoidNs)), db.books, p.id;
            if PendingId(id) !in b.transfers || VoidId(id) in b.transfers then
              end.0.books == b && Disposed(db, end.0, id, p.task, Voided, end.1.pc.result)
            else if Outstanding(b, id) then
              var r := b.transfers[PendingId(id)];
              && Disposed(db, end.0, id, p.task, Voided, end.1.pc.result)
              && end.0.books.debits == b.debits && end.0.books.credits == b.credits
              && Entered(b, end.0.books, Transfer(VoidId(id), r.debit, r.credit, r.amount, Some(PendingId(id)),
                                                  cfg.ledger, cfg.code, VoidPending))
            else end.0 == db && end.1.pc.result.Err?
  {
    var id, b := p.id, db.books;
    if PendingId(id) !in b.transfers || VoidId(id) in b.transfers {
      SettleAnswers(cfg, db, p.(pc := Settle), Voided);
    } else {
      var t := VoidTransfer(id, cfg.ledger, cfg.code);
      if Outstanding(b, id) {
        ReleaseAnswers(cfg, db, p.(pc := Make(t)), t);
      } else {
        OneStep(cfg, db, p.(pc := Make(t)));
      }
    }
  }
}
