/** What the invariant of TwoPhaseSafety means for whole runs: the two systems agree for ever, money
    is conserved, and the two ways an intent can get stuck. */
module TwoPhaseTheorems {
  import opened Wrappers
  import opened Intents
  import opened Ledger
  import opened TwoPhase
  import opened TwoPhaseSafety

  // ---- what one step may change ----

  /** A row is kept, or replaced by its successor version with one more outbox row. */
  predicate RowGrows(r: Row, r': Row) {
    || r' == r
    || (&& r'.intent.request == r.intent.request
        && LifecycleMove(r.intent.state, r'.intent.state)
        && r'.intent.version == r.intent.version + 1
        && r.outbox <= r'.outbox)
  }

  ghost predicate Grows(db: Db, db': Db) {
    && (forall id :: id in db.rows ==> id in db'.rows && RowGrows(db.rows[id], db'.rows[id]))
    && (forall t :: t in db.books.transfers ==>
          t in db'.books.transfers && db'.books.transfers[t] == db.books.transfers[t])
    && (forall p :: p in db.books.closed ==> p in db'.books.closed && db'.books.closed[p] == db.books.closed[p])
    && (forall id :: PendingId(id) in db'.books.transfers && PendingId(id) !in db.books.transfers ==>
          id in db.rows && db.rows[id].intent.state == ReservationRequested)
  }

  lemma EntryGrows(cfg: Config, db: Db, db': Db, t: Transfer)
    requires Entered(cfg, db, db', t)
    ensures Grows(db, db')
  {
  }

  lemma SwapGrows(db: Db, db': Db, id: string, next: State)
    requires Swapped(db, db', id, next)
    ensures Grows(db, db')
  {
  }

  lemma PairGrows(cfg: Config, db: Db, p: Proc, r: Reply, db': Db)
    requires DbOk(cfg, db) && p.Payout? && Exec(db, CreatePair(FeeLeg(p.input), CostLeg(p.input)), r, db')
    ensures Grows(db, db')
  {
    var t1, t2 := FeeLeg(p.input), CostLeg(p.input);
    PairEntered(cfg, db, t1, t2, r, db');
    var mid := Midway(db, t1, db');
    if mid != db {
      EntryGrows(cfg, db, mid, t1);
    }
    if db' != mid {
      EntryGrows(cfg, mid, db', t2);
    }
  }

  lemma RunGrows(cfg: Config, w: World, pid: nat, r: Reply, w': World)
    requires Inv(cfg, w) && Next(cfg, w, Run(pid, r), w')
    ensures Grows(w.db, w'.db)
  {
    var p := w.procs[pid];
    if p.Payout? && p.step.Send? {
      PairGrows(cfg, w.db, p, r, w'.db);
    } else if w'.db == w.db {
    } else if CallAt(p).CreateOne? {
      MakeStepKeepsInv(cfg, w, pid, r, w');
      EntryGrows(cfg, w.db, w'.db, p.pc.transfer);
    } else if CallAt(p).Resolve? {
      ResolveStepKeepsInv(cfg, w, pid, r, w');
      var next :| Swapped(w.db, w'.db, p.id, next);
      SwapGrows(w.db, w'.db, p.id, next);
    } else {
      MoveStepKeepsInv(cfg, w, pid, CallAt(p).next, r, w');
      SwapGrows(w.db, w'.db, p.id, CallAt(p).next);
    }
  }

  lemma CreateGrows(db: Db, request: Intents.Request)
    ensures Grows(db, WithIntent(db, request))
  {
  }

  /** Approval and the maker's void replace one row by its successor. */
  lemma PeopleGrow(db: Db, id: string, changed: Intent, kind: EventKind)
    requires id in db.rows && db.rows[id].intent.state == Draft
    requires changed.request == db.rows[id].intent.request && changed.state in {Approved, Voided}
    ensures Grows(db, db.(rows := db.rows[id := Swap(db.rows[id], changed, kind)]))
  {
  }

  lemma StepGrows(cfg: Config, w: World, s: Step, w': World)
    requires Inv(cfg, w) && Next(cfg, w, s, w')
    ensures Grows(w.db, w'.db)
  {
    match s
    case CreateIntent(request) => CreateGrows(w.db, request);
    case ApproveIntent(id, _, checker) => PeopleGrow(w.db, id, Approve(w.db.rows[id].intent, checker).value, IntentApproved);
    case VoidDraftIntent(id, expected, actor) =>
      PeopleGrow(w.db, id, VoidDraft(w.db.rows[id].intent, expected, actor).value, IntentVoided);
    case Run(pid, reply) => RunGrows(cfg, w, pid, reply, w');
    case _ =>
  }

  lemma LastGrows(cfg: Config, ws: seq<World>, ss: seq<Step>, m: nat)
    requires Behaviour(cfg, ws, ss) && 0 < m < |ws|
    ensures Grows(ws[m - 1].db, ws[m].db)
  {
    InvAlways(cfg, ws, ss, m - 1);
    StepGrows(cfg, ws[m - 1], ss[m - 1], ws[m]);
  }

  /** What any number of steps may change. */
  ghost predicate Extends(db: Db, db': Db) {
    && (forall id :: id in db.rows ==> id in db'.rows && RowExtends(db.rows[id], db'.rows[id]))
    && (forall t :: t in db.books.transfers ==>
          t in db'.books.transfers && db'.books.transfers[t] == db.books.transfers[t])
    && (forall p :: p in db.books.closed ==> p in db'.books.closed && db'.books.closed[p] == db.books.closed[p])
    && (forall id | id in db.rows && Rank(db.rows[id].intent.state) == 3 && PendingId(id) !in db.books.transfers ::
          PendingId(id) !in db'.books.transfers)
  }

  predicate RowExtends(r: Row, r': Row) {
    && r'.intent.request == r.intent.request
    && r.outbox <= r'.outbox
    && Rank(r.intent.state) <= Rank(r'.intent.state)
    && (Terminal(r.intent.state) ==> r' == r)
  }

  lemma ExtendsThenGrows(a: Db, b: Db, c: Db)
    requires Extends(a, b) && Grows(b, c)
    ensures Extends(a, c)
  {
    forall id | id in a.rows ensures id in c.rows && RowExtends(a.rows[id], c.rows[id]) {
      assert RowExtends(a.rows[id], b.rows[id]) && RowGrows(b.rows[id], c.rows[id]);
    }
    forall id | id in a.rows && Rank(a.rows[id].intent.state) == 3 && PendingId(id) !in a.books.transfers
      ensures PendingId(id) !in c.books.transfers
    {
      assert RowExtends(a.rows[id], b.rows[id]);
    }
  }

  lemma ExtendsItself(db: Db)
    ensures Extends(db, db)
  {
  }

  lemma ExtendsOneMore(cfg: Config, ws: seq<World>, ss: seq<Step>, k: nat, m: nat)
    requires Behaviour(cfg, ws, ss) && k < m < |ws| && Extends(ws[k].db, ws[m - 1].db)
    ensures Extends(ws[k].db, ws[m].db)
  {
    LastGrows(cfg, ws, ss, m);
    ExtendsThenGrows(ws[k].db, ws[m - 1].db, ws[m].db);
  }

  lemma {:induction false} RunExtends(cfg: Config, ws: seq<World>, ss: seq<Step>, k: nat, m: nat)
    requires Behaviour(cfg, ws, ss) && k <= m < |ws|
    ensures Extends(ws[k].db, ws[m].db)
  {
    if k < m {
      RunExtends(cfg, ws, ss, k, m - 1);
      ExtendsOneMore(cfg, ws, ss, k, m);
    } else {
      ExtendsItself(ws[k].db);
    }
  }

  lemma DbAlways(cfg: Config, ws: seq<World>, ss: seq<Step>, k: nat)
    requires Behaviour(cfg, ws, ss) && k < |ws|
    ensures DbOk(cfg, ws[k].db)
  {
    InvAlways(cfg, ws, ss, k);
  }

  // ---- the two systems agree ----

  /** The posted transfer moves exactly the intent's money between the intent's accounts. */
  predicate PostedAs(cfg: Config, b: Books, r: Intents.Request) {
    && PostId(r.intentId) in b.transfers
    && var t := b.transfers[PostId(r.intentId)];
    && t.kind.PostPending? && t.amount == r.amount
    && Some(t.debit) == ParseId(cfg, r.debitAccount)
    && Some(t.credit) == ParseId(cfg, r.creditAccount)
    && VoidId(r.intentId) !in b.transfers
  }

  /** At every point of every run: a POSTED intent's own money has moved and no void exists, a VOIDED
      intent has no post and locks no funds, its reservation being voided or absent, a RESERVED intent has
      its reservation, and an intent not yet requested or declared AMBIGUOUS has nothing in the ledger. */
  lemma RowMatchesLedger(cfg: Config, ws: seq<World>, ss: seq<Step>, k: nat, id: string)
    requires Behaviour(cfg, ws, ss) && k < |ws| && id in ws[k].db.rows
    ensures var db := ws[k].db;
            var intent := db.rows[id].intent;
            && intent.request.intentId == id
            && (intent.state == Posted ==> PostedAs(cfg, db.books, intent.request))
            && (intent.state == Voided ==>
                  PostId(id) !in db.books.transfers
                  && (PendingId(id) in db.books.transfers ==>
                        PendingId(id) in db.books.closed && db.books.closed[PendingId(id)] == ClosedBy(VoidId(id))))
            && (intent.state == Reserved ==>
                  PendingId(id) in db.books.transfers
                  && ReservationOf(cfg, intent.request, db.books.transfers[PendingId(id)]))
            && (intent.state in {Draft, Approved, Ambiguous} ==>
                  PendingId(id) !in db.books.transfers && PostId(id) !in db.books.transfers
                  && VoidId(id) !in db.books.transfers)
  {
    InvAlways(cfg, ws, ss, k);
    var db := ws[k].db;
    assert RowOk(cfg, db, id);
    PostExcludesVoid(db.books, id);
    assert VoidId(id) in db.books.transfers ==> ResolvesItsPending(db.books, VoidId(id));
    if PostId(id) in db.books.transfers {
      assert ResolvesItsPending(db.books, PostId(id));
    }
  }

  /** Terminal means terminal: from the moment an intent is POSTED or VOIDED its row never changes
      again, and the opposite ledger transfer can never appear, stale processes included. */
  lemma TerminalForever(cfg: Config, ws: seq<World>, ss: seq<Step>, k: nat, m: nat, id: string)
    requires Behaviour(cfg, ws, ss) && k <= m < |ws|
    requires id in ws[k].db.rows && Terminal(ws[k].db.rows[id].intent.state)
    ensures id in ws[m].db.rows && ws[m].db.rows[id] == ws[k].db.rows[id]
    ensures ws[k].db.rows[id].intent.state == Posted ==> VoidId(id) !in ws[m].db.books.transfers
    ensures ws[k].db.rows[id].intent.state == Voided ==> PostId(id) !in ws[m].db.books.transfers
  {
    RunExtends(cfg, ws, ss, k, m);
    RowMatchesLedger(cfg, ws, ss, m, id);
  }

  /** When a failed create takes effect at once or never, an intent once AMBIGUOUS never had a ledger
      transfer and never gets one. TwoPhaseLate drops that condition. */
  lemma AmbiguousMovesNothing(cfg: Config, ws: seq<World>, ss: seq<Step>, k: nat, m: nat, id: string)
    requires Behaviour(cfg, ws, ss) && k <= m < |ws|
    requires id in ws[k].db.rows && ws[k].db.rows[id].intent.state == Ambiguous
    ensures id in ws[m].db.rows && Rank(ws[m].db.rows[id].intent.state) == 3
    ensures PendingId(id) !in ws[m].db.books.transfers
    ensures PostId(id) !in ws[m].db.books.transfers && VoidId(id) !in ws[m].db.books.transfers
  {
    RunExtends(cfg, ws, ss, k, m);
    DbAlways(cfg, ws, ss, k);
    DbAlways(cfg, ws, ss, m);
    assert RowOk(cfg, ws[k].db, id);
    PostExcludesVoid(ws[m].db.books, id);
  }

  /** Hence, under the same condition, the resolver's compensating void is never sent. A create that
      lands late does reach it (TwoPhaseCompensation.CompensationHappens). */
  lemma CompensationNeverSent(cfg: Config, ws: seq<World>, ss: seq<Step>, k: nat, pid: nat)
    requires Behaviour(cfg, ws, ss) && k < |ws| && pid in ws[k].procs
    requires ws[k].procs[pid].Work? && ws[k].procs[pid].task.ResolveOfficer?
    ensures !CallAt(ws[k].procs[pid]).CreateOne?
  {
    InvAlways(cfg, ws, ss, k);
    assert ProcOk(cfg, ws[k].db, ws[k].procs[pid]);
  }

  ghost predicate WasReserved(row: Row) { exists e :: e in row.outbox && e.state == Reserved }

  lemma ReservedBefore(before: Row, row: Row)
    requires TrailOk(before) && TrailOk(row) && RowGrows(before, row) && WasReserved(row) && row.intent.state != Reserved
    ensures WasReserved(before)
  {
    var i :| 0 <= i < |row.outbox| && row.outbox[i].state == Reserved;
    if i < |before.outbox| {
      assert before.outbox[i] == row.outbox[i];
    }
  }

  lemma ReservedStep(cfg: Config, w: World, s: Step, w': World, id: string)
    requires Inv(cfg, w) && Inv(cfg, w') && Next(cfg, w, s, w') && id in w'.db.rows && WasReserved(w'.db.rows[id])
    requires PendingId(id) !in w'.db.books.transfers
    ensures id in w.db.rows && WasReserved(w.db.rows[id]) && PendingId(id) !in w.db.books.transfers
  {
    StepGrows(cfg, w, s, w');
    assert RowOk(cfg, w'.db, id);
    if id in w.db.rows {
      assert RowOk(cfg, w.db, id) && RowGrows(w.db.rows[id], w'.db.rows[id]);
      ReservedBefore(w.db.rows[id], w'.db.rows[id]);
    } else {
      NewIsDraft(cfg, w, s, w', id);
    }
  }

  lemma NewIsDraft(cfg: Config, w: World, s: Step, w': World, id: string)
    requires Next(cfg, w, s, w') && id !in w.db.rows && id in w'.db.rows
    ensures w'.db.rows[id].outbox == [Event(IntentCreated, Draft)] && w'.db.rows[id].intent.state == Draft
  {
  }

  /** Once recorded RESERVED, an intent has its reservation in the ledger for ever. */
  lemma {:induction false} ReservedForever(cfg: Config, ws: seq<World>, ss: seq<Step>, k: nat, id: string)
    requires Behaviour(cfg, ws, ss) && k < |ws| && id in ws[k].db.rows && WasReserved(ws[k].db.rows[id])
    ensures PendingId(id) in ws[k].db.books.transfers
  {
    if k > 0 && PendingId(id) !in ws[k].db.books.transfers {
      InvAlways(cfg, ws, ss, k - 1);
      InvAlways(cfg, ws, ss, k);
      ReservedStep(cfg, ws[k - 1], ss[k - 1], ws[k], id);
      ReservedForever(cfg, ws, ss, k - 1, id);
    }
  }

  /** A call that reports success reports what both systems will say for ever after: a reserve that the
      intent's own reservation is in the ledger, a post or void what row and ledger show now. */
  lemma SuccessIsTrue(cfg: Config, ws: seq<World>, ss: seq<Step>, k: nat, pid: nat)
    requires Behaviour(cfg, ws, ss) && k < |ws| && pid in ws[k].procs
    requires ws[k].procs[pid].Work? && ws[k].procs[pid].pc.Done? && ws[k].procs[pid].pc.result.Ok?
    ensures var p := ws[k].procs[pid];
            && p.id in ws[k].db.rows && p.pc.result.value.request == ws[k].db.rows[p.id].intent.request
            && (p.task.ReserveApproved? ==>
                  p.pc.result.value.state in {Reserved, Posted}
                  && PendingId(p.id) in ws[k].db.books.transfers
                  && ReservationOf(cfg, ws[k].db.rows[p.id].intent.request, ws[k].db.books.transfers[PendingId(p.id)])
                  && ws[k].db.rows[p.id].intent.state in {Reserved, Posted, Voided, ReconciliationRequired})
            && (p.task.PostReserved? ==>
                  PostedAs(cfg, ws[k].db.books, ws[k].db.rows[p.id].intent.request)
                  && ws[k].db.rows[p.id].intent.state == Posted)
            && (p.task.VoidReserved? ==>
                  ws[k].db.rows[p.id].intent.state == Voided && PostId(p.id) !in ws[k].db.books.transfers)
  {
    InvAlways(cfg, ws, ss, k);
    var p := ws[k].procs[pid];
    assert ProcOk(cfg, ws[k].db, p);
    var row, i := ws[k].db.rows[p.id], p.pc.result.value;
    assert RowOk(cfg, ws[k].db, p.id);
    assert i.version < |row.outbox| ==> LifecycleMove(row.outbox[i.version - 1].state, row.outbox[i.version].state);
    assert Terminal(i.state) ==> i.version == |row.outbox|;
    RowMatchesLedger(cfg, ws, ss, k, p.id);
    if p.task.ReserveApproved? {
      assert row.outbox[i.version - 1] in row.outbox;
      ReservedIsHeld(cfg, ws, ss, k, p.id, i);
    }
  }

  lemma {:induction false} RankKeeps(trail: seq<Event>, i: nat, j: nat)
    requires i <= j < |trail| && forall k :: 0 < k < |trail| ==> LifecycleMove(trail[k - 1].state, trail[k].state)
    ensures Rank(trail[i].state) <= Rank(trail[j].state)
  {
    if i < j {
      RankKeeps(trail, i, j - 1);
    }
  }

  lemma ReservedIsHeld(cfg: Config, ws: seq<World>, ss: seq<Step>, k: nat, id: string, i: Intent)
    requires Behaviour(cfg, ws, ss) && k < |ws| && Snapshot(ws[k].db, id, i) && i.state in {Reserved, Posted}
    ensures var db := ws[k].db;
            && PendingId(id) in db.books.transfers
            && ReservationOf(cfg, db.rows[id].intent.request, db.books.transfers[PendingId(id)])
            && db.rows[id].intent.state in {Reserved, Posted, Voided, ReconciliationRequired}
  {
    DbAlways(cfg, ws, ss, k);
    var db := ws[k].db;
    var row := db.rows[id];
    assert RowOk(cfg, db, id);
    RankKeeps(row.outbox, i.version - 1, |row.outbox| - 1);
    if i.state == Reserved {
      assert row.outbox[i.version - 1] in row.outbox;
      ReservedForever(cfg, ws, ss, k, id);
    } else {
      assert i.version < |row.outbox| ==> LifecycleMove(row.outbox[i.version - 1].state, row.outbox[i.version].state);
      assert ResolvesItsPending(db.books, PostId(id));
    }
  }

  /** The outbox is the history: one row per version, starting at DRAFT, each a permitted move, ending
      in the current state, and never rewritten. */
  lemma OutboxIsHistory(cfg: Config, ws: seq<World>, ss: seq<Step>, k: nat, m: nat, id: string)
    requires Behaviour(cfg, ws, ss) && k <= m < |ws| && id in ws[k].db.rows
    ensures id in ws[m].db.rows && TrailOk(ws[m].db.rows[id])
    ensures ws[k].db.rows[id].outbox <= ws[m].db.rows[id].outbox
    ensures ws[m].db.rows[id].intent.request == ws[k].db.rows[id].intent.request
  {
    RunExtends(cfg, ws, ss, k, m);
    DbAlways(cfg, ws, ss, m);
    assert RowOk(cfg, ws[m].db, id);
  }

  /** Transition reads the row and later updates it where state and version are those read. Because a
      version determines the state, the two statements together succeed exactly when the single
      compare-and-swap of TwoPhase would at the moment of the update. */
  lemma ReadThenSwap(cfg: Config, read: Db, update: Db, id: string, expected: int, next: State)
    requires DbOk(cfg, read) && DbOk(cfg, update) && Extends(read, update) && id in read.rows
    requires read.rows[id].intent.version == expected
    requires ValidOperationalTransition(read.rows[id].intent.state, next)
    ensures (update.rows[id].intent.version == expected && update.rows[id].intent.state == read.rows[id].intent.state)
            <==> CanMove(update, id, expected, next)
  {
    assert RowOk(cfg, read, id) && RowOk(cfg, update, id);
    assert RowExtends(read.rows[id], update.rows[id]);
    if update.rows[id].intent.version == expected {
      assert update.rows[id].outbox == read.rows[id].outbox;
    }
  }

  // ---- stuck intents ----

  lemma ExpiredState(cfg: Config, db: Db, id: string)
    requires DbOk(cfg, db)
    requires PendingId(id) in db.books.closed && db.books.closed[PendingId(id)] == Expired
    ensures id in db.rows && db.rows[id].intent.state in {ReservationRequested, Reserved, ReconciliationRequired}
  {
    assert ClosureOk(db.books, PendingId(id));
    assert RowOk(cfg, db, id);
    assert PostId(id) in db.books.transfers ==> ResolvesItsPending(db.books, PostId(id));
    assert VoidId(id) in db.books.transfers ==> ResolvesItsPending(db.books, VoidId(id));
  }

  /** Once its reservation has expired an intent can never be closed: it stays between RESERVED and
      RECONCILIATION_REQUIRED (or in the request), because reconciliation looks only at existence. */
  lemma ExpiredNeverCloses(cfg: Config, ws: seq<World>, ss: seq<Step>, k: nat, m: nat, id: string)
    requires Behaviour(cfg, ws, ss) && k <= m < |ws|
    requires PendingId(id) in ws[k].db.books.closed && ws[k].db.books.closed[PendingId(id)] == Expired
    ensures PendingId(id) in ws[m].db.books.closed && ws[m].db.books.closed[PendingId(id)] == Expired
    ensures id in ws[m].db.rows
    ensures ws[m].db.rows[id].intent.state in {ReservationRequested, Reserved, ReconciliationRequired}
  {
    RunExtends(cfg, ws, ss, k, m);
    DbAlways(cfg, ws, ss, m);
    ExpiredState(cfg, ws[m].db, id);
  }

  ghost predicate Stranded(w: World, id: string) {
    && id in w.db.rows && w.db.rows[id].intent.state == ReservationRequested
    && forall pid :: pid in w.procs && Holding(w.db, w.procs[pid]) ==> w.procs[pid].id != id
  }

  lemma StrandedStep(cfg: Config, w: World, s: Step, w': World, id: string)
    requires Inv(cfg, w) && Next(cfg, w, s, w') && Stranded(w, id)
    ensures Stranded(w', id) && w'.db.rows[id] == w.db.rows[id]
  {
    StepKeepsInv(cfg, w, s, w');
    RowUnmoved(cfg, w, s, w', id);
    forall pid | pid in w'.procs && Holding(w'.db, w'.procs[pid]) ensures w'.procs[pid].id != id {
      if w'.procs[pid].id == id {
        NewHolder(cfg, w, s, w', id, pid);
      }
    }
  }

  /** Only the holder moves an intent out of RESERVATION_REQUESTED. */
  lemma RowUnmoved(cfg: Config, w: World, s: Step, w': World, id: string)
    requires Inv(cfg, w) && Next(cfg, w, s, w') && Stranded(w, id)
    ensures id in w'.db.rows && w'.db.rows[id] == w.db.rows[id]
  {
    if s.Run? {
      RunLeavesRow(cfg, w, s.pid, s.reply, w', id);
    } else {
      OthersLeaveRow(cfg, w, s, w', id);
    }
  }

  lemma OthersLeaveRow(cfg: Config, w: World, s: Step, w': World, id: string)
    requires !s.Run? && Next(cfg, w, s, w') && id in w.db.rows && w.db.rows[id].intent.state == ReservationRequested
    ensures id in w'.db.rows && w'.db.rows[id] == w.db.rows[id]
  {
  }

  lemma RunLeavesRow(cfg: Config, w: World, pid: nat, r: Reply, w': World, id: string)
    requires Inv(cfg, w) && Next(cfg, w, Run(pid, r), w') && Stranded(w, id)
    ensures id in w'.db.rows && w'.db.rows[id] == w.db.rows[id]
  {
    if w'.db != w.db && w.procs[pid].Work? {
      var p := w.procs[pid];
      if CallAt(p).Move? {
        MoveStepKeepsInv(cfg, w, pid, CallAt(p).next, r, w');
      } else if CallAt(p).Resolve? {
        ResolveStepKeepsInv(cfg, w, pid, r, w');
      }
    }
  }

  /** A process comes to hold an intent only by making the request itself. */
  lemma NewHolder(cfg: Config, w: World, s: Step, w': World, id: string, pid: nat)
    requires Inv(cfg, w) && Next(cfg, w, s, w') && id in w.db.rows && id in w'.db.rows
    requires w.db.rows[id].intent.state == ReservationRequested && w'.db.rows[id] == w.db.rows[id]
    requires pid in w'.procs && Holding(w'.db, w'.procs[pid]) && w'.procs[pid].id == id
    ensures pid in w.procs && Holding(w.db, w.procs[pid]) && w.procs[pid].id == id
  {
    if s.Run? && s.pid == pid {
      HolderHeld(cfg, w.db, w.procs[pid], s.reply, w'.db, id);
    }
  }

  lemma HolderHeld(cfg: Config, db: Db, p: Proc, r: Reply, db': Db, id: string)
    requires DbOk(cfg, db) && ProcOk(cfg, db, p) && Exec(db, CallAt(p), r, db') && id in db.rows && id in db'.rows
    requires db.rows[id].intent.state == ReservationRequested && db'.rows[id] == db.rows[id]
    requires Holding(db', Advance(cfg, p, r)) && Advance(cfg, p, r).id == id
    ensures Holding(db, p) && p.id == id
  {
    assert RowOk(cfg, db, id);
  }

  lemma StrandedOneMore(cfg: Config, ws: seq<World>, ss: seq<Step>, m: nat, id: string)
    requires Behaviour(cfg, ws, ss) && 0 < m < |ws| && Stranded(ws[m - 1], id)
    ensures Stranded(ws[m], id) && ws[m].db.rows[id] == ws[m - 1].db.rows[id]
  {
    InvAlways(cfg, ws, ss, m - 1);
    StrandedStep(cfg, ws[m - 1], ss[m - 1], ws[m], id);
  }

  /** An intent in RESERVATION_REQUESTED that no process holds, because the requester crashed or was never
      told that its request was recorded, stays there whatever anyone does. */
  lemma {:induction false} StrandedForever(cfg: Config, ws: seq<World>, ss: seq<Step>, k: nat, m: nat, id: string)
    requires Behaviour(cfg, ws, ss) && k <= m < |ws| && Stranded(ws[k], id)
    ensures Stranded(ws[m], id) && ws[m].db.rows[id] == ws[k].db.rows[id]
  {
    if k < m {
      StrandedForever(cfg, ws, ss, k, m - 1, id);
      StrandedOneMore(cfg, ws, ss, m, id);
    }
  }

  // ---- money ----

  ghost function SumAmounts(rows: map<string, Row>, ids: set<string>): nat
    requires forall id :: id in ids ==> id in rows
  {
    if ids == {} then 0
    else
      var id :| id in ids;
      rows[id].intent.request.amount + SumAmounts(rows, ids - {id})
  }

  lemma {:induction false} SumAmountsRemove(rows: map<string, Row>, ids: set<string>, id: string)
    requires forall x :: x in ids ==> x in rows
    requires id in ids
    ensures SumAmounts(rows, ids) == rows[id].intent.request.amount + SumAmounts(rows, ids - {id})
  {
    var p :| p in ids && SumAmounts(rows, ids) == rows[p].intent.request.amount + SumAmounts(rows, ids - {p});
    if p != id {
      SumAmountsRemove(rows, ids - {p}, id);
      SumAmountsRemove(rows, ids - {id}, p);
      assert ids - {p} - {id} == ids - {id} - {p};
    }
  }

  /** Disbursement legs: transfers entered and posted at once. */
  function Legs(m: map<TransferId, Transfer>): map<TransferId, Transfer> {
    map t | t in m && m[t].kind.Single? :: m[t]
  }

  lemma LegsRemove(m: map<TransferId, Transfer>, k: TransferId)
    requires k in m
    ensures Legs(m - {k}) == Legs(m) - {k}
    ensures !m[k].kind.Single? ==> Legs(m) - {k} == Legs(m)
    ensures m[k].kind.Single? ==> k in Legs(m) && Legs(m)[k] == m[k]
  {
  }

  lemma {:induction false} OnlyLegsMove(m: map<TransferId, Transfer>)
    requires forall t :: t in m ==> !m[t].kind.PostPending?
    ensures Total(m, Everywhere, 0) == Total(Legs(m), Everywhere, 0)
    decreases |m|
  {
    if m != map[] {
      var k :| k in m;
      TotalRemove(m, k, Everywhere, 0);
      OnlyLegsMove(m - {k});
      LegsRemove(m, k);
      if m[k].kind.Single? {
        TotalRemove(Legs(m), k, Everywhere, 0);
      }
    } else {
      assert Legs(m) == map[];
    }
  }

  lemma {:induction false} PostedSum(m: map<TransferId, Transfer>, rows: map<string, Row>, ids: set<string>)
    requires forall t :: t in m && m[t].kind.PostPending? ==> t.ns.PostNs? && t.key in ids
    requires forall id :: id in ids ==>
               id in rows && PostId(id) in m && m[PostId(id)].kind.PostPending?
               && m[PostId(id)].amount == rows[id].intent.request.amount
    ensures Total(m, Everywhere, 0) == SumAmounts(rows, ids) + Total(Legs(m), Everywhere, 0)
    decreases |ids|
  {
    if ids == {} {
      OnlyLegsMove(m);
    } else {
      var id :| id in ids;
      SumAmountsRemove(rows, ids, id);
      TotalRemove(m, PostId(id), Everywhere, 0);
      PostedSum(m - {PostId(id)}, rows, ids - {id});
      assert Legs(m - {PostId(id)}) == Legs(m);
    }
  }

  predicate Settled(s: State) { s in {Draft, Approved, Posted, Voided} }

  function PostedIds(db: Db): set<string> {
    set id | id in db.rows && db.rows[id].intent.state.Posted?
  }

  /** The intents whose money has moved, whatever their rows say yet. */
  function MovedIds(db: Db): set<string> {
    set id | id in db.rows && PostId(id) in db.books.transfers
  }

  /** What conservation needs of tables and books. */
  ghost predicate LedgerOk(cfg: Config, db: Db) {
    && BooksOk(db.books) && Balanced(db.books)
    && (forall id :: id in db.rows ==> db.rows[id].intent.request.intentId == id)
    && (forall id :: id in db.rows && PendingId(id) in db.books.transfers ==>
          ReservationOf(cfg, db.rows[id].intent.request, db.books.transfers[PendingId(id)]))
    && (forall t: TransferId :: t in db.books.transfers && t.ns.PendingNs? ==> t.key in db.rows)
  }

  lemma DbIsLedger(cfg: Config, db: Db)
    requires DbOk(cfg, db)
    ensures LedgerOk(cfg, db)
  {
    forall id | id in db.rows
      ensures db.rows[id].intent.request.intentId == id
      ensures PendingId(id) in db.books.transfers ==>
                ReservationOf(cfg, db.rows[id].intent.request, db.books.transfers[PendingId(id)])
    {
      assert RowOk(cfg, db, id);
    }
  }

  lemma PostIsIntents(cfg: Config, db: Db, id: string)
    requires LedgerOk(cfg, db) && PostId(id) in db.books.transfers
    ensures id in MovedIds(db) && PostedAs(cfg, db.books, db.rows[id].intent.request)
  {
    assert ResolvesItsPending(db.books, PostId(id));
    PostExcludesVoid(db.books, id);
  }

  /** Posted debits and posted credits are the amounts of the intents with a post, each moved between
      its own accounts, plus the disbursement legs. */
  lemma MoneyOf(cfg: Config, db: Db)
    requires LedgerOk(cfg, db)
    ensures SumBalances(db.books.debits) == SumBalances(db.books.credits)
    ensures SumBalances(db.books.debits)
            == SumAmounts(db.rows, MovedIds(db)) + Total(Legs(db.books.transfers), Everywhere, 0)
    ensures forall id :: id in MovedIds(db) ==> PostedAs(cfg, db.books, db.rows[id].intent.request)
  {
    forall t | t in db.books.transfers && db.books.transfers[t].kind.PostPending?
      ensures t.ns.PostNs? && t.key in MovedIds(db)
    {
      assert WellFormed(db.books.transfers[t]) && t == PostId(t.key);
      PostIsIntents(cfg, db, t.key);
    }
    forall id | id in MovedIds(db) ensures PostedAs(cfg, db.books, db.rows[id].intent.request) {
      PostIsIntents(cfg, db, id);
    }
    PostedSum(db.books.transfers, db.rows, MovedIds(db));
  }

  /** Conservation at every point of every run: each account's posted debits and credits are the
      posted transfers that name it, and both sides add up to the amounts of the intents whose post
      is in the ledger and the disbursement legs present. Every POSTED intent is among them, and each
      of them moved its own amount between its own accounts. */
  lemma MoneyConserved(cfg: Config, ws: seq<World>, ss: seq<Step>, k: nat)
    requires Behaviour(cfg, ws, ss) && k < |ws|
    ensures var db := ws[k].db;
            && Balanced(db.books)
            && SumBalances(db.books.debits) == SumBalances(db.books.credits)
            && SumBalances(db.books.debits)
               == SumAmounts(db.rows, MovedIds(db)) + Total(Legs(db.books.transfers), Everywhere, 0)
            && PostedIds(db) <= MovedIds(db)
            && forall id :: id in MovedIds(db) ==> PostedAs(cfg, db.books, db.rows[id].intent.request)
  {
    var db := ws[k].db;
    DbAlways(cfg, ws, ss, k);
    DbIsLedger(cfg, db);
    MoneyOf(cfg, db);
    forall id | id in PostedIds(db) ensures id in MovedIds(db) {
      RowMatchesLedger(cfg, ws, ss, k, id);
    }
  }

  /** Once no intent is between request and closure, the intents whose money moved are the POSTED ones. */
  lemma SettledMoney(cfg: Config, ws: seq<World>, ss: seq<Step>, k: nat)
    requires Behaviour(cfg, ws, ss) && k < |ws|
    requires forall id :: id in ws[k].db.rows ==> Settled(ws[k].db.rows[id].intent.state)
    ensures MovedIds(ws[k].db) == PostedIds(ws[k].db)
    ensures SumBalances(ws[k].db.books.debits)
            == SumAmounts(ws[k].db.rows, PostedIds(ws[k].db)) + Total(Legs(ws[k].db.books.transfers), Everywhere, 0)
  {
    MoneyConserved(cfg, ws, ss, k);
    forall id | id in MovedIds(ws[k].db) ensures id in PostedIds(ws[k].db) {
      RowMatchesLedger(cfg, ws, ss, k, id);
    }
  }

  /** A deterministic id names one transfer for ever. */
  lemma TransfersImmutable(cfg: Config, ws: seq<World>, ss: seq<Step>, k: nat, m: nat, t: TransferId)
    requires Behaviour(cfg, ws, ss) && k <= m < |ws| && t in ws[k].db.books.transfers
    ensures t in ws[m].db.books.transfers && ws[m].db.books.transfers[t] == ws[k].db.books.transfers[t]
  {
    RunExtends(cfg, ws, ss, k, m);
  }
}
