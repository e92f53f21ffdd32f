/** Mirroring posted ledger transfers into settlement records under a durable cursor
    (internal/settlementsync/sync.go, internal/revenue/statement_store.go): any number of syncers read the
    cursor, query a bounded batch, and record it transfer by transfer, crashing or losing replies anywhere. */
module SettlementSync {
  import opened Wrappers

  /** One transfer of the ledger. Timestamps order the ledger and ids are unique. */
  datatype Transfer = Transfer(
    id: nat, ledger: nat, code: nat, timestamp: nat, pending: bool, void: bool, amount: nat, debitAccount: nat)

  /** One mirrored settlement record; its references and value date are texts of these fields. */
  datatype Row = Row(transferId: nat, amountMinor: nat, currency: string, debitAccount: nat, timestamp: nat)

  datatype Config = Config(ledgers: map<nat, string>, code: nat, limit: nat)

  predicate ValidConfig(c: Config) {
    && (forall l :: l in c.ledgers ==> l != 0 && (c.ledgers[l] == "USD" || c.ledgers[l] == "NGN"))
    && c.code != 0 && 0 < c.limit <= 8189
  }

  const MAX_INT64: int := 0x7FFF_FFFF_FFFF_FFFF

  datatype Mapping = Skip | Unmappable | Mirror(row: Row)

  /** Reservations and voids are no money; an amount that is zero or beyond int64 is refused. */
  function MapTransfer(t: Transfer, currency: string): Mapping {
    if t.pending || t.void then Skip
    else if t.amount > MAX_INT64 || t.amount == 0 then Unmappable
    else Mirror(Row(t.id, t.amount, currency, t.debitAccount, t.timestamp))
  }

  predicate Concerns(c: Config, ledger: nat, t: Transfer) { t.ledger == ledger && t.code == c.code }

  /** The transfers of a ledger after a timestamp, in ledger order. */
  function After(c: Config, log: seq<Transfer>, ledger: nat, timestamp: nat): (r: seq<Transfer>)
    ensures forall t :: t in r <==> t in log && Concerns(c, ledger, t) && t.timestamp > timestamp
  {
    if log == [] then []
    else
      var earlier := After(c, log[..|log| - 1], ledger, timestamp);
      var t := log[|log| - 1];
      if Concerns(c, ledger, t) && t.timestamp > timestamp then earlier + [t] else earlier
  }

  /** QueryTransfers: the first `limit` of them. */
  function Batch(c: Config, log: seq<Transfer>, ledger: nat, cursor: nat): seq<Transfer> {
    var all := After(c, log, ledger, cursor);
    if |all| <= c.limit then all else all[..c.limit]
  }

  // ---- the two statements on the store ----

  /** settlement_records (unique on the transfer id) and settlement_sync_state. */
  datatype Db = Db(rows: seq<Row>, cursors: map<nat, nat>)

  function Cursor(db: Db, ledger: nat): nat {
    if ledger in db.cursors then db.cursors[ledger] else 0
  }

  function Advance(db: Db, ledger: nat, timestamp: nat): Db {
    db.(cursors := db.cursors[ledger := if Cursor(db, ledger) > timestamp then Cursor(db, ledger) else timestamp])
  }

  predicate HasRow(rows: seq<Row>, id: nat) { exists r :: r in rows && r.transferId == id }

  /** One transaction: the row unless its transfer is already mirrored, and the cursor. */
  function Record(db: Db, row: Row, ledger: nat, timestamp: nat): Db {
    Advance(if HasRow(db.rows, row.transferId) then db else db.(rows := db.rows + [row]), ledger, timestamp)
  }

  /** What processing one transfer of a batch does to the store; None when the batch stops there. */
  function Processed(c: Config, db: Db, ledger: nat, t: Transfer): Option<Db>
    requires ledger in c.ledgers
  {
    match MapTransfer(t, c.ledgers[ledger])
    case Skip => Some(Advance(db, ledger, t.timestamp))
    case Unmappable => None
    case Mirror(row) => Some(Record(db, row, ledger, t.timestamp))
  }

  // ---- concurrent syncers ----

  datatype Proc =
    | Idle
    | HasCursor(ledger: nat, cursor: nat)
    | Working(ledger: nat, cursor: nat, batch: seq<Transfer>, next: nat)

  datatype World = World(log: seq<Transfer>, db: Db, procs: map<nat, Proc>)

  /** How a store call ends: done, done but the reply was lost, or not done. The last two end the batch. */
  datatype Outcome = Replied | ReplyLost | Failed

  datatype Step =
    | Post(t: Transfer)
    | ReadCursor(p: nat, ledger: nat)
    | Query(p: nat)
    | Process(p: nat, outcome: Outcome)
    | Crash(p: nat)

  predicate Enabled(c: Config, w: World, s: Step) {
    match s
    case Post(t) => t.timestamp > 0 && forall u :: u in w.log ==> u.timestamp < t.timestamp && u.id != t.id
    case ReadCursor(_, ledger) => ledger in c.ledgers
    case Query(p) => p in w.procs && w.procs[p].HasCursor?
    case Process(p, _) => p in w.procs && w.procs[p].Working? && w.procs[p].next < |w.procs[p].batch| && w.procs[p].ledger in c.ledgers
    case Crash(p) => p in w.procs
  }

  function Apply(c: Config, w: World, s: Step): World
    requires Enabled(c, w, s)
  {
    match s
    case Post(t) => w.(log := w.log + [t])
    case ReadCursor(p, ledger) => w.(procs := w.procs[p := HasCursor(ledger, Cursor(w.db, ledger))])
    case Query(p) =>
      var q := w.procs[p];
      w.(procs := w.procs[p := Working(q.ledger, q.cursor, Batch(c, w.log, q.ledger, q.cursor), 0)])
    case Process(p, outcome) =>
      var q := w.procs[p];
      var t := q.batch[q.next];
      if t.timestamp <= q.cursor then w.(procs := w.procs[p := q.(next := q.next + 1)])
      else
        var db := Processed(c, w.db, q.ledger, t);
        if db.None? then w.(procs := w.procs[p := Idle])
        else
          w.(db := if outcome == Failed then w.db else db.value,
             procs := w.procs[p := if outcome == Replied then q.(next := q.next + 1) else Idle])
    case Crash(p) => w.(procs := w.procs[p := Idle])
  }

  ghost predicate Run(c: Config, ws: seq<World>) {
    && ws != [] && ws[0] == World([], Db([], map[]), map[])
    && forall i :: 0 <= i < |ws| - 1 ==> Moves(c, ws[i], ws[i + 1])
  }

  ghost predicate Moves(c: Config, w: World, w': World) {
    exists s :: Enabled(c, w, s) && Apply(c, w, s) == w'
  }

  // ---- the invariant ----

  ghost predicate LogOk(log: seq<Transfer>) {
    forall i, j :: 0 <= i < j < |log| ==> log[i].timestamp < log[j].timestamp && log[i].id != log[j].id
  }

  /** The record a transfer must have once the cursor passed it; None for no money. */
  function Due(c: Config, t: Transfer): Option<Mapping> {
    if t.ledger in c.ledgers && t.code == c.code then Some(MapTransfer(t, c.ledgers[t.ledger])) else None
  }

  predicate PassedBy(db: Db, t: Transfer) { t.timestamp <= Cursor(db, t.ledger) }

  /** Exactly the money transfers the cursors passed are mirrored, each once, and no cursor passed a
      transfer that does not map. */
  ghost predicate Mirrored(c: Config, log: seq<Transfer>, db: Db) {
    && (forall i, j :: 0 <= i < j < |db.rows| ==> db.rows[i].transferId != db.rows[j].transferId)
    && (forall r :: r in db.rows ==> exists t :: t in log && RowOf(c, db, r, t))
    && (forall t :: t in log && Due(c, t).Some? && PassedBy(db, t) ==>
          Due(c, t).value != Unmappable && (Due(c, t).value.Mirror? ==> Due(c, t).value.row in db.rows))
  }

  ghost predicate RowOf(c: Config, db: Db, r: Row, t: Transfer) {
    PassedBy(db, t) && Due(c, t) == Some(Mirror(r))
  }

  /** A batch holds, in order, every transfer of its ledger from its cursor up to its end. */
  ghost predicate BatchOk(c: Config, log: seq<Transfer>, ledger: nat, cursor: nat, batch: seq<Transfer>) {
    && (forall i :: 0 <= i < |batch| ==> batch[i] in log && Concerns(c, ledger, batch[i]) && batch[i].timestamp > cursor)
    && Ascending(batch)
    && (forall t :: t in log && Concerns(c, ledger, t) && cursor < t.timestamp && (exists u :: u in batch && t.timestamp <= u.timestamp)
          ==> t in batch)
  }

  ghost predicate ProcOk(c: Config, log: seq<Transfer>, db: Db, q: Proc) {
    match q
    case Idle => true
    case HasCursor(ledger, cursor) => ledger in c.ledgers && cursor <= Cursor(db, ledger)
    case Working(ledger, cursor, batch, next) =>
      && ledger in c.ledgers && cursor <= Cursor(db, ledger) && next <= |batch|
      && BatchOk(c, log, ledger, cursor, batch)
      && (forall i :: 0 <= i < next ==> batch[i].timestamp <= Cursor(db, ledger))
  }

  /** A cursor stands at the start or on a transfer. */
  ghost predicate CursorsOk(log: seq<Transfer>, db: Db) {
    forall l :: l in db.cursors ==> db.cursors[l] == 0 || exists t :: t in log && t.timestamp == db.cursors[l]
  }

  ghost predicate Inv(c: Config, w: World) {
    && LogOk(w.log) && CursorsOk(w.log, w.db) && Mirrored(c, w.log, w.db)
    && forall p :: p in w.procs ==> ProcOk(c, w.log, w.db, w.procs[p])
  }

  // ---- batches ----

  ghost predicate Ascending(ts: seq<Transfer>) {
    forall i, j :: 0 <= i < j < |ts| ==> ts[i].timestamp < ts[j].timestamp
  }

  lemma AscendSnoc(ts: seq<Transfer>, t: Transfer)
    requires Ascending(ts) && forall u :: u in ts ==> u.timestamp < t.timestamp
    ensures Ascending(ts + [t])
  {
  }

  lemma LogSnoc(log: seq<Transfer>)
    requires LogOk(log) && log != []
    ensures LogOk(log[..|log| - 1])
    ensures forall t :: t in log[..|log| - 1] ==> t.timestamp < log[|log| - 1].timestamp
  {
    var init := log[..|log| - 1];
    forall t | t in init ensures t.timestamp < log[|log| - 1].timestamp {
      var i :| 0 <= i < |init| && init[i] == t;
      assert log[i] == t;
    }
  }

  lemma {:induction false} AfterAscends(c: Config, log: seq<Transfer>, ledger: nat, timestamp: nat)
    requires LogOk(log)
    ensures Ascending(After(c, log, ledger, timestamp))
  {
    if log != [] {
      LogSnoc(log);
      AfterAscends(c, log[..|log| - 1], ledger, timestamp);
      AscendSnoc(After(c, log[..|log| - 1], ledger, timestamp), log[|log| - 1]);
    }
  }

  /** A prefix of an ascending sequence holds everything up to its last element. */
  lemma PrefixHolds(all: seq<Transfer>, batch: seq<Transfer>, t: Transfer, u: Transfer)
    requires batch <= all && t in all && u in batch && t.timestamp <= u.timestamp && Ascending(all)
    ensures t in batch
  {
    var i :| 0 <= i < |all| && all[i] == t;
    var j :| 0 <= j < |batch| && batch[j] == u;
    assert all[j] == u;
    assert j < i ==> u.timestamp < t.timestamp;
    assert batch[i] == t;
  }

  lemma BatchIsOk(c: Config, log: seq<Transfer>, ledger: nat, cursor: nat)
    requires LogOk(log)
    ensures BatchOk(c, log, ledger, cursor, Batch(c, log, ledger, cursor))
  {
    AfterAscends(c, log, ledger, cursor);
    var all, batch := After(c, log, ledger, cursor), Batch(c, log, ledger, cursor);
    assert Ascending(batch);
    forall t, u | t in log && Concerns(c, ledger, t) && cursor < t.timestamp && u in batch && t.timestamp <= u.timestamp
      ensures t in batch
    {
      PrefixHolds(all, batch, t, u);
    }
    forall i | 0 <= i < |batch| ensures batch[i] in log && Concerns(c, ledger, batch[i]) && batch[i].timestamp > cursor {
      assert all[i] == batch[i] && all[i] in all;
    }
  }

  lemma BatchOutlivesPost(c: Config, log: seq<Transfer>, ledger: nat, cursor: nat, batch: seq<Transfer>, t: Transfer)
    requires BatchOk(c, log, ledger, cursor, batch)
    requires forall u :: u in log ==> u.timestamp < t.timestamp
    ensures BatchOk(c, log + [t], ledger, cursor, batch)
  {
    forall u | u in batch ensures u.timestamp < t.timestamp {
      var i :| 0 <= i < |batch| && batch[i] == u;
    }
  }

  // ---- steps ----

  lemma CursorGrows(db: Db, ledger: nat, timestamp: nat, other: nat)
    ensures Cursor(Advance(db, ledger, timestamp), other) >= Cursor(db, other)
    ensures other != ledger ==> Cursor(Advance(db, ledger, timestamp), other) == Cursor(db, other)
    ensures timestamp <= Cursor(Advance(db, ledger, timestamp), ledger)
    ensures Cursor(Advance(db, ledger, timestamp), ledger) == Cursor(db, ledger)
            || Cursor(Advance(db, ledger, timestamp), ledger) == timestamp
  {
  }

  /** Everything on the ledger up to a transfer that the cursor has not passed, except that transfer, is passed. */
  ghost predicate NextInLine(c: Config, log: seq<Transfer>, db: Db, ledger: nat, t: Transfer) {
    && t in log && Concerns(c, ledger, t) && ledger in c.ledgers
    && forall u :: u in log && Concerns(c, ledger, u) && u.timestamp <= t.timestamp && u != t ==> u.timestamp <= Cursor(db, ledger)
  }

  lemma ProcessKeepsMirrored(c: Config, log: seq<Transfer>, db: Db, ledger: nat, t: Transfer)
    requires LogOk(log) && Mirrored(c, log, db) && NextInLine(c, log, db, ledger, t)
    requires Processed(c, db, ledger, t).Some?
    ensures Mirrored(c, log, Processed(c, db, ledger, t).value)
  {
    var db' := Processed(c, db, ledger, t).value;
    RowsStayUnique(c, db, ledger, t);
    forall r | r in db'.rows ensures exists u :: u in log && RowOf(c, db', r, u) {
      RowStillOwned(c, log, db, ledger, t, r);
    }
    forall u | u in log && Due(c, u).Some? && PassedBy(db', u)
      ensures Due(c, u).value != Unmappable && (Due(c, u).value.Mirror? ==> Due(c, u).value.row in db'.rows)
    {
      PassedIsMirrored(c, log, db, ledger, t, u);
    }
  }

  lemma RowsStayUnique(c: Config, db: Db, ledger: nat, t: Transfer)
    requires ledger in c.ledgers && Processed(c, db, ledger, t).Some?
    requires forall i, j :: 0 <= i < j < |db.rows| ==> db.rows[i].transferId != db.rows[j].transferId
    ensures var rows := Processed(c, db, ledger, t).value.rows;
            forall i, j :: 0 <= i < j < |rows| ==> rows[i].transferId != rows[j].transferId
  {
    var m := MapTransfer(t, c.ledgers[ledger]);
    if m.Mirror? && !HasRow(db.rows, m.row.transferId) {
      assert forall i :: 0 <= i < |db.rows| ==> db.rows[i] in db.rows;
    }
  }

  lemma RowStillOwned(c: Config, log: seq<Transfer>, db: Db, ledger: nat, t: Transfer, r: Row)
    requires Mirrored(c, log, db) && NextInLine(c, log, db, ledger, t) && Processed(c, db, ledger, t).Some?
    requires r in Processed(c, db, ledger, t).value.rows
    ensures exists u :: u in log && RowOf(c, Processed(c, db, ledger, t).value, r, u)
  {
    var db' := Processed(c, db, ledger, t).value;
    if r in db.rows {
      var u :| u in log && RowOf(c, db, r, u);
      CursorGrows(db, ledger, t.timestamp, u.ledger);
      assert RowOf(c, db', r, u);
    } else {
      CursorGrows(db, ledger, t.timestamp, ledger);
      assert RowOf(c, db', r, t);
    }
  }

  lemma SameTransfer(log: seq<Transfer>, t: Transfer, u: Transfer)
    requires LogOk(log) && t in log && u in log && t.id == u.id
    ensures t == u
  {
    var i :| 0 <= i < |log| && log[i] == t;
    var j :| 0 <= j < |log| && log[j] == u;
  }

  /** A transfer the cursor has not passed has no row yet: row and cursor are written together. */
  lemma NoRowBeforePassed(c: Config, log: seq<Transfer>, db: Db, t: Transfer)
    requires LogOk(log) && Mirrored(c, log, db) && t in log && HasRow(db.rows, t.id)
    ensures PassedBy(db, t)
  {
    var r :| r in db.rows && r.transferId == t.id;
    var owner :| owner in log && RowOf(c, db, r, owner);
    SameTransfer(log, owner, t);
  }

  lemma PassedIsMirrored(c: Config, log: seq<Transfer>, db: Db, ledger: nat, t: Transfer, u: Transfer)
    requires LogOk(log) && Mirrored(c, log, db) && NextInLine(c, log, db, ledger, t) && Processed(c, db, ledger, t).Some?
    requires u in log && Due(c, u).Some? && PassedBy(Processed(c, db, ledger, t).value, u)
    ensures Due(c, u).value != Unmappable
    ensures Due(c, u).value.Mirror? ==> Due(c, u).value.row in Processed(c, db, ledger, t).value.rows
  {
    CursorGrows(db, ledger, t.timestamp, u.ledger);
    if !PassedBy(db, u) {
      assert u == t;
      if HasRow(db.rows, t.id) {
        NoRowBeforePassed(c, log, db, t);
      }
    }
  }

  lemma WorkerIsNextInLine(c: Config, log: seq<Transfer>, db: Db, q: Proc)
    requires ProcOk(c, log, db, q) && q.Working? && q.next < |q.batch| && LogOk(log)
    ensures NextInLine(c, log, db, q.ledger, q.batch[q.next])
    ensures q.batch[q.next].timestamp > q.cursor
  {
    var t := q.batch[q.next];
    forall u | u in log && Concerns(c, q.ledger, u) && u.timestamp <= t.timestamp && u != t
      ensures u.timestamp <= Cursor(db, q.ledger)
    {
      if u.timestamp > q.cursor {
        assert t in q.batch && u in q.batch;
        var i :| 0 <= i < |q.batch| && q.batch[i] == u;
        assert i < q.next;
      }
    }
  }

  /** A process keeps what it knows when cursors only grow. */
  lemma ProcOutlives(c: Config, log: seq<Transfer>, db: Db, db': Db, q: Proc)
    requires ProcOk(c, log, db, q) && forall l :: Cursor(db, l) <= Cursor(db', l)
    ensures ProcOk(c, log, db', q)
  {
    if q.Working? {
      assert Cursor(db, q.ledger) <= Cursor(db', q.ledger);
    }
  }

  lemma ProcessedGrows(c: Config, db: Db, ledger: nat, t: Transfer)
    requires ledger in c.ledgers && Processed(c, db, ledger, t).Some?
    ensures forall l :: Cursor(db, l) <= Cursor(Processed(c, db, ledger, t).value, l)
    ensures t.timestamp <= Cursor(Processed(c, db, ledger, t).value, ledger)
    ensures db.rows <= Processed(c, db, ledger, t).value.rows
  {
  }

  lemma NotYetPassed(log: seq<Transfer>, db: Db, t: Transfer)
    requires CursorsOk(log, db) && t.timestamp > 0 && forall u :: u in log ==> u.timestamp < t.timestamp
    ensures forall l :: Cursor(db, l) < t.timestamp
    ensures CursorsOk(log + [t], db)
  {
    forall l | l in db.cursors ensures db.cursors[l] == 0 || exists u :: u in log + [t] && u.timestamp == db.cursors[l] {
      if db.cursors[l] != 0 {
        var u :| u in log && u.timestamp == db.cursors[l];
        assert u in log + [t];
      }
    }
  }

  lemma CursorsStay(c: Config, log: seq<Transfer>, db: Db, ledger: nat, t: Transfer)
    requires CursorsOk(log, db) && t in log && ledger in c.ledgers && Processed(c, db, ledger, t).Some?
    ensures CursorsOk(log, Processed(c, db, ledger, t).value)
  {
  }

  lemma PostKeepsInv(c: Config, w: World, t: Transfer)
    requires Inv(c, w) && Enabled(c, w, Post(t))
    ensures Inv(c, Apply(c, w, Post(t)))
  {
    var log := w.log + [t];
    assert forall i :: 0 <= i < |w.log| ==> w.log[i] in w.log;
    NotYetPassed(w.log, w.db, t);
    forall r | r in w.db.rows ensures exists u :: u in log && RowOf(c, w.db, r, u) {
      var u :| u in w.log && RowOf(c, w.db, r, u);
      assert u in log;
    }
    forall p | p in w.procs ensures ProcOk(c, log, w.db, w.procs[p]) {
      if w.procs[p].Working? {
        BatchOutlivesPost(c, w.log, w.procs[p].ledger, w.procs[p].cursor, w.procs[p].batch, t);
      }
    }
  }

  lemma StoreKeepsInv(c: Config, w: World, p: nat)
    requires Inv(c, w) && Enabled(c, w, Process(p, Replied))
    requires Processed(c, w.db, w.procs[p].ledger, w.procs[p].batch[w.procs[p].next]).Some?
    ensures var db := Processed(c, w.db, w.procs[p].ledger, w.procs[p].batch[w.procs[p].next]).value;
            Mirrored(c, w.log, db) && CursorsOk(w.log, db) && forall o :: o in w.procs ==> ProcOk(c, w.log, db, w.procs[o])
  {
    var q := w.procs[p];
    var t := q.batch[q.next];
    var db := Processed(c, w.db, q.ledger, t).value;
    WorkerIsNextInLine(c, w.log, w.db, q);
    ProcessKeepsMirrored(c, w.log, w.db, q.ledger, t);
    ProcessedGrows(c, w.db, q.ledger, t);
    CursorsStay(c, w.log, w.db, q.ledger, t);
    forall o | o in w.procs ensures ProcOk(c, w.log, db, w.procs[o]) {
      ProcOutlives(c, w.log, w.db, db, w.procs[o]);
    }
  }

  lemma WorkerMovesOn(c: Config, log: seq<Transfer>, db: Db, q: Proc)
    requires ProcOk(c, log, db, q) && q.Working? && q.next < |q.batch| && q.batch[q.next].timestamp <= Cursor(db, q.ledger)
    ensures ProcOk(c, log, db, q.(next := q.next + 1))
  {
  }

  lemma ProcessKeepsInv(c: Config, w: World, p: nat, outcome: Outcome)
    requires Inv(c, w) && Enabled(c, w, Process(p, outcome))
    ensures Inv(c, Apply(c, w, Process(p, outcome)))
  {
    var q := w.procs[p];
    var t := q.batch[q.next];
    WorkerIsNextInLine(c, w.log, w.db, q);
    var after := Processed(c, w.db, q.ledger, t);
    if after.Some? && outcome != Failed {
      StoreKeepsInv(c, w, p);
      ProcessedGrows(c, w.db, q.ledger, t);
      WorkerMovesOn(c, w.log, after.value, q);
    }
  }

  lemma StepKeepsInv(c: Config, w: World, s: Step)
    requires Inv(c, w) && Enabled(c, w, s)
    ensures Inv(c, Apply(c, w, s))
  {
    match s
    case Post(t) => PostKeepsInv(c, w, t);
    case ReadCursor(_, _) =>
    case Query(p) =>
      BatchIsOk(c, w.log, w.procs[p].ledger, w.procs[p].cursor);
    case Process(p, outcome) => ProcessKeepsInv(c, w, p, outcome);
    case Crash(_) =>
  }

  // ---- whole runs ----

  lemma MovesKeepsInv(c: Config, w: World, w': World)
    requires Inv(c, w) && Moves(c, w, w')
    ensures Inv(c, w')
  {
    var s :| Enabled(c, w, s) && Apply(c, w, s) == w';
    StepKeepsInv(c, w, s);
  }

  lemma {:induction false} RunKeepsInv(c: Config, ws: seq<World>, i: nat)
    requires Run(c, ws) && i < |ws|
    ensures Inv(c, ws[i])
  {
    if i > 0 {
      RunKeepsInv(c, ws, i - 1);
      MovesKeepsInv(c, ws[i - 1], ws[i]);
    }
  }

  /** No gaps and no doubles, at every moment of every run: a posted transfer of a configured ledger and
      code is mirrored once if the cursor passed it and not at all otherwise. */
  lemma MirroredExactlyOnce(c: Config, ws: seq<World>, i: nat, t: Transfer)
    requires Run(c, ws) && i < |ws| && t in ws[i].log && t.ledger in c.ledgers && t.code == c.code
    requires !t.pending && !t.void && 0 < t.amount < 0x8000_0000_0000_0000
    ensures var row := Row(t.id, t.amount, c.ledgers[t.ledger], t.debitAccount, t.timestamp);
            row in ws[i].db.rows <==> t.timestamp <= Cursor(ws[i].db, t.ledger)
    ensures HasRow(ws[i].db.rows, t.id) <==> t.timestamp <= Cursor(ws[i].db, t.ledger)
    ensures forall j, k :: 0 <= j < k < |ws[i].db.rows| ==> ws[i].db.rows[j].transferId != ws[i].db.rows[k].transferId
  {
    RunKeepsInv(c, ws, i);
    assert Due(c, t).Some?;
    if HasRow(ws[i].db.rows, t.id) {
      NoRowBeforePassed(c, ws[i].log, ws[i].db, t);
    }
  }

  /** Every row is a posted transfer of the configured ledger and code: no reservation, no void, no amount
      of zero or beyond int64. */
  lemma OnlyMoneyIsMirrored(c: Config, ws: seq<World>, i: nat, r: Row)
    requires Run(c, ws) && i < |ws| && r in ws[i].db.rows
    ensures exists t :: t in ws[i].log && t.ledger in c.ledgers && t.code == c.code && !t.pending && !t.void
                        && 0 < t.amount < 0x8000_0000_0000_0000
                        && r == Row(t.id, t.amount, c.ledgers[t.ledger], t.debitAccount, t.timestamp)
  {
    RunKeepsInv(c, ws, i);
    var t :| t in ws[i].log && RowOf(c, ws[i].db, r, t);
  }

  /** A cursor never passes a transfer that is money but of zero or beyond int64. */
  lemma CursorStopsAtUnmappable(c: Config, ws: seq<World>, i: nat, t: Transfer)
    requires Run(c, ws) && i < |ws| && t in ws[i].log && t.ledger in c.ledgers && t.code == c.code
    requires !t.pending && !t.void && (t.amount == 0 || t.amount >= 0x8000_0000_0000_0000)
    ensures Cursor(ws[i].db, t.ledger) < t.timestamp
  {
    RunKeepsInv(c, ws, i);
    assert Due(c, t).Some?;
  }

  lemma StepGrows(c: Config, w: World, w': World, ledger: nat)
    requires Moves(c, w, w')
    ensures Cursor(w.db, ledger) <= Cursor(w'.db, ledger) && w.db.rows <= w'.db.rows && w.log <= w'.log
  {
    var s :| Enabled(c, w, s) && Apply(c, w, s) == w';
    if s.Process? {
      var q := w.procs[s.p];
      if Processed(c, w.db, q.ledger, q.batch[q.next]).Some? {
        ProcessedGrows(c, w.db, q.ledger, q.batch[q.next]);
      }
    }
  }

  /** Cursors never move back and rows are never changed or removed. */
  lemma {:induction false} RunGrows(c: Config, ws: seq<World>, i: nat, j: nat, ledger: nat)
    requires Run(c, ws) && i <= j < |ws|
    ensures Cursor(ws[i].db, ledger) <= Cursor(ws[j].db, ledger) && ws[i].db.rows <= ws[j].db.rows && ws[i].log <= ws[j].log
    decreases j - i
  {
    if i < j {
      RunGrows(c, ws, i, j - 1, ledger);
      StepGrows(c, ws[j - 1], ws[j], ledger);
    }
  }
}
