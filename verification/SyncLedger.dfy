/** One undisturbed sync as it runs: the batch loop of syncLedger and the ledger loop of SyncOnce over the
    mirror store, and how much of the backlog it works off. */
module SyncLedger {
  import opened Wrappers
  import opened SettlementSync
  import Sorting

  /** The store after a batch, which stops at the first transfer that does not map. */
  function Folded(c: Config, db: Db, ledger: nat, batch: seq<Transfer>): (after: Db)
    requires ledger in c.ledgers
    ensures db.rows <= after.rows
    decreases |batch|
  {
    if batch == [] then db
    else
      match Processed(c, db, ledger, batch[0])
      case None => db
      case Some(after) => Folded(c, after, ledger, batch[1..])
  }

  predicate Mappable(c: Config, ledger: nat, batch: seq<Transfer>)
    requires ledger in c.ledgers
  {
    forall t :: t in batch ==> MapTransfer(t, c.ledgers[ledger]) != Unmappable
  }

  /** What a sync of several ledgers leaves, reports and answers. */
  datatype Synced = Synced(db: Db, counted: nat, ok: bool)

  function Plus(counted: nat, rest: Synced): Synced { rest.(counted := counted + rest.counted) }

  class Mirror {
    var db: Db

    constructor ()
      ensures db == Db([], map[])
    {
      db := Db([], map[]);
    }

    method SyncCursor(ledger: nat) returns (cursor: nat)
      ensures cursor == Cursor(db, ledger)
    {
      cursor := if ledger in db.cursors then db.cursors[ledger] else 0;
    }

    method AdvanceSyncCursor(ledger: nat, timestamp: nat)
      modifies this
      ensures db == Advance(old(db), ledger, timestamp)
    {
      var cursor := SyncCursor(ledger);
      db := db.(cursors := db.cursors[ledger := if cursor > timestamp then cursor else timestamp]);
    }

    method RecordTBSettlement(row: Row, ledger: nat, timestamp: nat) returns (created: bool)
      modifies this
      ensures db == Record(old(db), row, ledger, timestamp)
      ensures created <==> !HasRow(old(db).rows, row.transferId)
      ensures |db.rows| == |old(db).rows| + (if created then 1 else 0)
    {
      created := !HasRow(db.rows, row.transferId);
      if created {
        db := db.(rows := db.rows + [row]);
      }
      AdvanceSyncCursor(ledger, timestamp);
    }

    /** One batch of one ledger. `ok` is false when a transfer failed to map; `mirrored` counts new rows. */
    method SyncLedger(c: Config, log: seq<Transfer>, ledger: nat) returns (mirrored: nat, ok: bool)
      requires ledger in c.ledgers
      modifies this
      ensures var batch := Batch(c, log, ledger, Cursor(old(db), ledger));
              db == Folded(c, old(db), ledger, batch) && (ok <==> Mappable(c, ledger, batch))
      ensures |db.rows| == |old(db).rows| + mirrored
    {
      var cursor := SyncCursor(ledger);
      var batch := Batch(c, log, ledger, cursor);
      mirrored, ok := 0, true;
      for i := 0 to |batch|
        invariant Folded(c, old(db), ledger, batch) == Folded(c, db, ledger, batch[i..])
        invariant Mappable(c, ledger, batch[..i])
        invariant |db.rows| == |old(db).rows| + mirrored
      {
        var t := batch[i];
        assert batch[i..][0] == t && batch[i..][1..] == batch[i + 1..];
        assert t in batch && t.timestamp > cursor by { InBatch(c, log, ledger, cursor, t); }
        match MapTransfer(t, c.ledgers[ledger])
        case Skip => AdvanceSyncCursor(ledger, t.timestamp);
        case Unmappable => return mirrored, false;
        case Mirror(row) =>
          var created := RecordTBSettlement(row, ledger, t.timestamp);
          mirrored := mirrored + (if created then 1 else 0);
      }
      assert batch[|batch|..] == [] && batch[..|batch|] == batch;
    }

    /** Every configured ledger once, in ascending order, until one fails. Rows the failing ledger gained
        before its failing transfer are kept but not counted. */
    method SyncOnce(c: Config, log: seq<Transfer>) returns (mirrored: nat, ok: bool)
      modifies this
      ensures Synced(db, mirrored, ok) == SyncedFrom(c, log, old(db), SortedLedgers(c))
      ensures |db.rows| == |old(db).rows| + mirrored + Uncounted(c, log, old(db), SortedLedgers(c))
      ensures ok ==> |db.rows| == |old(db).rows| + mirrored
    {
      LedgersAscend(c);
      var ledgers := Sorting.SortSet(c.ledgers.Keys, Below);
      CountAccounts(c, log, db, ledgers);
      mirrored, ok := SyncAll(c, log, ledgers);
    }

    method SyncAll(c: Config, log: seq<Transfer>, ledgers: seq<nat>) returns (mirrored: nat, ok: bool)
      requires Configured(c, ledgers)
      modifies this
      ensures Synced(db, mirrored, ok) == SyncedFrom(c, log, old(db), ledgers)
    {
      mirrored := 0;
      ghost var goal := SyncedFrom(c, log, db, ledgers);
      assert ledgers[0..] == ledgers;
      for i := 0 to |ledgers|
        invariant Configured(c, ledgers[i..])
        invariant goal == Plus(mirrored, SyncedFrom(c, log, db, ledgers[i..]))
      {
        SyncedNext(c, log, db, ledgers, i);
        ghost var one := SyncedOne(c, log, db, ledgers[i]);
        var count, synced := SyncOneLedger(c, log, ledgers[i]);
        if !synced {
          return mirrored, false;
        }
        mirrored := mirrored + count;
      }
      assert ledgers[|ledgers|..] == [];
      ok := true;
    }

    method SyncOneLedger(c: Config, log: seq<Transfer>, ledger: nat) returns (mirrored: nat, ok: bool)
      requires ledger in c.ledgers
      modifies this
      ensures Synced(db, if ok then mirrored else 0, ok) == SyncedOne(c, log, old(db), ledger)
    {
      mirrored, ok := SyncLedger(c, log, ledger);
    }
  }

  lemma InBatch(c: Config, log: seq<Transfer>, ledger: nat, cursor: nat, t: Transfer)
    requires t in Batch(c, log, ledger, cursor)
    ensures t in log && SettlementSync.Concerns(c, ledger, t) && t.timestamp > cursor
  {
    assert t in After(c, log, ledger, cursor);
  }

  function NextBatch(c: Config, log: seq<Transfer>, db: Db, ledger: nat): seq<Transfer> {
    Batch(c, log, ledger, Cursor(db, ledger))
  }

  /** One ledger: what its batch leaves, and its new rows when the whole batch maps. */
  function SyncedOne(c: Config, log: seq<Transfer>, db: Db, ledger: nat): Synced
    requires ledger in c.ledgers
  {
    var batch := NextBatch(c, log, db, ledger);
    var after := Folded(c, db, ledger, batch);
    if Mappable(c, ledger, batch) then Synced(after, |after.rows| - |db.rows|, true) else Synced(after, 0, false)
  }

  predicate Configured(c: Config, ledgers: seq<nat>) { forall i :: 0 <= i < |ledgers| ==> ledgers[i] in c.ledgers }

  /** Ledgers in turn, up to the first that fails. */
  function SyncedFrom(c: Config, log: seq<Transfer>, db: Db, ledgers: seq<nat>): Synced
    requires Configured(c, ledgers)
    decreases |ledgers|
  {
    if ledgers == [] then Synced(db, 0, true)
    else
      var one := SyncedOne(c, log, db, ledgers[0]);
      if one.ok then Plus(one.counted, SyncedFrom(c, log, one.db, ledgers[1..])) else one
  }

  lemma SyncedNext(c: Config, log: seq<Transfer>, db: Db, ledgers: seq<nat>, i: nat)
    requires Configured(c, ledgers) && i < |ledgers|
    ensures Configured(c, ledgers[i..]) && Configured(c, ledgers[i + 1..])
    ensures var one := SyncedOne(c, log, db, ledgers[i]);
            SyncedFrom(c, log, db, ledgers[i..])
            == (if one.ok then Plus(one.counted, SyncedFrom(c, log, one.db, ledgers[i + 1..])) else one)
  {
    assert ledgers[i..][0] == ledgers[i] && ledgers[i..][1..] == ledgers[i + 1..];
  }

  /** The first ledger that fails, and the store it meets. */
  function Failing(c: Config, log: seq<Transfer>, db: Db, ledgers: seq<nat>): Option<(Db, nat)>
    requires Configured(c, ledgers)
    decreases |ledgers|
  {
    if ledgers == [] then None
    else
      var one := SyncedOne(c, log, db, ledgers[0]);
      if one.ok then Failing(c, log, one.db, ledgers[1..]) else Some((db, ledgers[0]))
  }

  lemma {:induction false} FailingIsConfigured(c: Config, log: seq<Transfer>, db: Db, ledgers: seq<nat>)
    requires Configured(c, ledgers)
    ensures var f := Failing(c, log, db, ledgers);
            f.Some? ==> f.value.1 in c.ledgers && !SyncedOne(c, log, f.value.0, f.value.1).ok
    decreases |ledgers|
  {
    if ledgers != [] && SyncedOne(c, log, db, ledgers[0]).ok {
      FailingIsConfigured(c, log, SyncedOne(c, log, db, ledgers[0]).db, ledgers[1..]);
    }
  }

  /** The rows the failing ledger gained, which the reported count leaves out. */
  function Uncounted(c: Config, log: seq<Transfer>, db: Db, ledgers: seq<nat>): nat
    requires Configured(c, ledgers)
  {
    FailingIsConfigured(c, log, db, ledgers);
    match Failing(c, log, db, ledgers)
    case None => 0
    case Some(f) => |SyncedOne(c, log, f.0, f.1).db.rows| - |f.0.rows|
  }

  /** Every new row is counted, or was gained by the failing ledger. */
  lemma {:induction false} CountAccounts(c: Config, log: seq<Transfer>, db: Db, ledgers: seq<nat>)
    requires Configured(c, ledgers)
    ensures var s := SyncedFrom(c, log, db, ledgers);
            && |s.db.rows| == |db.rows| + s.counted + Uncounted(c, log, db, ledgers)
            && (s.ok <==> Failing(c, log, db, ledgers).None?)
    decreases |ledgers|
  {
    if ledgers != [] && SyncedOne(c, log, db, ledgers[0]).ok {
      CountAccounts(c, log, SyncedOne(c, log, db, ledgers[0]).db, ledgers[1..]);
    }
  }

  predicate Below(a: nat, b: nat) { a < b }

  /** The ledgers in the order they are synced. */
  ghost function SortedLedgers(c: Config): (r: seq<nat>)
    ensures Configured(c, r) && (forall l :: l in r <==> l in c.ledgers) && Distinct(r)
    ensures forall i, j :: 0 <= i < j < |r| ==> r[i] < r[j]
  {
    LedgersAscend(c);
    Sorting.Ordered(c.ledgers.Keys, Below)
  }

  lemma LedgersAscend(c: Config)
    ensures var r := Sorting.Ordered(c.ledgers.Keys, Below);
            Configured(c, r) && (forall l :: l in r <==> l in c.ledgers) && Distinct(r)
  {
    var r := Sorting.Ordered(c.ledgers.Keys, Below);
    assert forall i :: 0 <= i < |r| ==> r[i] in r;
    forall i, j | 0 <= i < j < |r| ensures r[i] != r[j] {
      assert Below(r[i], r[j]);
    }
  }

  ghost predicate Distinct(ledgers: seq<nat>) { forall i, j :: 0 <= i < j < |ledgers| ==> ledgers[i] != ledgers[j] }

  // ---- which ledgers a sync reaches ----

  /** A batch moves its own ledger's cursor, by its own transfers, and no other. */
  lemma {:induction false} FoldedCursors(c: Config, a: Db, b: Db, ledger: nat, batch: seq<Transfer>, other: nat)
    requires ledger in c.ledgers && Cursor(a, ledger) == Cursor(b, ledger)
    ensures Cursor(Folded(c, a, ledger, batch), ledger) == Cursor(Folded(c, b, ledger, batch), ledger)
    ensures other != ledger ==> Cursor(Folded(c, a, ledger, batch), other) == Cursor(a, other)
    decreases |batch|
  {
    if batch != [] && Processed(c, a, ledger, batch[0]).Some? {
      var x, y := Processed(c, a, ledger, batch[0]).value, Processed(c, b, ledger, batch[0]).value;
      FoldedCursors(c, x, y, ledger, batch[1..], other);
    }
  }

  /** The ledgers before the first whose next batch has an unmappable transfer are worked off, that one up to
      the transfer, and the ones after it are not touched. */
  predicate Reached(c: Config, log: seq<Transfer>, db: Db, ledgers: seq<nat>, i: nat)
    requires Configured(c, ledgers) && i <= |ledgers|
  {
    forall j :: 0 <= j < i ==> SyncedOne(c, log, db, ledgers[j]).ok
  }

  /** The cursor a ledger ends with. */
  function EndCursor(c: Config, log: seq<Transfer>, db: Db, ledger: nat, reached: bool): nat
    requires ledger in c.ledgers
  {
    if reached then Cursor(SyncedOne(c, log, db, ledger).db, ledger) else Cursor(db, ledger)
  }

  lemma OneLedgerOnly(c: Config, log: seq<Transfer>, a: Db, b: Db, ledger: nat, other: nat)
    requires ledger in c.ledgers && Cursor(a, ledger) == Cursor(b, ledger)
    ensures SyncedOne(c, log, a, ledger).ok == SyncedOne(c, log, b, ledger).ok
    ensures Cursor(SyncedOne(c, log, a, ledger).db, ledger) == Cursor(SyncedOne(c, log, b, ledger).db, ledger)
    ensures other != ledger ==> Cursor(SyncedOne(c, log, a, ledger).db, other) == Cursor(a, other)
  {
    FoldedCursors(c, a, b, ledger, NextBatch(c, log, a, ledger), other);
  }

  lemma ReachedNext(c: Config, log: seq<Transfer>, db: Db, ledgers: seq<nat>, i: nat)
    requires i < |ledgers| && Configured(c, ledgers) && Configured(c, ledgers[1..]) && Distinct(ledgers)
    requires SyncedOne(c, log, db, ledgers[0]).ok
    ensures Reached(c, log, SyncedOne(c, log, db, ledgers[0]).db, ledgers[1..], i) <==> Reached(c, log, db, ledgers, i + 1)
  {
    var rest, after := ledgers[1..], SyncedOne(c, log, db, ledgers[0]).db;
    forall j | 0 <= j < i ensures SyncedOne(c, log, after, rest[j]).ok <==> SyncedOne(c, log, db, ledgers[j + 1]).ok {
      OneLedgerOnly(c, log, db, db, ledgers[0], rest[j]);
      OneLedgerOnly(c, log, after, db, rest[j], 0);
    }
    if Reached(c, log, after, rest, i) {
      forall j | 0 <= j < i + 1 ensures SyncedOne(c, log, db, ledgers[j]).ok {
        if j > 0 {
          assert SyncedOne(c, log, after, rest[j - 1]).ok;
        }
      }
    }
    if Reached(c, log, db, ledgers, i + 1) {
      forall j | 0 <= j < i ensures SyncedOne(c, log, after, rest[j]).ok {
        assert SyncedOne(c, log, db, ledgers[j + 1]).ok;
      }
    }
  }

  /** A sync succeeds exactly when every ledger's next batch maps. */
  lemma {:induction false} SyncOkExactly(c: Config, log: seq<Transfer>, db: Db, ledgers: seq<nat>)
    requires Configured(c, ledgers) && Distinct(ledgers)
    ensures SyncedFrom(c, log, db, ledgers).ok <==> Reached(c, log, db, ledgers, |ledgers|)
    decreases |ledgers|
  {
    if ledgers != [] {
      var one := SyncedOne(c, log, db, ledgers[0]);
      assert Configured(c, ledgers[1..]) && Distinct(ledgers[1..]);
      if one.ok {
        SyncOkExactly(c, log, one.db, ledgers[1..]);
        ReachedNext(c, log, db, ledgers, |ledgers| - 1);
      }
    }
  }

  lemma TailConfigured(c: Config, ledgers: seq<nat>)
    requires ledgers != [] && Configured(c, ledgers) && Distinct(ledgers)
    ensures Configured(c, ledgers[1..]) && Distinct(ledgers[1..])
  {
  }

  /** The first ledger's own end, and that of every other when the first fails. */
  lemma FirstEnd(c: Config, log: seq<Transfer>, db: Db, ledgers: seq<nat>, i: nat)
    requires i < |ledgers| && Configured(c, ledgers) && Distinct(ledgers)
    requires i == 0 || !SyncedOne(c, log, db, ledgers[0]).ok
    ensures EndsRight(c, log, db, ledgers, i)
  {
    TailConfigured(c, ledgers);
    var one := SyncedOne(c, log, db, ledgers[0]);
    if one.ok {
      Untouched(c, log, one.db, ledgers[1..], ledgers[0]);
    } else if i > 0 {
      OneLedgerOnly(c, log, db, db, ledgers[0], ledgers[i]);
    }
  }

  /** Each ledger before the first whose batch fails has worked off its batch, that one the part before its
      unmappable transfer, and the cursors of the others have not moved. */
  ghost predicate EndsRight(c: Config, log: seq<Transfer>, db: Db, ledgers: seq<nat>, i: nat)
    requires i < |ledgers| && Configured(c, ledgers)
  {
    Cursor(SyncedFrom(c, log, db, ledgers).db, ledgers[i])
    == EndCursor(c, log, db, ledgers[i], Reached(c, log, db, ledgers, i))
  }

  lemma {:induction false} SyncReachesExactly(c: Config, log: seq<Transfer>, db: Db, ledgers: seq<nat>, i: nat)
    requires i < |ledgers| && Configured(c, ledgers) && Distinct(ledgers)
    ensures EndsRight(c, log, db, ledgers, i)
    decreases |ledgers|
  {
    TailConfigured(c, ledgers);
    if i == 0 || !SyncedOne(c, log, db, ledgers[0]).ok {
      FirstEnd(c, log, db, ledgers, i);
    } else {
      SyncReachesExactly(c, log, SyncedOne(c, log, db, ledgers[0]).db, ledgers[1..], i - 1);
      NextEnd(c, log, db, ledgers, i);
    }
  }

  lemma NextEnd(c: Config, log: seq<Transfer>, db: Db, ledgers: seq<nat>, i: nat)
    requires 0 < i < |ledgers| && Configured(c, ledgers) && Configured(c, ledgers[1..]) && Distinct(ledgers)
    requires SyncedOne(c, log, db, ledgers[0]).ok
    requires EndsRight(c, log, SyncedOne(c, log, db, ledgers[0]).db, ledgers[1..], i - 1)
    ensures EndsRight(c, log, db, ledgers, i)
  {
    LaterEnd(c, log, db, ledgers, i);
    HeadPasses(c, log, db, ledgers, ledgers[i]);
  }

  lemma HeadPasses(c: Config, log: seq<Transfer>, db: Db, ledgers: seq<nat>, l: nat)
    requires ledgers != [] && Configured(c, ledgers) && Configured(c, ledgers[1..])
    requires SyncedOne(c, log, db, ledgers[0]).ok
    ensures Cursor(SyncedFrom(c, log, db, ledgers).db, l)
            == Cursor(SyncedFrom(c, log, SyncedOne(c, log, db, ledgers[0]).db, ledgers[1..]).db, l)
  {
  }

  /** A later ledger ends as it does when the first has been synced before. */
  lemma LaterEnd(c: Config, log: seq<Transfer>, db: Db, ledgers: seq<nat>, i: nat)
    requires 0 < i < |ledgers| && Configured(c, ledgers) && Configured(c, ledgers[1..]) && Distinct(ledgers)
    requires SyncedOne(c, log, db, ledgers[0]).ok
    ensures var one, rest := SyncedOne(c, log, db, ledgers[0]), ledgers[1..];
            EndCursor(c, log, one.db, rest[i - 1], Reached(c, log, one.db, rest, i - 1))
            == EndCursor(c, log, db, ledgers[i], Reached(c, log, db, ledgers, i))
  {
    OneLedgerOnly(c, log, db, db, ledgers[0], ledgers[i]);
    ReachedNext(c, log, db, ledgers, i - 1);
    OneLedgerOnly(c, log, SyncedOne(c, log, db, ledgers[0]).db, db, ledgers[i], 0);
  }

  lemma {:induction false} Untouched(c: Config, log: seq<Transfer>, db: Db, ledgers: seq<nat>, l: nat)
    requires Configured(c, ledgers) && forall i :: 0 <= i < |ledgers| ==> ledgers[i] != l
    ensures Cursor(SyncedFrom(c, log, db, ledgers).db, l) == Cursor(db, l)
    decreases |ledgers|
  {
    if ledgers != [] {
      var one := SyncedOne(c, log, db, ledgers[0]);
      OneLedgerOnly(c, log, db, db, ledgers[0], l);
      if one.ok {
        assert Configured(c, ledgers[1..]);
        Untouched(c, log, one.db, ledgers[1..], l);
      }
    }
  }

  // ---- working off the backlog ----

  /** How many transfers of a ledger the cursor has not passed. */
  function Backlog(c: Config, log: seq<Transfer>, db: Db, ledger: nat): nat {
    |After(c, log, ledger, Cursor(db, ledger))|
  }

  lemma {:induction false} FoldedCursor(c: Config, db: Db, ledger: nat, batch: seq<Transfer>)
    requires ledger in c.ledgers && Mappable(c, ledger, batch) && Ascending(batch)
    requires forall t :: t in batch ==> Cursor(db, ledger) < t.timestamp
    ensures Cursor(Folded(c, db, ledger, batch), ledger) == (if batch == [] then Cursor(db, ledger) else batch[|batch| - 1].timestamp)
    decreases |batch|
  {
    if batch != [] {
      var t, rest := batch[0], batch[1..];
      assert t in batch;
      var after := Processed(c, db, ledger, t).value;
      assert Cursor(after, ledger) == t.timestamp;
      forall u | u in rest ensures Cursor(after, ledger) < u.timestamp && u in batch {
        var i :| 0 <= i < |rest| && rest[i] == u;
        assert batch[i + 1] == u && batch[0].timestamp < batch[i + 1].timestamp;
      }
      assert Ascending(rest);
      FoldedCursor(c, after, ledger, rest);
    }
  }

  predicate Before(t: Transfer, u: Transfer) { t.timestamp < u.timestamp }

  lemma SameAscending(a: seq<Transfer>, b: seq<Transfer>)
    requires Ascending(a) && Ascending(b) && forall t :: t in a <==> t in b
    ensures a == b
  {
    Sorting.AscendingUnique(a, b, Before);
  }

  /** Of an ascending sequence, exactly the elements from k on come after element k - 1. */
  lemma TailIsLater(all: seq<Transfer>, k: nat, t: Transfer)
    requires Ascending(all) && 0 < k <= |all|
    ensures t in all[k..] <==> t in all && t.timestamp > all[k - 1].timestamp
  {
    assert forall i :: 0 <= i < k ==> all[i].timestamp <= all[k - 1].timestamp;
    if t in all && t.timestamp > all[k - 1].timestamp {
      var i :| 0 <= i < |all| && all[i] == t;
      assert all[k..][i - k] == t;
    }
    if t in all[k..] {
      var i :| 0 <= i < |all[k..]| && all[k..][i] == t;
      assert all[k + i] == t && all[k - 1].timestamp < all[k + i].timestamp;
    }
  }

  lemma DropPassed(c: Config, log: seq<Transfer>, ledger: nat, cursor: nat, k: nat)
    requires LogOk(log) && 0 < k <= |After(c, log, ledger, cursor)|
    ensures After(c, log, ledger, After(c, log, ledger, cursor)[k - 1].timestamp) == After(c, log, ledger, cursor)[k..]
  {
    var all := After(c, log, ledger, cursor);
    var bound := all[k - 1].timestamp;
    AfterAscends(c, log, ledger, cursor);
    AfterAscends(c, log, ledger, bound);
    assert all[k - 1] in all;
    forall t ensures t in After(c, log, ledger, bound) <==> t in all[k..] { TailIsLater(all, k, t); }
    TailAscends(all, k);
    SameAscending(After(c, log, ledger, bound), all[k..]);
  }

  lemma TailAscends(all: seq<Transfer>, k: nat)
    requires Ascending(all) && k <= |all|
    ensures Ascending(all[k..])
  {
  }

  /** An undisturbed sync of transfers that all map takes a full batch off the backlog, or all of it: so
      ceil(backlog / limit) syncs mirror everything. */
  lemma SyncTakesFullBatch(c: Config, log: seq<Transfer>, db: Db, ledger: nat)
    requires ValidConfig(c) && ledger in c.ledgers && LogOk(log)
    requires Mappable(c, ledger, Batch(c, log, ledger, Cursor(db, ledger)))
    ensures var after := Folded(c, db, ledger, Batch(c, log, ledger, Cursor(db, ledger)));
            Backlog(c, log, after, ledger)
            == (if Backlog(c, log, db, ledger) <= c.limit then 0 else Backlog(c, log, db, ledger) - c.limit)
  {
    var cursor := Cursor(db, ledger);
    var all, batch := After(c, log, ledger, cursor), Batch(c, log, ledger, cursor);
    AfterAscends(c, log, ledger, cursor);
    assert Ascending(batch);
    forall t | t in batch ensures cursor < t.timestamp { InBatch(c, log, ledger, cursor, t); }
    FoldedCursor(c, db, ledger, batch);
    if batch != [] {
      DropPassed(c, log, ledger, cursor, |batch|);
    }
  }
}
