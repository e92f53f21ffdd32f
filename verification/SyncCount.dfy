/** When the number a sync reports is the number of rows it mirrored. */
module SyncCount {
  import opened Wrappers
  import opened SettlementSync
  import opened SyncLedger

  // ---- when a batch gains a row ----

  /** A money transfer with no row yet comes before the first unmappable one. */
  ghost predicate GainsRow(c: Config, db: Db, ledger: nat, batch: seq<Transfer>)
    requires ledger in c.ledgers
  {
    exists i :: 0 <= i < |batch| && Mappable(c, ledger, batch[..i + 1])
                && MapTransfer(batch[i], c.ledgers[ledger]).Mirror? && !HasRow(db.rows, batch[i].id)
  }

  lemma GainsFirst(c: Config, db: Db, ledger: nat, batch: seq<Transfer>)
    requires ledger in c.ledgers && batch != [] && MapTransfer(batch[0], c.ledgers[ledger]).Mirror? && !HasRow(db.rows, batch[0].id)
    ensures GainsRow(c, db, ledger, batch)
  {
    assert batch[..0 + 1] == [batch[0]];
  }

  /** Past a first transfer that maps and leaves no new row, the rest decides. */
  lemma GainsLater(c: Config, db: Db, after: Db, ledger: nat, batch: seq<Transfer>)
    requires ledger in c.ledgers && batch != [] && after.rows == db.rows
    requires MapTransfer(batch[0], c.ledgers[ledger]) != Unmappable
    requires MapTransfer(batch[0], c.ledgers[ledger]).Mirror? ==> HasRow(db.rows, batch[0].id)
    ensures GainsRow(c, db, ledger, batch) <==> GainsRow(c, after, ledger, batch[1..])
  {
    var rest := batch[1..];
    if GainsRow(c, db, ledger, batch) {
      var i :| 0 <= i < |batch| && Mappable(c, ledger, batch[..i + 1])
               && MapTransfer(batch[i], c.ledgers[ledger]).Mirror? && !HasRow(db.rows, batch[i].id);
      MappableTail(c, ledger, batch, i);
      assert rest[i - 1] == batch[i] && rest[..(i - 1) + 1] == rest[..i];
    }
    if GainsRow(c, after, ledger, rest) {
      var i :| 0 <= i < |rest| && Mappable(c, ledger, rest[..i + 1])
               && MapTransfer(rest[i], c.ledgers[ledger]).Mirror? && !HasRow(after.rows, rest[i].id);
      MappableTail(c, ledger, batch, i + 1);
      assert batch[i + 1] == rest[i];
    }
  }

  lemma MappableTail(c: Config, ledger: nat, batch: seq<Transfer>, i: nat)
    requires ledger in c.ledgers && 0 < i < |batch| && MapTransfer(batch[0], c.ledgers[ledger]) != Unmappable
    ensures Mappable(c, ledger, batch[..i + 1]) <==> Mappable(c, ledger, batch[1..][..i])
  {
    assert batch[..i + 1] == [batch[0]] + batch[1..][..i];
  }

  /** A batch gains rows exactly in that case. */
  lemma {:induction false} GainsExactly(c: Config, db: Db, ledger: nat, batch: seq<Transfer>)
    requires ledger in c.ledgers
    ensures |Folded(c, db, ledger, batch).rows| > |db.rows| <==> GainsRow(c, db, ledger, batch)
    decreases |batch|
  {
    if batch != [] {
      var m := MapTransfer(batch[0], c.ledgers[ledger]);
      if m.Unmappable? {
        NothingBefore(c, db, ledger, batch);
      } else if m.Mirror? && !HasRow(db.rows, batch[0].id) {
        GainsFirst(c, db, ledger, batch);
      } else {
        var after := Processed(c, db, ledger, batch[0]).value;
        GainsLater(c, db, after, ledger, batch);
        GainsExactly(c, after, ledger, batch[1..]);
      }
    }
  }

  lemma FirstBlocks(c: Config, ledger: nat, batch: seq<Transfer>, i: nat)
    requires ledger in c.ledgers && i < |batch| && MapTransfer(batch[0], c.ledgers[ledger]).Unmappable?
    ensures !Mappable(c, ledger, batch[..i + 1])
  {
    assert batch[..i + 1][0] in batch[..i + 1];
  }

  lemma NothingBefore(c: Config, db: Db, ledger: nat, batch: seq<Transfer>)
    requires ledger in c.ledgers && batch != [] && MapTransfer(batch[0], c.ledgers[ledger]).Unmappable?
    ensures !GainsRow(c, db, ledger, batch)
  {
    forall i | 0 <= i < |batch| && MapTransfer(batch[i], c.ledgers[ledger]).Mirror?
      ensures !Mappable(c, ledger, batch[..i + 1])
    {
      FirstBlocks(c, ledger, batch, i);
    }
  }

  /** The reported count is the number of new rows exactly when the sync succeeds, or the failing ledger has
      no money transfer without a row before its first unmappable one. */
  lemma CountRightExactly(c: Config, log: seq<Transfer>, db: Db, ledgers: seq<nat>)
    requires Configured(c, ledgers)
    ensures var s, f := SyncedFrom(c, log, db, ledgers), Failing(c, log, db, ledgers);
            && (s.ok <==> f.None?) && (f.Some? ==> f.value.1 in c.ledgers)
            && (|s.db.rows| == |db.rows| + s.counted
                <==> (f.Some? ==> !GainsRow(c, f.value.0, f.value.1, NextBatch(c, log, f.value.0, f.value.1))))
  {
    CountAccounts(c, log, db, ledgers);
    FailingIsConfigured(c, log, db, ledgers);
    var f := Failing(c, log, db, ledgers);
    if f.Some? {
      GainsExactly(c, f.value.0, f.value.1, NextBatch(c, log, f.value.0, f.value.1));
    }
  }

  // ---- in a store that syncs produced ----

  /** Every row belongs to a transfer its cursor passed. */
  ghost predicate RowsPassed(log: seq<Transfer>, db: Db) {
    forall r :: r in db.rows ==> exists t :: t in log && t.id == r.transferId && PassedBy(db, t)
  }

  lemma MirroredIsPassed(c: Config, log: seq<Transfer>, db: Db)
    requires Mirrored(c, log, db)
    ensures RowsPassed(log, db)
  {
    forall r | r in db.rows ensures exists t :: t in log && t.id == r.transferId && PassedBy(db, t) {
      var t :| t in log && RowOf(c, db, r, t);
    }
  }

  lemma OneKeepsPassed(c: Config, log: seq<Transfer>, db: Db, ledger: nat, t: Transfer, after: Db)
    requires ledger in c.ledgers && RowsPassed(log, db) && t in log && t.ledger == ledger
    requires Processed(c, db, ledger, t) == Some(after)
    ensures RowsPassed(log, after)
  {
    forall r | r in after.rows ensures exists u :: u in log && u.id == r.transferId && PassedBy(after, u) {
      if r in db.rows {
        var u :| u in log && u.id == r.transferId && PassedBy(db, u);
        CursorGrows(db, ledger, t.timestamp, u.ledger);
        assert PassedBy(after, u);
      } else {
        assert r.transferId == t.id && PassedBy(after, t);
      }
    }
  }

  lemma {:induction false} FoldedKeepsPassed(c: Config, log: seq<Transfer>, db: Db, ledger: nat, batch: seq<Transfer>)
    requires ledger in c.ledgers && RowsPassed(log, db) && forall t :: t in batch ==> t in log && t.ledger == ledger
    ensures RowsPassed(log, Folded(c, db, ledger, batch))
    decreases |batch|
  {
    if batch != [] {
      assert batch[0] in batch;
      var next := Processed(c, db, ledger, batch[0]);
      if next.Some? {
        OneKeepsPassed(c, log, db, ledger, batch[0], next.value);
        FoldedKeepsPassed(c, log, next.value, ledger, batch[1..]);
      }
    }
  }

  lemma SyncKeepsPassed(c: Config, log: seq<Transfer>, db: Db, ledger: nat)
    requires ledger in c.ledgers && RowsPassed(log, db)
    ensures RowsPassed(log, SyncedOne(c, log, db, ledger).db)
  {
    var batch := NextBatch(c, log, db, ledger);
    forall t | t in batch ensures t in log && t.ledger == ledger { InBatch(c, log, ledger, Cursor(db, ledger), t); }
    FoldedKeepsPassed(c, log, db, ledger, batch);
  }

  /** The failing ledger by its position, and what of the store it meets is as at the start. */
  lemma {:induction false} FailingAt(c: Config, log: seq<Transfer>, db: Db, ledgers: seq<nat>) returns (i: nat)
    requires Configured(c, ledgers) && Distinct(ledgers) && RowsPassed(log, db) && Failing(c, log, db, ledgers).Some?
    ensures i < |ledgers| && Reached(c, log, db, ledgers, i) && !SyncedOne(c, log, db, ledgers[i]).ok
    ensures var f := Failing(c, log, db, ledgers).value;
            f.1 == ledgers[i] && Cursor(f.0, ledgers[i]) == Cursor(db, ledgers[i]) && RowsPassed(log, f.0)
    decreases |ledgers|
  {
    var one := SyncedOne(c, log, db, ledgers[0]);
    if one.ok {
      TailConfigured(c, ledgers);
      SyncKeepsPassed(c, log, db, ledgers[0]);
      var j := FailingAt(c, log, one.db, ledgers[1..]);
      i := j + 1;
      ReachedNext(c, log, db, ledgers, j);
      OneLedgerOnly(c, log, db, db, ledgers[0], ledgers[i]);
      OneLedgerOnly(c, log, one.db, db, ledgers[i], 0);
    } else {
      i := 0;
    }
  }

  /** A money transfer comes before the first unmappable one. */
  ghost predicate MoneyFirst(c: Config, ledger: nat, batch: seq<Transfer>)
    requires ledger in c.ledgers
  {
    exists i :: 0 <= i < |batch| && Mappable(c, ledger, batch[..i + 1]) && MapTransfer(batch[i], c.ledgers[ledger]).Mirror?
  }

  lemma NothingHasRow(c: Config, log: seq<Transfer>, db: Db, ledger: nat)
    requires ledger in c.ledgers && LogOk(log) && RowsPassed(log, db)
    ensures var batch := NextBatch(c, log, db, ledger); GainsRow(c, db, ledger, batch) <==> MoneyFirst(c, ledger, batch)
  {
    var batch := NextBatch(c, log, db, ledger);
    forall t | t in batch ensures !HasRow(db.rows, t.id) {
      InBatch(c, log, ledger, Cursor(db, ledger), t);
      if HasRow(db.rows, t.id) {
        var r :| r in db.rows && r.transferId == t.id;
        var u :| u in log && u.id == r.transferId && PassedBy(db, u);
        SameTransfer(log, u, t);
      }
    }
    assert forall i :: 0 <= i < |batch| ==> batch[i] in batch;
  }

  /** A ledger that fails after mirroring part of its batch. */
  ghost predicate FailsPartway(c: Config, log: seq<Transfer>, db: Db, ledgers: seq<nat>, i: nat)
    requires Configured(c, ledgers) && i < |ledgers|
  {
    && Reached(c, log, db, ledgers, i) && !SyncedOne(c, log, db, ledgers[i]).ok
    && MoneyFirst(c, ledgers[i], NextBatch(c, log, db, ledgers[i]))
  }

  lemma OneFails(c: Config, log: seq<Transfer>, db: Db, ledgers: seq<nat>, i: nat, j: nat)
    requires Configured(c, ledgers) && i < |ledgers| && j < |ledgers|
    requires Reached(c, log, db, ledgers, i) && !SyncedOne(c, log, db, ledgers[i]).ok
    requires Reached(c, log, db, ledgers, j) && !SyncedOne(c, log, db, ledgers[j]).ok
    ensures i == j
  {
  }

  /** In a store that syncs produced, the reported count is wrong exactly when the first ledger that fails has
      a money transfer before its first unmappable one; the ledgers' next batches decide it beforehand. */
  lemma CountWrongExactly(c: Config, log: seq<Transfer>, db: Db, ledgers: seq<nat>)
    requires Configured(c, ledgers) && Distinct(ledgers) && LogOk(log) && RowsPassed(log, db)
    ensures var s := SyncedFrom(c, log, db, ledgers);
            |s.db.rows| != |db.rows| + s.counted <==> exists i :: 0 <= i < |ledgers| && FailsPartway(c, log, db, ledgers, i)
  {
    CountRightExactly(c, log, db, ledgers);
    CountAccounts(c, log, db, ledgers);
    SyncOkExactly(c, log, db, ledgers);
    var f := Failing(c, log, db, ledgers);
    if f.Some? {
      var k := FailingAt(c, log, db, ledgers);
      NothingHasRow(c, log, f.value.0, f.value.1);
      forall i | 0 <= i < |ledgers| && FailsPartway(c, log, db, ledgers, i) ensures i == k {
        OneFails(c, log, db, ledgers, i, k);
      }
      assert FailsPartway(c, log, db, ledgers, k) <==> MoneyFirst(c, ledgers[k], NextBatch(c, log, db, ledgers[k]));
    }
  }

  /** At any point of any run of syncers, for an undisturbed sync of all ledgers. */
  lemma SyncOnceMiscounts(c: Config, ws: seq<World>, i: nat)
    requires Run(c, ws) && i < |ws|
    ensures var ledgers := SortedLedgers(c);
            var s := SyncedFrom(c, ws[i].log, ws[i].db, ledgers);
            |s.db.rows| != |ws[i].db.rows| + s.counted
            <==> exists k :: 0 <= k < |ledgers| && FailsPartway(c, ws[i].log, ws[i].db, ledgers, k)
  {
    RunKeepsInv(c, ws, i);
    MirroredIsPassed(c, ws[i].log, ws[i].db);
    CountWrongExactly(c, ws[i].log, ws[i].db, SortedLedgers(c));
  }

  // ---- it does happen ----

  const GOOD := Transfer(1, 1, 1, 1, false, false, 5, 7)
  const BAD := Transfer(2, 1, 1, 2, false, false, 0, 7)
  const ONE_LEDGER := Config(map[1 := "USD"], 1, 10)

  lemma PartwayBatch()
    ensures NextBatch(ONE_LEDGER, [GOOD, BAD], Db([], map[]), 1) == [GOOD, BAD]
  {
    var log := [GOOD, BAD];
    assert log[..1] == [GOOD] && [GOOD][..0] == [];
    assert After(ONE_LEDGER, [], 1, 0) == [];
    assert After(ONE_LEDGER, [GOOD], 1, 0) == [GOOD];
    assert After(ONE_LEDGER, log, 1, 0) == [GOOD] + [BAD];
  }

  /** A mappable transfer followed by one of amount zero: one row is mirrored and none is reported. */
  lemma PartwayMiscounts()
    ensures ValidConfig(ONE_LEDGER) && LogOk([GOOD, BAD]) && RowsPassed([GOOD, BAD], Db([], map[]))
    ensures var s := SyncedFrom(ONE_LEDGER, [GOOD, BAD], Db([], map[]), [1]);
            !s.ok && s.counted == 0 && s.db.rows == [Row(1, 5, "USD", 7, 1)]
  {
    PartwayBatch();
    var db, batch := Db([], map[]), [GOOD, BAD];
    assert BAD in batch;
    assert batch[1..] == [BAD];
    var after := Processed(ONE_LEDGER, db, 1, GOOD).value;
    assert after.rows == [] + [Row(1, 5, "USD", 7, 1)];
    assert Folded(ONE_LEDGER, after, 1, [BAD]) == after;
    assert Folded(ONE_LEDGER, db, 1, batch) == after;
  }
}
