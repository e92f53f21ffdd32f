/** Ingesting the lines of a bank statement (internal/revenue/statement_store.go): lines are deduplicated
    by bank and bank reference, and a known reference with other money is a conflict, never an insert. */
module StatementIngest {
  import opened Wrappers
  import ReconRuns
  import ReconSpec

  datatype Line = Line(bankReference: string, credit: bool, amountMinor: int, currency: string)

  datatype Stored = Stored(statementId: string, lineNo: nat, bank: string, line: Line)

  /** A line whose reference is already stored with another amount or currency. */
  datatype Conflict = Conflict(lineNo: nat, expected: int, actual: int, currency: string)

  /** The line table so far, the lines skipped as re-deliveries, and the conflicts. */
  datatype Ingest = Ingest(table: seq<Stored>, deduped: nat, conflicts: seq<Conflict>)

  predicate Under(s: Stored, bank: string, ref: string) { s.bank == bank && s.line.bankReference == ref }

  function Lookup(table: seq<Stored>, bank: string, ref: string): (r: Option<Stored>)
    ensures r.Some? ==> r.value in table && Under(r.value, bank, ref)
    ensures r.None? ==> forall s :: s in table ==> !Under(s, bank, ref)
  {
    if table == [] then None
    else
      var earlier := Lookup(table[..|table| - 1], bank, ref);
      if earlier.Some? then earlier
      else if Under(table[|table| - 1], bank, ref) then Some(table[|table| - 1])
      else None
  }

  predicate SameMoney(a: Line, b: Line) { a.amountMinor == b.amountMinor && a.currency == b.currency }

  function IngestLine(i: Ingest, bank: string, statementId: string, lineNo: nat, line: Line): Ingest {
    var known := Lookup(i.table, bank, line.bankReference);
    if known.None? then i.(table := i.table + [Stored(statementId, lineNo, bank, line)])
    else if SameMoney(known.value.line, line) then i.(deduped := i.deduped + 1)
    else i.(conflicts := i.conflicts + [Conflict(lineNo, known.value.line.amountMinor, line.amountMinor, line.currency)])
  }

  function Ingested(table: seq<Stored>, bank: string, statementId: string, lines: seq<Line>): Ingest {
    if lines == [] then Ingest(table, 0, [])
    else IngestLine(Ingested(table, bank, statementId, lines[..|lines| - 1]), bank, statementId, |lines|, lines[|lines| - 1])
  }

  method IngestLines(table: seq<Stored>, bank: string, statementId: string, lines: seq<Line>) returns (i: Ingest)
    ensures i == Ingested(table, bank, statementId, lines)
  {
    i := Ingest(table, 0, []);
    for index := 0 to |lines|
      invariant i == Ingested(table, bank, statementId, lines[..index])
    {
      assert lines[..index + 1][..index] == lines[..index];
      var line := lines[index];
      var known := Lookup(i.table, bank, line.bankReference);
      if known.Some? {
        if known.value.line.amountMinor != line.amountMinor || known.value.line.currency != line.currency {
          i := i.(conflicts := i.conflicts + [Conflict(index + 1, known.value.line.amountMinor, line.amountMinor, line.currency)]);
        } else {
          i := i.(deduped := i.deduped + 1);
        }
      } else {
        i := i.(table := i.table + [Stored(statementId, index + 1, bank, line)]);
      }
    }
    assert lines[..|lines|] == lines;
  }

  /** UNIQUE (bank, bank_reference). */
  ghost predicate UniqueReferences(table: seq<Stored>) {
    forall i, j :: 0 <= i < j < |table| ==> !Under(table[j], table[i].bank, table[i].line.bankReference)
  }

  lemma LookupStays(table: seq<Stored>, s: Stored, bank: string, ref: string)
    ensures Lookup(table, bank, ref).Some? ==> Lookup(table + [s], bank, ref) == Lookup(table, bank, ref)
    ensures Lookup(table, bank, ref).None? && Under(s, bank, ref) ==> Lookup(table + [s], bank, ref) == Some(s)
  {
    assert (table + [s])[..|table|] == table;
  }

  /** One line keeps what every known reference is stored with, and its own reference is known afterwards. */
  lemma LineKeepsKnown(i: Ingest, bank: string, statementId: string, lineNo: nat, line: Line, ref: string)
    ensures var after := IngestLine(i, bank, statementId, lineNo, line);
            && (Lookup(i.table, bank, ref).Some? ==> Lookup(after.table, bank, ref) == Lookup(i.table, bank, ref))
            && (Lookup(i.table, bank, ref).None? && ref == line.bankReference ==>
                  Lookup(after.table, bank, ref) == Some(Stored(statementId, lineNo, bank, line)))
  {
    LookupStays(i.table, Stored(statementId, lineNo, bank, line), bank, ref);
  }

  /** Stored lines are never changed, references stay unique per bank, and every line of the statement is
      inserted, skipped or a conflict. */
  lemma {:induction false} EveryLineIsAccounted(table: seq<Stored>, bank: string, statementId: string, lines: seq<Line>)
    ensures var i := Ingested(table, bank, statementId, lines);
            && table <= i.table && (UniqueReferences(table) ==> UniqueReferences(i.table))
            && |i.table| - |table| + i.deduped + |i.conflicts| == |lines|
  {
    if lines != [] {
      var before := Ingested(table, bank, statementId, lines[..|lines| - 1]);
      EveryLineIsAccounted(table, bank, statementId, lines[..|lines| - 1]);
      var line := lines[|lines| - 1];
      if Lookup(before.table, bank, line.bankReference).None? {
        assert forall k :: 0 <= k < |before.table| ==> before.table[k] in before.table;
      }
    }
  }

  /** A new row is a line of the statement under its number, the first with its reference, which was not stored. */
  ghost predicate StoresLine(table: seq<Stored>, bank: string, statementId: string, lines: seq<Line>, row: Stored) {
    && (forall s :: s in table ==> s.bank != bank || s.line.bankReference != row.line.bankReference)
    && 1 <= row.lineNo <= |lines| && row.line == lines[row.lineNo - 1] && row.statementId == statementId && row.bank == bank
    && forall j :: 0 <= j < row.lineNo - 1 ==> lines[j].bankReference != row.line.bankReference
  }

  /** The new rows are the lines whose reference was stored neither before nor by an earlier line, under their
      numbers, and in the order of the statement. */
  lemma {:induction false} StoredExactly(table: seq<Stored>, bank: string, statementId: string, lines: seq<Line>, row: Stored)
    ensures table <= Ingested(table, bank, statementId, lines).table
    ensures row in Ingested(table, bank, statementId, lines).table[|table|..] <==> StoresLine(table, bank, statementId, lines, row)
  {
    if lines != [] {
      var init, line := lines[..|lines| - 1], lines[|lines| - 1];
      StoredExactly(table, bank, statementId, init, row);
      assert lines == init + [line];
      StoresMore(table, bank, statementId, init, line, row);
      StoredLast(table, bank, statementId, init, line);
      TailGrows(table, Ingested(table, bank, statementId, init).table, Stored(statementId, |lines|, bank, line));
    }
  }

  lemma TailGrows(table: seq<Stored>, before: seq<Stored>, last: Stored)
    requires table <= before
    ensures table <= before + [last] && (before + [last])[|table|..] == before[|table|..] + [last]
  {
  }

  /** One line more: the rows stored for the lines before it, and its own. */
  lemma StoresMore(table: seq<Stored>, bank: string, statementId: string, init: seq<Line>, line: Line, row: Stored)
    ensures var last := Stored(statementId, |init| + 1, bank, line);
            StoresLine(table, bank, statementId, init + [line], row) <==>
            StoresLine(table, bank, statementId, init, row)
            || (row == last && StoresLine(table, bank, statementId, init + [line], last))
  {
    assert forall j :: 0 <= j < |init| ==> (init + [line])[j] == init[j];
  }

  /** A line is stored exactly when its reference is free. */
  lemma StoredLast(table: seq<Stored>, bank: string, statementId: string, init: seq<Line>, line: Line)
    ensures Lookup(Ingested(table, bank, statementId, init).table, bank, line.bankReference).None? <==>
            StoresLine(table, bank, statementId, init + [line], Stored(statementId, |init| + 1, bank, line))
  {
    KnownExactly(table, bank, statementId, init, line.bankReference);
    var lines := init + [line];
    assert forall j :: 0 <= j < |init| ==> lines[j] == init[j];
  }

  lemma {:induction false} KnownExactly(table: seq<Stored>, bank: string, statementId: string, lines: seq<Line>, ref: string)
    ensures Lookup(Ingested(table, bank, statementId, lines).table, bank, ref).Some? <==>
            (exists s :: s in table && s.bank == bank && s.line.bankReference == ref)
            || (exists j :: 0 <= j < |lines| && lines[j].bankReference == ref)
  {
    var t := Ingested(table, bank, statementId, lines).table;
    if lines == [] {
      KnownIs(table, bank, ref);
    } else {
      var init, line := lines[..|lines| - 1], lines[|lines| - 1];
      var before := Ingested(table, bank, statementId, init);
      KnownExactly(table, bank, statementId, init, ref);
      KnownIs(before.table, bank, ref);
      KnownIs(t, bank, ref);
      assert forall j :: 0 <= j < |init| ==> lines[j] == init[j];
      assert lines[|lines| - 1].bankReference == line.bankReference;
    }
  }

  lemma KnownIs(table: seq<Stored>, bank: string, ref: string)
    ensures Lookup(table, bank, ref).Some? <==> exists s :: s in table && s.bank == bank && s.line.bankReference == ref
  {
    if s :| s in table && s.bank == bank && s.line.bankReference == ref {
      assert Under(s, bank, ref);
    }
  }

  ghost predicate Conflicted(i: Ingest, lineNo: nat) { exists c :: c in i.conflicts && c.lineNo == lineNo }

  lemma {:induction false} ConflictsAreNumbered(table: seq<Stored>, bank: string, statementId: string, lines: seq<Line>)
    ensures forall c :: c in Ingested(table, bank, statementId, lines).conflicts ==> 1 <= c.lineNo <= |lines|
  {
    if lines != [] {
      ConflictsAreNumbered(table, bank, statementId, lines[..|lines| - 1]);
    }
  }

  /** Once a reference is stored, later lines of the statement do not change what it is stored with. */
  lemma {:induction false} FirstWins(table: seq<Stored>, bank: string, statementId: string, lines: seq<Line>, k: nat, ref: string)
    requires k <= |lines| && Lookup(Ingested(table, bank, statementId, lines[..k]).table, bank, ref).Some?
    ensures Lookup(Ingested(table, bank, statementId, lines).table, bank, ref)
            == Lookup(Ingested(table, bank, statementId, lines[..k]).table, bank, ref)
    decreases |lines|
  {
    if k < |lines| {
      var init := lines[..|lines| - 1];
      assert init[..k] == lines[..k];
      FirstWins(table, bank, statementId, init, k, ref);
      LineKeepsKnown(Ingested(table, bank, statementId, init), bank, statementId, |lines|, lines[|lines| - 1], ref);
    } else {
      assert lines[..k] == lines;
    }
  }

  /** The line's reference is stored; line number n is a conflict exactly when it is stored with other money,
      and then the conflict shows both amounts. */
  ghost predicate ReportedExactly(i: Ingest, bank: string, line: Line, n: nat) {
    var stored := Lookup(i.table, bank, line.bankReference);
    && stored.Some?
    && (Conflicted(i, n) <==> stored.value.line.amountMinor != line.amountMinor || stored.value.line.currency != line.currency)
    && (Conflicted(i, n) ==> Conflict(n, stored.value.line.amountMinor, line.amountMinor, line.currency) in i.conflicts)
  }

  lemma OneMoreConflict(i: Ingest, bank: string, statementId: string, lineNo: nat, line: Line, n: nat)
    ensures var known := Lookup(i.table, bank, line.bankReference);
            Conflicted(IngestLine(i, bank, statementId, lineNo, line), n)
            <==> Conflicted(i, n) || (n == lineNo && known.Some? && !SameMoney(known.value.line, line))
    ensures i.conflicts <= IngestLine(i, bank, statementId, lineNo, line).conflicts
  {
    var after := IngestLine(i, bank, statementId, lineNo, line);
    if after.conflicts != i.conflicts {
      assert after.conflicts[|i.conflicts|] in after.conflicts;
    }
    assert forall c :: c in i.conflicts ==> c in after.conflicts;
  }

  lemma StaysReported(i: Ingest, bank: string, statementId: string, lineNo: nat, later: Line, line: Line, n: nat)
    requires ReportedExactly(i, bank, line, n) && n < lineNo
    ensures ReportedExactly(IngestLine(i, bank, statementId, lineNo, later), bank, line, n)
  {
    LineKeepsKnown(i, bank, statementId, lineNo, later, line.bankReference);
    OneMoreConflict(i, bank, statementId, lineNo, later, n);
  }

  lemma IsReported(i: Ingest, bank: string, statementId: string, lineNo: nat, line: Line)
    requires !Conflicted(i, lineNo)
    ensures ReportedExactly(IngestLine(i, bank, statementId, lineNo, line), bank, line, lineNo)
  {
    LineKeepsKnown(i, bank, statementId, lineNo, line, line.bankReference);
    OneMoreConflict(i, bank, statementId, lineNo, line, lineNo);
  }

  /** After the ingest every line is reported exactly, whatever was stored before and came in between. */
  lemma {:induction false} ConflictExactly(table: seq<Stored>, bank: string, statementId: string, lines: seq<Line>, k: nat)
    requires k < |lines|
    ensures ReportedExactly(Ingested(table, bank, statementId, lines), bank, lines[k], k + 1)
    decreases |lines|
  {
    var init, last := lines[..|lines| - 1], lines[|lines| - 1];
    if k < |init| {
      ConflictExactly(table, bank, statementId, init, k);
      StaysReported(Ingested(table, bank, statementId, init), bank, statementId, |lines|, last, lines[k], k + 1);
    } else {
      ConflictsAreNumbered(table, bank, statementId, init);
      IsReported(Ingested(table, bank, statementId, init), bank, statementId, |lines|, last);
    }
  }

  /** Delivering the same lines again, under whatever statement, stores nothing. */
  lemma {:induction false} RedeliveryStoresNothing(table: seq<Stored>, bank: string, again: string, lines: seq<Line>)
    requires forall k :: 0 <= k < |lines| ==> Lookup(table, bank, lines[k].bankReference).Some?
    ensures Ingested(table, bank, again, lines).table == table
  {
    if lines != [] {
      var init := lines[..|lines| - 1];
      assert forall k :: 0 <= k < |init| ==> init[k] == lines[k];
      RedeliveryStoresNothing(table, bank, again, init);
    }
  }

  lemma IngestTwice(table: seq<Stored>, bank: string, statementId: string, again: string, lines: seq<Line>)
    ensures var once := Ingested(table, bank, statementId, lines).table; Ingested(once, bank, again, lines).table == once
  {
    var once := Ingested(table, bank, statementId, lines).table;
    forall k | 0 <= k < |lines| ensures Lookup(once, bank, lines[k].bankReference).Some? {
      ConflictExactly(table, bank, statementId, lines, k);
    }
    RedeliveryStoresNothing(once, bank, again, lines);
  }

  // ---- what reconciliation sees ----

  function LegOf(s: Stored): ReconSpec.StatementLeg {
    ReconSpec.StatementLeg(s.statementId, s.lineNo, s.line.bankReference, s.line.amountMinor, s.line.currency)
  }

  /** Credit lines of one bank have distinct references, which is what makes batches of them independent. */
  lemma OneBankHasDistinctReferences(table: seq<Stored>, bank: string, legs: seq<ReconSpec.StatementLeg>)
    requires UniqueReferences(table)
    requires forall l :: l in legs ==> exists s :: s in table && s.bank == bank && s.line.credit && l == LegOf(s)
    ensures ReconRuns.DistinctReferences(legs)
  {
    forall k, l | k in legs && l in legs && k.bankReference == l.bankReference ensures k == l {
      var s :| s in table && s.bank == bank && k == LegOf(s);
      var t :| t in table && t.bank == bank && l == LegOf(t);
      assert LegOf(s).bankReference == s.line.bankReference && LegOf(t).bankReference == t.line.bankReference;
      SameStored(table, s, t);
    }
  }

  lemma SameStored(table: seq<Stored>, s: Stored, t: Stored)
    requires UniqueReferences(table) && s in table && t in table && Under(t, s.bank, s.line.bankReference)
    ensures s == t
  {
    var i :| 0 <= i < |table| && table[i] == s;
    var j :| 0 <= j < |table| && table[j] == t;
    assert Under(table[i], table[j].bank, table[j].line.bankReference);
  }
}
