/** Reconciliation over several runs: a second run on what the first leaves matches nothing, and feeding
    the statement lines in two batches matches what one batch would, except where one note was claimed
    twice. */
module ReconRuns {
  import opened Wrappers
  import opened ReconSpec
  import opened ReconTheorems

  // ---- what a run leaves ----

  predicate SettlementTaken(ms: seq<Match>, s: Settlement) {
    exists m :: m in ms && m.settlementId == s.id
  }

  function KeepLines(ls: seq<StatementLeg>, ms: seq<Match>): (r: seq<StatementLeg>)
    ensures forall l :: l in r <==> l in ls && !LineTaken(ms, l)
  {
    if ls == [] then []
    else
      var l := ls[|ls| - 1];
      var earlier := KeepLines(ls[..|ls| - 1], ms);
      if LineTaken(ms, l) then earlier else earlier + [l]
  }

  /** What a later load sees: no matched note, no matched settlement, and every other settlement except
      that some of those matched to an assessment are gone (of several naming one assessment the row
      links only the first). */
  ghost predicate LeavesOpen(inp: Input, res: Input) {
    var ms := PlanOf(inp).matches;
    && WellKeyed(res)
    && (forall n :: n in res.notes <==> n in inp.notes && !NoteTaken(ms, n))
    && (forall s :: s in res.settlements ==> s in inp.settlements && !SettlementTaken(ms, s))
    && (forall s :: s in inp.settlements && !SettlementTaken(ms, s) && !Dispose(inp, s).IntakeMatched? ==> s in res.settlements)
  }

  lemma PlannedWhenClean(inp: Input, s: Settlement, n: DebitNote, l: StatementLeg)
    requires WellKeyed(inp) && s in inp.settlements && CleanMatch(inp, s, n, l)
    ensures MatchOf(s, n, l) in PlanOf(inp).matches
    ensures SettlementTaken(PlanOf(inp).matches, s)
  {
    MatchedExactly(inp, s, n, l);
    MatchesComplete(inp, inp.settlements, s);
    assert MatchOf(s, n, l).settlementId == s.id;
  }

  lemma TakenBy(inp: Input, m: Match) returns (s: Settlement, n: DebitNote, l: StatementLeg)
    requires WellKeyed(inp) && m in PlanOf(inp).matches
    ensures s in inp.settlements && CleanMatch(inp, s, n, l) && m == MatchOf(s, n, l)
  {
    MatchHasThreeLegs(inp, m);
    s, n, l :| s in inp.settlements && CleanMatch(inp, s, n, l) && m == MatchOf(s, n, l);
  }

  lemma {:induction false} IntakeMatchesSound(inp: Input, ss: seq<Settlement>, im: IntakeMatch)
    requires im in IntakeMatchesOf(inp, ss)
    ensures exists s :: s in ss && s.id == im.settlementId && Dispose(inp, s).IntakeMatched?
  {
    var s, init := ss[|ss| - 1], ss[..|ss| - 1];
    if im in IntakeMatchesOf(inp, init) {
      IntakeMatchesSound(inp, init, im);
    } else {
      assert s in ss;
    }
  }

  lemma TakenIsMatched(inp: Input, s: Settlement)
    requires WellKeyed(inp) && s in inp.settlements && SettlementTaken(PlanOf(inp).matches, s)
    ensures Dispose(inp, s).Matched?
  {
    var m :| m in PlanOf(inp).matches && m.settlementId == s.id;
    MatchesSound(inp, inp.settlements, m);
    var t :| t in inp.settlements && Dispose(inp, t).Matched? && m == MatchOf(t, Dispose(inp, t).note, Dispose(inp, t).line);
    SameSettlement(inp, s, t);
  }

  /** Settlements sharing a reference are frozen, so a run never removes only some of them. */
  lemma FrozenGroupsSurvive(inp: Input, res: Input, s: Settlement, t: Settlement)
    requires WellKeyed(inp) && LeavesOpen(inp, res)
    requires s in inp.settlements && t in inp.settlements && s.id != t.id && s.bankReference == t.bankReference
    ensures s in res.settlements && t in res.settlements
  {
    SharerStays(inp, res, s, t);
    SharerStays(inp, res, t, s);
  }

  lemma SharerStays(inp: Input, res: Input, s: Settlement, t: Settlement)
    requires WellKeyed(inp) && LeavesOpen(inp, res)
    requires s in inp.settlements && t in inp.settlements && s.id != t.id && s.bankReference == t.bankReference
    ensures s in res.settlements
  {
    FrozenExactly(inp, s);
    if SettlementTaken(PlanOf(inp).matches, s) {
      TakenIsMatched(inp, s);
    }
  }

  lemma AloneBefore(inp: Input, res: Input, s: Settlement)
    requires WellKeyed(inp) && LeavesOpen(inp, res) && s in res.settlements
    requires forall t :: t in res.settlements && t.bankReference == s.bankReference ==> t.id == s.id
    ensures forall t :: t in inp.settlements && t.bankReference == s.bankReference ==> t.id == s.id
  {
    forall t | t in inp.settlements && t.bankReference == s.bankReference ensures t.id == s.id {
      if t.id != s.id {
        FrozenGroupsSurvive(inp, res, s, t);
      }
    }
  }

  // ---- running again ----

  lemma {:induction false} FirstLineKept(ls: seq<StatementLeg>, ms: seq<Match>, ref: string)
    requires FirstLine(ls, ref).Some? && !LineTaken(ms, FirstLine(ls, ref).value)
    ensures FirstLine(KeepLines(ls, ms), ref) == FirstLine(ls, ref)
  {
    var init, l := ls[..|ls| - 1], ls[|ls| - 1];
    if FirstLine(init, ref).Some? {
      FirstLineKept(init, ms, ref);
    }
    assert (KeepLines(init, ms) + [l])[..|KeepLines(init, ms)|] == KeepLines(init, ms);
  }

  /** The first line under the reference of a settlement that stays unmatched is not taken by the run. */
  lemma FirstLineUnchanged(inp: Input, s: Settlement)
    requires WellKeyed(inp) && s in inp.settlements && !SettlementTaken(PlanOf(inp).matches, s)
    requires forall t :: t in inp.settlements && t.bankReference == s.bankReference ==> t.id == s.id
    ensures var first := FirstLine(inp.lines, s.bankReference);
            first.Some? ==> FirstLine(KeepLines(inp.lines, PlanOf(inp).matches), s.bankReference) == first
  {
    var ms, first := PlanOf(inp).matches, FirstLine(inp.lines, s.bankReference);
    if first.Some? {
      if LineTaken(ms, first.value) {
        var m :| m in ms && m.statementId == first.value.statementId && m.lineNo == first.value.lineNo;
        var t, n, l := TakenBy(inp, m);
        SameLine(inp, l, first.value);
        SameSettlement(inp, s, t);
      }
      FirstLineKept(inp.lines, ms, s.bankReference);
    }
  }

  /** A second run over what the first left (no settlement, note or line added, any assessments, any
      date) has no three-way match. */
  lemma RerunMatchesNothing(inp: Input, res: Input)
    requires WellKeyed(inp) && LeavesOpen(inp, res) && res.lines == KeepLines(inp.lines, PlanOf(inp).matches)
    ensures PlanOf(res).matches == []
  {
    if PlanOf(res).matches != [] {
      var s, n, l := TakenBy(res, PlanOf(res).matches[0]);
      NoCleanMatchLeft(inp, res, s, n, l);
    }
  }

  lemma NoCleanMatchLeft(inp: Input, res: Input, s: Settlement, n: DebitNote, l: StatementLeg)
    requires WellKeyed(inp) && LeavesOpen(inp, res) && res.lines == KeepLines(inp.lines, PlanOf(inp).matches)
    requires s in res.settlements
    ensures !CleanMatch(res, s, n, l)
  {
    if CleanMatch(res, s, n, l) {
      AloneBefore(inp, res, s);
      FirstLineUnchanged(inp, s);
      assert CleanMatch(inp, s, n, l);
      PlannedWhenClean(inp, s, n, l);
    }
  }

  // ---- feeding lines in batches ----

  ghost predicate DistinctReferences(ls: seq<StatementLeg>) {
    forall k, l :: k in ls && l in ls && k.bankReference == l.bankReference ==> k == l
  }

  /** `whole` is `first` with more lines; `second` is what `first` leaves open, with its untaken lines and
      the additional ones, in any order. */
  ghost predicate Batched(first: Input, whole: Input, second: Input) {
    && WellKeyed(first) && WellKeyed(whole) && DistinctReferences(whole.lines)
    && whole == first.(lines := whole.lines) && (forall l :: l in first.lines ==> l in whole.lines)
    && LeavesOpen(first, second)
    && forall l :: l in second.lines <==> l in whole.lines && (l in first.lines ==> !LineTaken(PlanOf(first).matches, l))
  }

  lemma OnlyLine(ls: seq<StatementLeg>, l: StatementLeg)
    requires l in ls && forall k :: k in ls && k.bankReference == l.bankReference ==> k == l
    ensures FirstLine(ls, l.bankReference) == Some(l)
  {
  }

  lemma CleanInWhole(first: Input, whole: Input, s: Settlement, n: DebitNote, l: StatementLeg)
    requires DistinctReferences(whole.lines) && whole == first.(lines := whole.lines)
    requires forall k :: k in first.lines ==> k in whole.lines
    ensures CleanMatch(first, s, n, l) <==> CleanMatch(whole, s, n, l) && l in first.lines
  {
    if CleanMatch(first, s, n, l) {
      OnlyLine(whole.lines, l);
    }
    if CleanMatch(whole, s, n, l) && l in first.lines {
      OnlyLine(first.lines, l);
    }
  }

  /** The second batch matches exactly what one big batch would have matched on an additional line, unless
      the first batch had already settled that note. */
  lemma SecondBatchExactly(first: Input, whole: Input, second: Input, s: Settlement, n: DebitNote, l: StatementLeg)
    requires Batched(first, whole, second) && s in first.settlements
    ensures s in second.settlements && CleanMatch(second, s, n, l)
            <==> CleanMatch(whole, s, n, l) && l !in first.lines && !NoteTaken(PlanOf(first).matches, n)
  {
    if s in second.settlements && CleanMatch(second, s, n, l) {
      SecondIsWhole(first, whole, second, s, n, l);
    }
    if CleanMatch(whole, s, n, l) && l !in first.lines && !NoteTaken(PlanOf(first).matches, n) {
      WholeIsSecond(first, whole, second, s, n, l);
    }
  }

  lemma SecondIsWhole(first: Input, whole: Input, second: Input, s: Settlement, n: DebitNote, l: StatementLeg)
    requires Batched(first, whole, second) && s in first.settlements
    requires s in second.settlements && CleanMatch(second, s, n, l)
    ensures CleanMatch(whole, s, n, l) && l !in first.lines && !NoteTaken(PlanOf(first).matches, n)
  {
    AloneBefore(first, second, s);
    OnlyLine(whole.lines, l);
    assert CleanMatch(whole, s, n, l);
    CleanInWhole(first, whole, s, n, l);
    if l in first.lines {
      PlannedWhenClean(first, s, n, l);
    }
  }

  lemma WholeIsSecond(first: Input, whole: Input, second: Input, s: Settlement, n: DebitNote, l: StatementLeg)
    requires Batched(first, whole, second) && s in first.settlements
    requires CleanMatch(whole, s, n, l) && l !in first.lines && !NoteTaken(PlanOf(first).matches, n)
    ensures s in second.settlements && CleanMatch(second, s, n, l)
  {
    MatchedExactly(whole, s, n, l);
    assert Identify(first.notes, s).Some?;
    if SettlementTaken(PlanOf(first).matches, s) {
      var m :| m in PlanOf(first).matches && m.settlementId == s.id;
      var t, n', l' := TakenBy(first, m);
      SameSettlement(first, s, t);
    }
    OnlyLine(second.lines, l);
  }

  ghost predicate Names(s: Settlement, n: DebitNote) {
    n.id == s.debitNoteId || (s.debitNoteId == "" && n.documentNumber == s.bankReference != "")
  }

  /** No two settlements identify the same note. */
  ghost predicate NotesNamedOnce(inp: Input) {
    forall s, t, n | s in inp.settlements && t in inp.settlements && n in inp.notes :: Names(s, n) && Names(t, n) ==> s == t
  }

  /** Batching does not matter: when no two settlements identify one note, two batches plan together the
      matches of one. */
  lemma BatchingDoesNotMatter(first: Input, whole: Input, second: Input, m: Match)
    requires Batched(first, whole, second)
    requires NotesNamedOnce(first)
    ensures m in PlanOf(whole).matches <==> m in PlanOf(first).matches || m in PlanOf(second).matches
  {
    if m in PlanOf(whole).matches {
      var s, n, l := TakenBy(whole, m);
      CleanInWhole(first, whole, s, n, l);
      if l in first.lines {
        PlannedWhenClean(first, s, n, l);
      } else {
        NoteStillOpen(first, whole, s, n, l);
        SecondBatchExactly(first, whole, second, s, n, l);
        PlannedWhenClean(second, s, n, l);
      }
    }
    if m in PlanOf(first).matches {
      var s, n, l := TakenBy(first, m);
      CleanInWhole(first, whole, s, n, l);
      PlannedWhenClean(whole, s, n, l);
    }
    if m in PlanOf(second).matches {
      var s, n, l := TakenBy(second, m);
      SecondBatchExactly(first, whole, second, s, n, l);
      PlannedWhenClean(whole, s, n, l);
    }
  }

  lemma NoteStillOpen(first: Input, whole: Input, s: Settlement, n: DebitNote, l: StatementLeg)
    requires WellKeyed(first) && DistinctReferences(whole.lines) && whole == first.(lines := whole.lines)
    requires forall k :: k in first.lines ==> k in whole.lines
    requires NotesNamedOnce(first)
    requires s in first.settlements && CleanMatch(whole, s, n, l) && l !in first.lines
    ensures !NoteTaken(PlanOf(first).matches, n)
  {
    if NoteTaken(PlanOf(first).matches, n) {
      var m :| m in PlanOf(first).matches && m.noteId == n.id;
      var t, n', l' := TakenBy(first, m);
      SameNote(first, n, n');
      assert Names(s, n) && Names(t, n);
    }
  }

  const SHARED_FIRST := SHARED_INPUT.(lines := [SHARE_LINE_1])
  const SHARED_SECOND := Input([], [SHARE_2], [SHARE_LINE_2], [], "2026-02-01")

  lemma SharedFirstLines()
    ensures FirstLine(SHARED_FIRST.lines, "3") == Some(SHARE_LINE_1) && FirstLine(SHARED_FIRST.lines, "4") == None
  {
    assert "3"[0] != "4"[0];
    assert [SHARE_LINE_1][..0] == [];
  }

  lemma SharedReferences()
    ensures WellKeyed(SHARED_FIRST) && WellKeyed(SHARED_SECOND) && DistinctReferences(SHARED_INPUT.lines)
  {
    SharedKeys();
    assert "3"[0] != "4"[0];
  }

  /** The first batch matches the note with settlement 1 and nothing with settlement 2. */
  lemma SharedFirstPlan()
    ensures NoteTaken(PlanOf(SHARED_FIRST).matches, SHARED_NOTE)
    ensures SettlementTaken(PlanOf(SHARED_FIRST).matches, SHARE_1) && !SettlementTaken(PlanOf(SHARED_FIRST).matches, SHARE_2)
    ensures LineTaken(PlanOf(SHARED_FIRST).matches, SHARE_LINE_1)
  {
    SharedReferences();
    SharedFirstLines();
    assert "3"[0] != "4"[0] && "1"[0] != "2"[0];
    assert CleanMatch(SHARED_FIRST, SHARE_1, SHARED_NOTE, SHARE_LINE_1);
    PlannedWhenClean(SHARED_FIRST, SHARE_1, SHARED_NOTE, SHARE_LINE_1);
    assert MatchOf(SHARE_1, SHARED_NOTE, SHARE_LINE_1) in PlanOf(SHARED_FIRST).matches;
    if SettlementTaken(PlanOf(SHARED_FIRST).matches, SHARE_2) {
      var m :| m in PlanOf(SHARED_FIRST).matches && m.settlementId == SHARE_2.id;
      var s, n, l := TakenBy(SHARED_FIRST, m);
    }
  }

  lemma SharedLeavesOpen()
    ensures LeavesOpen(SHARED_FIRST, SHARED_SECOND)
  {
    SharedReferences();
    SharedFirstPlan();
  }

  lemma SharedBatches()
    ensures Batched(SHARED_FIRST, SHARED_INPUT, SHARED_SECOND)
  {
    SharedKeys();
    SharedReferences();
    SharedLeavesOpen();
    SharedFirstPlan();
    assert SHARE_LINE_1 != SHARE_LINE_2;
    assert !LineTaken(PlanOf(SHARED_FIRST).matches, SHARE_LINE_2) || SHARE_LINE_2 !in SHARED_FIRST.lines;
  }

  /** With one note claimed by two settlements batching does matter: the later line finds the note gone. */
  lemma SharedNoteLosesSecondBatch()
    ensures Batched(SHARED_FIRST, SHARED_INPUT, SHARED_SECOND)
    ensures var m := Match("n", "2", "st", 2, 5, "USD");
            && m in PlanOf(SHARED_INPUT).matches
            && m !in PlanOf(SHARED_FIRST).matches && m !in PlanOf(SHARED_SECOND).matches
  {
    SharedBatches();
    SharedFirstPlan();
    OneNoteTwice();
    var m := Match("n", "2", "st", 2, 5, "USD");
    assert m.settlementId == SHARE_2.id;
    assert SHARED_SECOND.notes == [];
    if m in PlanOf(SHARED_SECOND).matches {
      var s, n, l := TakenBy(SHARED_SECOND, m);
    }
  }
}
