/** What becomes of every record of a reconciliation input, in terms of the records alone: each disposition,
    each match and each exception is given by an if-and-only-if over settlements, notes, lines and assessments. */
module ReconDispositions {
  import opened Wrappers
  import opened ReconSpec
  import opened ReconTheorems
  import Recon
  import Text

  // ---- the records a settlement is compared with ----

  ghost predicate AloneUnder(inp: Input, s: Settlement) {
    forall t :: t in inp.settlements && t.bankReference == s.bankReference ==> t.id == s.id
  }

  /** The settlement names the note, or names none and was remitted under the note's document number. */
  predicate Names(s: Settlement, n: DebitNote) {
    n.id == s.debitNoteId || (s.debitNoteId == "" && n.documentNumber == s.bankReference != "")
  }

  ghost predicate NamesNone(inp: Input, s: Settlement) { forall n :: n in inp.notes ==> !Names(s, n) }

  /** The naira amount for a settlement in NGN, the dollar amount for any other. */
  predicate PaysInFull(s: Settlement, n: DebitNote) {
    && (s.currency == "NGN" ==> n.ngnMinor == s.amountMinor)
    && (s.currency != "NGN" ==> n.usdMinor == s.amountMinor)
  }

  ghost predicate FirstUnder(lines: seq<StatementLeg>, ref: string, l: StatementLeg) {
    exists k :: 0 <= k < |lines| && lines[k] == l && l.bankReference == ref
                && forall j :: 0 <= j < k ==> lines[j].bankReference != ref
  }

  predicate Under(intake: Intake, ref: string) {
    intake.mappingError == "" && ref in {intake.callReference, intake.assessmentId}
    && (ref == "" ==> intake.callReference == "")
  }

  ghost predicate FirstFor(intake: seq<Intake>, ref: string, i: Intake) {
    exists k :: 0 <= k < |intake| && intake[k] == i && Under(i, ref) && forall j :: 0 <= j < k ==> !Under(intake[j], ref)
  }

  // ---- the indexes find the first ----

  lemma {:induction false} FirstLineIs(lines: seq<StatementLeg>, ref: string, l: StatementLeg)
    ensures FirstLine(lines, ref) == Some(l) <==> FirstUnder(lines, ref, l)
  {
    if lines != [] {
      var init, last := lines[..|lines| - 1], lines[|lines| - 1];
      FirstLineIs(init, ref, l);
      if FirstLine(lines, ref) == Some(l) {
        if FirstLine(init, ref).Some? {
          var k :| 0 <= k < |init| && init[k] == l && l.bankReference == ref && forall j :: 0 <= j < k ==> init[j].bankReference != ref;
          assert lines[k] == l && forall j :: 0 <= j < k ==> lines[j] == init[j];
        } else {
          assert forall j :: 0 <= j < |init| ==> lines[j] in init;
          assert lines[|lines| - 1] == l;
        }
      }
      if FirstUnder(lines, ref, l) {
        var k :| 0 <= k < |lines| && lines[k] == l && l.bankReference == ref && forall j :: 0 <= j < k ==> lines[j].bankReference != ref;
        if k < |init| {
          assert init[k] == l && forall j :: 0 <= j < k ==> init[j] == lines[j];
        } else {
          assert forall j :: 0 <= j < |init| ==> init[j].bankReference != ref;
        }
      }
    }
  }

  lemma {:induction false} FirstIntakeIs(intake: seq<Intake>, ref: string, i: Intake)
    ensures FirstIntake(intake, ref) == Some(i) <==> FirstFor(intake, ref, i)
  {
    if intake != [] {
      var init, last := intake[..|intake| - 1], intake[|intake| - 1];
      FirstIntakeIs(init, ref, i);
      if FirstIntake(intake, ref) == Some(i) {
        if FirstIntake(init, ref).Some? {
          var k :| 0 <= k < |init| && init[k] == i && Under(i, ref) && forall j :: 0 <= j < k ==> !Under(init[j], ref);
          assert intake[k] == i && forall j :: 0 <= j < k ==> intake[j] == init[j];
        } else {
          assert forall j :: 0 <= j < |init| ==> intake[j] in init;
          assert intake[|intake| - 1] == i;
        }
      }
      if FirstFor(intake, ref, i) {
        var k :| 0 <= k < |intake| && intake[k] == i && Under(i, ref) && forall j :: 0 <= j < k ==> !Under(intake[j], ref);
        if k < |init| {
          assert init[k] == i && forall j :: 0 <= j < k ==> init[j] == intake[j];
        } else {
          assert forall j :: 0 <= j < |init| ==> !Under(init[j], ref);
        }
      }
    }
  }

  lemma IdentifyIs(inp: Input, s: Settlement, n: DebitNote)
    requires WellKeyed(inp)
    ensures Identify(inp.notes, s) == Some(n) <==> n in inp.notes && Names(s, n)
  {
    if n in inp.notes && Names(s, n) {
      var named := LastById(inp.notes, s.debitNoteId);
      if named.Some? && n.id == s.debitNoteId {
        SameNote(inp, n, named.value);
      }
    }
  }

  lemma IdentifyNone(inp: Input, s: Settlement)
    requires WellKeyed(inp)
    ensures Identify(inp.notes, s).None? <==> NamesNone(inp, s)
  {
    if Identify(inp.notes, s).Some? {
      IdentifyIs(inp, s, Identify(inp.notes, s).value);
    }
    if n :| n in inp.notes && Names(s, n) {
      IdentifyIs(inp, s, n);
    }
  }

  lemma FrozenIs(inp: Input, s: Settlement)
    requires WellKeyed(inp) && s in inp.settlements
    ensures |Siblings(inp.settlements, s.bankReference)| > 1 <==> !AloneUnder(inp, s)
  {
    FrozenExactly(inp, s);
  }

  // ---- the dispositions ----

  /** A settlement whose bank reference another settlement shares is frozen. */
  lemma FrozenIff(inp: Input, s: Settlement)
    requires WellKeyed(inp) && s in inp.settlements
    ensures Dispose(inp, s).Frozen? <==> !AloneUnder(inp, s)
  {
    FrozenIs(inp, s);
  }

  /** The four dispositions of a settlement that names an open note. */
  lemma NoteDispositions(inp: Input, s: Settlement, n: DebitNote, l: StatementLeg)
    requires WellKeyed(inp) && s in inp.settlements
    ensures var d, named := Dispose(inp, s), AloneUnder(inp, s) && n in inp.notes && Names(s, n);
            && (d == NoteMismatch(n) <==> named && !PaysInFull(s, n))
            && (d == Awaiting(n) <==>
                  named && PaysInFull(s, n) && forall k :: k in inp.lines ==> k.bankReference != s.bankReference)
            && (d == LineMismatch(n, l) <==>
                  named && PaysInFull(s, n) && FirstUnder(inp.lines, s.bankReference, l)
                  && (l.amountMinor != s.amountMinor || l.currency != s.currency))
            && (d == Matched(n, l) <==>
                  named && PaysInFull(s, n) && FirstUnder(inp.lines, s.bankReference, l)
                  && l.amountMinor == s.amountMinor && l.currency == s.currency)
  {
    FrozenIs(inp, s);
    IdentifyIs(inp, s, n);
    FirstLineIs(inp.lines, s.bankReference, l);
  }

  /** The three dispositions of a settlement that names none. */
  lemma IntakeDispositions(inp: Input, s: Settlement, i: Intake)
    requires WellKeyed(inp) && s in inp.settlements
    ensures var d, free := Dispose(inp, s), AloneUnder(inp, s) && NamesNone(inp, s);
            var answered := free && s.debitNoteId == "" && FirstFor(inp.intake, s.bankReference, i);
            && (d == IntakeMatched(i) <==> answered && i.totalMinor == s.amountMinor && i.currency == s.currency)
            && (d == IntakeMismatch(i) <==> answered && !(i.totalMinor == s.amountMinor && i.currency == s.currency))
            && (d == Unidentified <==>
                  free && (s.debitNoteId != "" || forall j :: j in inp.intake ==> !Under(j, s.bankReference)))
  {
    FrozenIs(inp, s);
    IdentifyNone(inp, s);
    FirstIntakeIs(inp.intake, s.bankReference, i);
    var found := FirstIntake(inp.intake, s.bankReference);
    if found.Some? {
      FirstIntakeIs(inp.intake, s.bankReference, found.value);
      assert found.value in inp.intake && Under(found.value, s.bankReference);
    } else {
      assert forall j :: j in inp.intake ==> !Answers(j, s.bankReference);
    }
  }

  // ---- the matches of a plan ----

  /** The match of three records. */
  ghost predicate Joins(inp: Input, s: Settlement, n: DebitNote, l: StatementLeg, m: Match) {
    && AloneUnder(inp, s) && n in inp.notes && Names(s, n) && PaysInFull(s, n)
    && FirstUnder(inp.lines, s.bankReference, l) && l.amountMinor == s.amountMinor && l.currency == s.currency
    && m.noteId == n.id && m.settlementId == s.id && m.statementId == l.statementId && m.lineNo == l.lineNo
    && m.amountMinor == s.amountMinor && m.currency == s.currency
  }

  /** A match is planned exactly for a settlement alone under its reference, the open note it names and pays
      in full, and the first line under that reference, for the same money. */
  lemma MatchesAre(inp: Input, m: Match)
    requires WellKeyed(inp)
    ensures m in PlanOf(inp).matches <==> exists s, n, l :: s in inp.settlements && Joins(inp, s, n, l, m)
  {
    if m in PlanOf(inp).matches {
      MatchesSound(inp, inp.settlements, m);
      var s :| s in inp.settlements && Dispose(inp, s).Matched? && m == MatchOf(s, Dispose(inp, s).note, Dispose(inp, s).line);
      NoteDispositions(inp, s, Dispose(inp, s).note, Dispose(inp, s).line);
      assert Joins(inp, s, Dispose(inp, s).note, Dispose(inp, s).line, m);
    }
    if s, n, l :| s in inp.settlements && Joins(inp, s, n, l, m) {
      NoteDispositions(inp, s, n, l);
      MatchesComplete(inp, inp.settlements, s);
    }
  }

  /** The link of a settlement to the assessment it settles. */
  ghost predicate Links(inp: Input, s: Settlement, i: Intake, im: IntakeMatch) {
    && AloneUnder(inp, s) && NamesNone(inp, s) && s.debitNoteId == ""
    && FirstFor(inp.intake, s.bankReference, i) && i.totalMinor == s.amountMinor && i.currency == s.currency
    && im.eventId == i.eventId && im.settlementId == s.id
  }

  lemma {:induction false} IntakeMatchesSound(inp: Input, ss: seq<Settlement>, im: IntakeMatch)
    requires im in IntakeMatchesOf(inp, ss)
    ensures exists s :: s in ss && Dispose(inp, s).IntakeMatched? && im == IntakeMatch(Dispose(inp, s).intake.eventId, s.id)
  {
    var s, init := ss[|ss| - 1], ss[..|ss| - 1];
    if im in IntakeMatchesOf(inp, init) {
      IntakeMatchesSound(inp, init, im);
    } else {
      assert s in ss;
    }
  }

  lemma {:induction false} IntakeMatchesComplete(inp: Input, ss: seq<Settlement>, s: Settlement)
    requires s in ss && Dispose(inp, s).IntakeMatched?
    ensures IntakeMatch(Dispose(inp, s).intake.eventId, s.id) in IntakeMatchesOf(inp, ss)
  {
    if s != ss[|ss| - 1] {
      assert s in ss[..|ss| - 1];
      IntakeMatchesComplete(inp, ss[..|ss| - 1], s);
    }
  }

  /** An assessment is linked exactly to a settlement that names no note, alone under a reference which that
      assessment is the first mapped one to answer, for the same total and currency. */
  lemma IntakeMatchesAre(inp: Input, im: IntakeMatch)
    requires WellKeyed(inp)
    ensures im in PlanOf(inp).intakeMatches <==> exists s, i :: s in inp.settlements && Links(inp, s, i, im)
  {
    if im in PlanOf(inp).intakeMatches {
      IntakeMatchesSound(inp, inp.settlements, im);
      var s :| s in inp.settlements && Dispose(inp, s).IntakeMatched? && im == IntakeMatch(Dispose(inp, s).intake.eventId, s.id);
      IntakeDispositions(inp, s, Dispose(inp, s).intake);
      assert Links(inp, s, Dispose(inp, s).intake, im);
    }
    if s, i :| s in inp.settlements && Links(inp, s, i, im) {
      IntakeDispositions(inp, s, i);
      IntakeMatchesComplete(inp, inp.settlements, s);
    }
  }

  /** The notes to settle are those of the matches, each by one of its settlements. */
  lemma {:induction false} SettledNotesAre(ms: seq<Match>, id: string)
    ensures id in SettledNotes(ms) <==> exists m :: m in ms && m.noteId == id
    ensures id in SettledNotes(ms) ==> exists m :: m in ms && m.noteId == id && m.settlementId == SettledNotes(ms)[id]
  {
    if ms != [] {
      var init, last := ms[..|ms| - 1], ms[|ms| - 1];
      SettledNotesAre(init, id);
      assert last in ms && forall m :: m in ms <==> m in init || m == last;
    }
  }

  // ---- the exceptions of a plan ----

  ghost predicate NamedAndAlone(inp: Input, s: Settlement, n: DebitNote) {
    AloneUnder(inp, s) && n in inp.notes && Names(s, n)
  }

  /** The exception of a shared bank reference. */
  ghost predicate RaisesShared(inp: Input, s: Settlement, e: Exception) {
    && !AloneUnder(inp, s)
    && e == Exception(DuplicateBankRef, OfSettlement(s.id), "", s.id, "", 0, None, Some(s.amountMinor), s.currency)
  }

  /** The exception of a settlement that identifies nothing. */
  ghost predicate RaisesUnmatched(inp: Input, s: Settlement, e: Exception) {
    && AloneUnder(inp, s) && NamesNone(inp, s)
    && (s.debitNoteId != "" || forall j :: j in inp.intake ==> !Under(j, s.bankReference))
    && e == Exception(UnmatchedSettlement, OfSettlement(s.id), "", s.id, "", 0, None, Some(s.amountMinor), s.currency)
  }

  /** The exception of a settlement that differs from its note: expected the note's amount, got the settlement's. */
  ghost predicate RaisesNote(inp: Input, s: Settlement, e: Exception) {
    exists n :: && NamedAndAlone(inp, s, n) && !PaysInFull(s, n)
                && e == Exception(AmountMismatch, OfSettlement(s.id), n.id, s.id, "", 0,
                                  Some(if s.currency == "NGN" then n.ngnMinor else n.usdMinor), Some(s.amountMinor), s.currency)
  }

  /** The exception of a line that differs from its settlement: expected the settlement's amount, got the line's. */
  ghost predicate RaisesLine(inp: Input, s: Settlement, e: Exception) {
    exists n, l :: && NamedAndAlone(inp, s, n) && PaysInFull(s, n) && FirstUnder(inp.lines, s.bankReference, l)
                   && (l.amountMinor != s.amountMinor || l.currency != s.currency)
                   && e == Exception(AmountMismatch, OfLine(l.statementId, l.lineNo), n.id, s.id, l.statementId, l.lineNo,
                                     Some(s.amountMinor), Some(l.amountMinor), s.currency)
  }

  /** The exception of a settlement that differs from its assessment: expected the total, got the settlement's. */
  ghost predicate RaisesIntake(inp: Input, s: Settlement, e: Exception) {
    exists i :: && AloneUnder(inp, s) && NamesNone(inp, s) && s.debitNoteId == "" && FirstFor(inp.intake, s.bankReference, i)
                && (i.totalMinor != s.amountMinor || i.currency != s.currency)
                && e == Exception(AmountMismatch, OfSettlement(s.id), "", s.id, "", 0,
                                  Some(i.totalMinor), Some(s.amountMinor), s.currency)
  }

  ghost predicate SettlementRaises(inp: Input, s: Settlement, e: Exception) {
    RaisesShared(inp, s, e) || RaisesUnmatched(inp, s, e) || RaisesNote(inp, s, e) || RaisesLine(inp, s, e) || RaisesIntake(inp, s, e)
  }

  /** A line under whose reference nothing was remitted. */
  ghost predicate LineRaises(inp: Input, l: StatementLeg, e: Exception) {
    && (forall s :: s in inp.settlements ==> s.bankReference != l.bankReference)
    && e == Exception(UnmatchedStatement, OfLine(l.statementId, l.lineNo), "", "", l.statementId, l.lineNo,
                      None, Some(l.amountMinor), l.currency)
  }

  /** A note due before the date of the run that no settlement names or was remitted under. */
  ghost predicate NoteRaises(inp: Input, n: DebitNote, e: Exception) {
    && Text.Precedes(n.dueDate, inp.asOf)
    && (forall s :: s in inp.settlements ==> s.debitNoteId != n.id && s.bankReference != n.documentNumber)
    && e == Exception(UnmatchedAssessment, OfNote(n.id), n.id, "", "", 0, Some(n.usdMinor), None, "USD")
  }

  /** An assessment that could not be mapped. */
  predicate IntakeRaises(i: Intake, e: Exception) {
    i.mappingError != "" && e == Exception(UnmatchedStatement, OfIntake(i.eventId), "", "", "", 0, None, None, "")
  }

  lemma RaisedBySettlement(inp: Input, s: Settlement, e: Exception)
    requires WellKeyed(inp) && s in inp.settlements
    ensures SettlementException(s, Dispose(inp, s)) == Some(e) <==> SettlementRaises(inp, s, e)
  {
    FrozenIff(inp, s);
    var d := Dispose(inp, s);
    if SettlementException(s, d) == Some(e) {
      DispositionRaises(inp, s, e);
    }
    if RaisesUnmatched(inp, s, e) {
      IntakeDispositions(inp, s, Intake("", "", "", 0, "", ""));
    }
    if n :| NamedAndAlone(inp, s, n) && !PaysInFull(s, n)
            && e == Exception(AmountMismatch, OfSettlement(s.id), n.id, s.id, "", 0,
                              Some(if s.currency == "NGN" then n.ngnMinor else n.usdMinor), Some(s.amountMinor), s.currency) {
      NoteDispositions(inp, s, n, StatementLeg("", 0, "", 0, ""));
    }
    if n, l :| NamedAndAlone(inp, s, n) && PaysInFull(s, n) && FirstUnder(inp.lines, s.bankReference, l)
               && (l.amountMinor != s.amountMinor || l.currency != s.currency)
               && e == Exception(AmountMismatch, OfLine(l.statementId, l.lineNo), n.id, s.id, l.statementId, l.lineNo,
                                 Some(s.amountMinor), Some(l.amountMinor), s.currency) {
      NoteDispositions(inp, s, n, l);
    }
    if i :| AloneUnder(inp, s) && NamesNone(inp, s) && s.debitNoteId == "" && FirstFor(inp.intake, s.bankReference, i)
            && (i.totalMinor != s.amountMinor || i.currency != s.currency)
            && e == Exception(AmountMismatch, OfSettlement(s.id), "", s.id, "", 0,
                              Some(i.totalMinor), Some(s.amountMinor), s.currency) {
      IntakeDispositions(inp, s, i);
    }
  }

  lemma DispositionRaises(inp: Input, s: Settlement, e: Exception)
    requires WellKeyed(inp) && s in inp.settlements && SettlementException(s, Dispose(inp, s)) == Some(e)
    ensures SettlementRaises(inp, s, e)
  {
    var d := Dispose(inp, s);
    match d
    case Frozen => FrozenIff(inp, s);
    case Unidentified => IntakeDispositions(inp, s, Intake("", "", "", 0, "", ""));
    case IntakeMismatch(i) => IntakeDispositions(inp, s, i);
    case NoteMismatch(n) =>
      NoteDispositions(inp, s, n, StatementLeg("", 0, "", 0, ""));
      assert NamedAndAlone(inp, s, n);
    case LineMismatch(n, l) =>
      NoteDispositions(inp, s, n, l);
      assert NamedAndAlone(inp, s, n);
    case _ =>
  }

  lemma {:induction false} InSettlementExceptions(inp: Input, ss: seq<Settlement>, e: Exception)
    ensures e in SettlementExceptions(inp, ss) <==> exists s :: s in ss && SettlementException(s, Dispose(inp, s)) == Some(e)
  {
    if ss != [] {
      var init, last := ss[..|ss| - 1], ss[|ss| - 1];
      InSettlementExceptions(inp, init, e);
      assert forall s :: s in ss <==> s in init || s == last;
    }
  }

  lemma {:induction false} InLineExceptions(inp: Input, ls: seq<StatementLeg>, e: Exception)
    requires WellKeyed(inp) && forall l :: l in ls ==> l in inp.lines
    ensures e in LineExceptions(inp, ls) <==> exists l :: l in ls && LineRaises(inp, l, e)
  {
    if ls != [] {
      var init, last := ls[..|ls| - 1], ls[|ls| - 1];
      OrphanIs(inp, last);
      InLineExceptions(inp, init, e);
      if e in LineExceptions(inp, init) {
        var l :| l in init && LineRaises(inp, l, e);
        assert l in ls && LineRaises(inp, l, e);
      } else if e in LineExceptions(inp, ls) {
        assert last in ls && LineRaises(inp, last, e);
      }
      if l :| l in ls && LineRaises(inp, l, e) {
        assert l in init || l == last;
      }
    }
  }

  /** A taken line has a settlement under its reference. */
  lemma OrphanIs(inp: Input, l: StatementLeg)
    requires WellKeyed(inp) && l in inp.lines
    ensures LineOrphan(inp, l) <==> forall s :: s in inp.settlements ==> s.bankReference != l.bankReference
  {
    if LineTaken(MatchesOf(inp, inp.settlements), l) {
      var m :| m in PlanOf(inp).matches && m.statementId == l.statementId && m.lineNo == l.lineNo;
      MatchesAre(inp, m);
      var s, n, k :| s in inp.settlements && Joins(inp, s, n, k, m);
      assert k in inp.lines;
      SameLine(inp, k, l);
    }
  }

  lemma {:induction false} InNoteExceptions(inp: Input, ns: seq<DebitNote>, e: Exception)
    requires WellKeyed(inp) && forall n :: n in ns ==> n in inp.notes
    ensures e in NoteExceptions(inp, ns) <==> exists n :: n in ns && NoteRaises(inp, n, e)
  {
    if ns != [] {
      var init, last := ns[..|ns| - 1], ns[|ns| - 1];
      OverdueIs(inp, last);
      InNoteExceptions(inp, init, e);
      if e in NoteExceptions(inp, init) {
        var n :| n in init && NoteRaises(inp, n, e);
        assert n in ns && NoteRaises(inp, n, e);
      } else if e in NoteExceptions(inp, ns) {
        assert last in ns && NoteRaises(inp, last, e);
      }
      if n :| n in ns && NoteRaises(inp, n, e) {
        assert n in init || n == last;
      }
    }
  }

  /** A taken note has a settlement that names it or was remitted under its document number. */
  lemma OverdueIs(inp: Input, n: DebitNote)
    requires WellKeyed(inp) && n in inp.notes
    ensures NoteOverdue(inp, n) <==>
            Text.Precedes(n.dueDate, inp.asOf)
            && forall s :: s in inp.settlements ==> s.debitNoteId != n.id && s.bankReference != n.documentNumber
  {
    Text.LessIsFirstDifference(n.dueDate, inp.asOf);
    if NoteTaken(MatchesOf(inp, inp.settlements), n) {
      var m :| m in PlanOf(inp).matches && m.noteId == n.id;
      MatchesAre(inp, m);
      var s, k, l :| s in inp.settlements && Joins(inp, s, k, l, m);
      SameNote(inp, k, n);
    }
    if !NoteOverdue(inp, n) && Text.Less(n.dueDate, inp.asOf) && !NoteTaken(MatchesOf(inp, inp.settlements), n) {
      var s :| s in inp.settlements && Concerns(s, n);
    }
    if NoteOverdue(inp, n) {
      forall s | s in inp.settlements ensures s.debitNoteId != n.id && s.bankReference != n.documentNumber {
        assert !Concerns(s, n);
      }
    }
  }

  lemma {:induction false} InIntakeExceptions(intake: seq<Intake>, e: Exception)
    ensures e in IntakeExceptions(intake) <==> exists i :: i in intake && IntakeRaises(i, e)
  {
    if intake != [] {
      var init, last := intake[..|intake| - 1], intake[|intake| - 1];
      InIntakeExceptions(init, e);
      if e in IntakeExceptions(init) {
        var i :| i in init && IntakeRaises(i, e);
        assert i in intake && IntakeRaises(i, e);
      } else if e in IntakeExceptions(intake) {
        assert last in intake && IntakeRaises(last, e);
      }
      if i :| i in intake && IntakeRaises(i, e) {
        assert i in init || i == last;
      }
    }
  }

  /** The exceptions of a plan, over the records of the input: what is raised, for what, and with which amounts. */
  lemma RaisedExactly(inp: Input, e: Exception)
    requires WellKeyed(inp)
    ensures e in PlanOf(inp).exceptions <==>
            || (exists s :: s in inp.settlements && SettlementRaises(inp, s, e))
            || (exists l :: l in inp.lines && LineRaises(inp, l, e))
            || (exists n :: n in inp.notes && NoteRaises(inp, n, e))
            || (exists i :: i in inp.intake && IntakeRaises(i, e))
  {
    InSettlementExceptions(inp, inp.settlements, e);
    forall s | s in inp.settlements
      ensures SettlementException(s, Dispose(inp, s)) == Some(e) <==> SettlementRaises(inp, s, e)
    {
      RaisedBySettlement(inp, s, e);
    }
    InLineExceptions(inp, inp.lines, e);
    InNoteExceptions(inp, inp.notes, e);
    InIntakeExceptions(inp.intake, e);
  }
}
