/** The reconciliation planner as it runs: maps filled by loops, flags set while matching, exceptions
    appended as they are found. Each loop is proved to produce its part of ReconSpec.PlanOf. */
module Recon {
  import opened Wrappers
  import opened ReconSpec
  import Text
  import Decimal

  // ---- keys of lines ----

  lemma ShowNatInjective(a: nat, b: nat)
    requires ShowNat(a) == ShowNat(b)
    ensures a == b
  {
    var x, y := Decimal.Digits(a), Decimal.Digits(b);
    assert |x| == |y|;
    forall i | 0 <= i < |x| ensures x[i] == y[i] {
      assert ShowNat(a)[i] == Character(x[i]) && ShowNat(b)[i] == Character(y[i]);
    }
    assert x == y;
    Decimal.ValueOfDigits(a);
    Decimal.ValueOfDigits(b);
  }

  lemma ShowNatDigits(n: nat)
    ensures forall c :: c in ShowNat(n) ==> '0' <= c <= '9'
  {
    var ds := Decimal.Digits(n);
    forall i | 0 <= i < |ds| ensures '0' <= ShowNat(n)[i] <= '9' {
      assert ShowNat(n)[i] == Character(ds[i]);
    }
  }

  lemma ShowInjective(a: int, b: int)
    requires Show(a) == Show(b)
    ensures a == b
  {
    if a < 0 {
      ShowNatDigits(-a);
      assert Show(a)[1..] == ShowNat(-a);
    } else {
      ShowNatDigits(a);
    }
    if b < 0 {
      ShowNatDigits(-b);
      assert Show(b)[1..] == ShowNat(-b);
    } else {
      ShowNatDigits(b);
    }
    assert a < 0 ==> Show(a)[0] == '-';
    assert b < 0 ==> Show(b)[0] == '-';
    assert a >= 0 ==> Show(a)[0] in ShowNat(a);
    assert b >= 0 ==> Show(b)[0] in ShowNat(b);
    if a < 0 {
      ShowNatInjective(-a, -b);
    } else {
      ShowNatInjective(a, b);
    }
  }

  lemma ShowHasNoColon(n: int)
    ensures ':' !in Show(n)
  {
    ShowNatDigits(if n < 0 then -n else n);
  }

  function Reverse(s: string): (r: string)
    ensures |r| == |s| && forall i :: 0 <= i < |s| ==> r[i] == s[|s| - 1 - i]
    ensures forall c :: c in r <==> c in s
  {
    if s == "" then "" else Reverse(s[1..]) + [s[0]]
  }

  /** The last colon ends the statement id, so the text names the pair. */
  lemma LineKeyInjective(s: string, n: int, t: string, m: int)
    requires LineKey(s, n) == LineKey(t, m)
    ensures s == t && n == m
  {
    ShowHasNoColon(n);
    ShowHasNoColon(m);
    ReverseJoin(s, Show(n));
    ReverseJoin(t, Show(m));
    Text.JoinInjective(Reverse(Show(n)), Reverse(s), Reverse(Show(m)), Reverse(t), ':');
    ReverseTwice(Show(n));
    ReverseTwice(Show(m));
    ReverseTwice(s);
    ReverseTwice(t);
    ShowInjective(n, m);
  }

  lemma ReverseJoin(a: string, b: string)
    ensures Reverse(a + [':'] + b) == Reverse(b) + [':'] + Reverse(a)
  {
  }

  lemma ReverseTwice(s: string)
    ensures Reverse(Reverse(s)) == s
  {
  }

  // ---- the indexes ----

  method IndexNotes(notes: seq<DebitNote>) returns (byId: map<string, DebitNote>, byDocument: map<string, DebitNote>)
    ensures forall id :: (id in byId <==> LastById(notes, id).Some?) && (id in byId ==> LastById(notes, id) == Some(byId[id]))
    ensures forall d :: (d in byDocument <==> LastByDocument(notes, d).Some?)
                        && (d in byDocument ==> LastByDocument(notes, d) == Some(byDocument[d]))
  {
    byId, byDocument := map[], map[];
    for k := 0 to |notes|
      invariant forall id :: (id in byId <==> LastById(notes[..k], id).Some?)
                             && (id in byId ==> LastById(notes[..k], id) == Some(byId[id]))
      invariant forall d :: (d in byDocument <==> LastByDocument(notes[..k], d).Some?)
                            && (d in byDocument ==> LastByDocument(notes[..k], d) == Some(byDocument[d]))
    {
      var note := notes[k];
      assert notes[..k + 1][..k] == notes[..k];
      byId := byId[note.id := note];
      if note.documentNumber != "" {
        byDocument := byDocument[note.documentNumber := note];
      }
    }
    assert notes[..|notes|] == notes;
  }

  method IndexLines(lines: seq<StatementLeg>) returns (byRef: map<string, StatementLeg>)
    ensures forall r :: (r in byRef <==> FirstLine(lines, r).Some?) && (r in byRef ==> FirstLine(lines, r) == Some(byRef[r]))
  {
    byRef := map[];
    for k := 0 to |lines|
      invariant forall r :: (r in byRef <==> FirstLine(lines[..k], r).Some?)
                            && (r in byRef ==> FirstLine(lines[..k], r) == Some(byRef[r]))
    {
      assert lines[..k + 1][..k] == lines[..k];
      if lines[k].bankReference !in byRef {
        byRef := byRef[lines[k].bankReference := lines[k]];
      }
    }
    assert lines[..|lines|] == lines;
  }

  method GroupSettlements(ss: seq<Settlement>) returns (byRef: map<string, seq<Settlement>>)
    ensures forall r :: (r in byRef <==> Siblings(ss, r) != []) && (r in byRef ==> byRef[r] == Siblings(ss, r))
  {
    byRef := map[];
    for k := 0 to |ss|
      invariant forall r :: (r in byRef <==> Siblings(ss[..k], r) != []) && (r in byRef ==> byRef[r] == Siblings(ss[..k], r))
    {
      assert ss[..k + 1][..k] == ss[..k];
      var r := ss[k].bankReference;
      byRef := byRef[r := (if r in byRef then byRef[r] else []) + [ss[k]]];
    }
    assert ss[..|ss|] == ss;
  }

  method IndexIntake(intake: seq<Intake>) returns (byRef: map<string, Intake>)
    ensures forall r :: (r in byRef <==> FirstIntake(intake, r).Some?) && (r in byRef ==> FirstIntake(intake, r) == Some(byRef[r]))
  {
    byRef := map[];
    for k := 0 to |intake|
      invariant forall r :: (r in byRef <==> FirstIntake(intake[..k], r).Some?)
                            && (r in byRef ==> FirstIntake(intake[..k], r) == Some(byRef[r]))
    {
      assert intake[..k + 1][..k] == intake[..k];
      var i := intake[k];
      if i.mappingError == "" {
        if i.callReference !in byRef {
          byRef := byRef[i.callReference := i];
        }
        if i.assessmentId != "" && i.assessmentId !in byRef {
          byRef := byRef[i.assessmentId := i];
        }
      }
    }
    assert intake[..|intake|] == intake;
  }

  // ---- matching ----

  /** What has been decided and flagged after looking at some of the settlements. */
  datatype Progress = Progress(
    matches: seq<Match>, exceptions: seq<Exception>, settledNotes: map<string, string>, intakeMatches: seq<IntakeMatch>,
    matchedNotes: set<string>, matchedLines: set<string>)

  ghost predicate Reached(inp: Input, ss: seq<Settlement>, p: Progress) {
    && p.matches == MatchesOf(inp, ss)
    && p.exceptions == SettlementExceptions(inp, ss)
    && p.settledNotes == SettledNotes(p.matches)
    && p.intakeMatches == IntakeMatchesOf(inp, ss)
    && (forall id :: id in p.matchedNotes <==> NamesNote(p.matches, id))
    && (forall key :: key in p.matchedLines <==> NamesLine(p.matches, key))
  }

  predicate NamesNote(ms: seq<Match>, id: string) {
    exists m :: m in ms && m.noteId == id
  }

  predicate NamesLine(ms: seq<Match>, key: string) {
    exists m :: m in ms && LineKey(m.statementId, m.lineNo) == key
  }

  /** One settlement against the indexes. */
  method Classify(inp: Input, s: Settlement, settlementsByRef: map<string, seq<Settlement>>, notesById: map<string, DebitNote>,
                  notesByDoc: map<string, DebitNote>, linesByRef: map<string, StatementLeg>, intakeByRef: map<string, Intake>)
    returns (d: Disposition)
    requires s.bankReference in settlementsByRef
    requires settlementsByRef[s.bankReference] == Siblings(inp.settlements, s.bankReference)
    requires s.debitNoteId in notesById <==> LastById(inp.notes, s.debitNoteId).Some?
    requires s.debitNoteId in notesById ==> LastById(inp.notes, s.debitNoteId) == Some(notesById[s.debitNoteId])
    requires s.bankReference in notesByDoc <==> LastByDocument(inp.notes, s.bankReference).Some?
    requires s.bankReference in notesByDoc ==> LastByDocument(inp.notes, s.bankReference) == Some(notesByDoc[s.bankReference])
    requires s.bankReference in linesByRef <==> FirstLine(inp.lines, s.bankReference).Some?
    requires s.bankReference in linesByRef ==> FirstLine(inp.lines, s.bankReference) == Some(linesByRef[s.bankReference])
    requires s.bankReference in intakeByRef <==> FirstIntake(inp.intake, s.bankReference).Some?
    requires s.bankReference in intakeByRef ==> FirstIntake(inp.intake, s.bankReference) == Some(intakeByRef[s.bankReference])
    ensures d == Dispose(inp, s)
  {
    if |settlementsByRef[s.bankReference]| > 1 {
      d := Frozen;
    } else {
      var identified := s.debitNoteId in notesById;
      var byDocument := !identified && s.debitNoteId == "" && s.bankReference in notesByDoc;
      if !identified && !byDocument {
        if s.bankReference in intakeByRef && s.debitNoteId == "" {
          var i := intakeByRef[s.bankReference];
          d := if i.totalMinor == s.amountMinor && i.currency == s.currency then IntakeMatched(i) else IntakeMismatch(i);
        } else {
          d := Unidentified;
        }
      } else {
        var note := if identified then notesById[s.debitNoteId] else notesByDoc[s.bankReference];
        if NoteAmountIn(note, s.currency) != s.amountMinor {
          d := NoteMismatch(note);
        } else if s.bankReference !in linesByRef {
          d := Awaiting(note);
        } else {
          var line := linesByRef[s.bankReference];
          d := if line.amountMinor != s.amountMinor || line.currency != s.currency then LineMismatch(note, line) else Matched(note, line);
        }
      }
    }
  }

  method MatchSettlements(inp: Input) returns (p: Progress, settlementsByRef: map<string, seq<Settlement>>)
    ensures Reached(inp, inp.settlements, p)
    ensures forall r :: r in settlementsByRef <==> Siblings(inp.settlements, r) != []
  {
    var notesById, notesByDoc := IndexNotes(inp.notes);
    var linesByRef := IndexLines(inp.lines);
    settlementsByRef := GroupSettlements(inp.settlements);
    var intakeByRef := IndexIntake(inp.intake);
    p := Progress([], [], map[], [], {}, {});
    for k := 0 to |inp.settlements|
      invariant Reached(inp, inp.settlements[..k], p)
    {
      var s := inp.settlements[k];
      assert s in Siblings(inp.settlements, s.bankReference);
      var d := Classify(inp, s, settlementsByRef, notesById, notesByDoc, linesByRef, intakeByRef);
      p := Decide(inp, inp.settlements[..k], s, d, p);
      assert inp.settlements[..k] + [s] == inp.settlements[..k + 1];
    }
    assert inp.settlements[..|inp.settlements|] == inp.settlements;
  }

  lemma FlagsGrow(ms: seq<Match>, m: Match)
    ensures SettledNotes(ms + [m]) == SettledNotes(ms)[m.noteId := m.settlementId]
    ensures forall id :: NamesNote(ms + [m], id) <==> NamesNote(ms, id) || id == m.noteId
    ensures forall key :: NamesLine(ms + [m], key) <==> NamesLine(ms, key) || key == LineKey(m.statementId, m.lineNo)
  {
    assert (ms + [m])[..|ms|] == ms;
    assert m in ms + [m];
  }

  lemma OneMore(inp: Input, before: seq<Settlement>, s: Settlement, d: Disposition)
    requires d == Dispose(inp, s)
    ensures MatchesOf(inp, before + [s]) == MatchesOf(inp, before) + (if d.Matched? then [MatchOf(s, d.note, d.line)] else [])
    ensures IntakeMatchesOf(inp, before + [s])
            == IntakeMatchesOf(inp, before) + (if d.IntakeMatched? then [IntakeMatch(d.intake.eventId, s.id)] else [])
    ensures SettlementExceptions(inp, before + [s])
            == SettlementExceptions(inp, before)
               + (if SettlementException(s, d).Some? then [SettlementException(s, d).value] else [])
  {
    assert (before + [s])[..|before|] == before;
  }

  /** Append one settlement's decision and set its flags. */
  method Decide(inp: Input, ghost before: seq<Settlement>, s: Settlement, d: Disposition, p: Progress) returns (q: Progress)
    requires Reached(inp, before, p) && d == Dispose(inp, s)
    ensures Reached(inp, before + [s], q)
  {
    OneMore(inp, before, s, d);
    if d.Matched? {
      FlagsGrow(p.matches, MatchOf(s, d.note, d.line));
    }
    q := Append(s, d, p);
  }

  method Append(s: Settlement, d: Disposition, p: Progress) returns (q: Progress)
    ensures d.Matched? ==>
              q == p.(matches := p.matches + [MatchOf(s, d.note, d.line)], settledNotes := p.settledNotes[d.note.id := s.id],
                      matchedNotes := p.matchedNotes + {d.note.id},
                      matchedLines := p.matchedLines + {LineKey(d.line.statementId, d.line.lineNo)})
    ensures d.IntakeMatched? ==> q == p.(intakeMatches := p.intakeMatches + [IntakeMatch(d.intake.eventId, s.id)])
    ensures !d.Matched? && !d.IntakeMatched? ==>
              q == p.(exceptions := p.exceptions
                        + (if SettlementException(s, d).Some? then [SettlementException(s, d).value] else []))
  {
    match d
    case Matched(note, line) =>
      q := p.(matches := p.matches + [MatchOf(s, note, line)], settledNotes := p.settledNotes[note.id := s.id],
              matchedNotes := p.matchedNotes + {note.id}, matchedLines := p.matchedLines + {LineKey(line.statementId, line.lineNo)});
    case IntakeMatched(i) =>
      q := p.(intakeMatches := p.intakeMatches + [IntakeMatch(i.eventId, s.id)]);
    case Awaiting(_) =>
      q := p;
      assert p.exceptions + [] == p.exceptions;
    case _ =>
      q := p.(exceptions := p.exceptions + [SettlementException(s, d).value]);
  }

  // ---- the other exceptions ----

  method FlagLines(inp: Input, p: Progress, settlementsByRef: map<string, seq<Settlement>>) returns (es: seq<Exception>)
    requires Reached(inp, inp.settlements, p)
    requires forall r :: r in settlementsByRef <==> Siblings(inp.settlements, r) != []
    ensures es == LineExceptions(inp, inp.lines)
  {
    es := [];
    for k := 0 to |inp.lines|
      invariant es == LineExceptions(inp, inp.lines[..k])
    {
      assert inp.lines[..k + 1][..k] == inp.lines[..k];
      var l := inp.lines[k];
      LineFlag(inp, p, l);
      OrphanByIndex(inp, l);
      if LineKey(l.statementId, l.lineNo) !in p.matchedLines && l.bankReference !in settlementsByRef {
        es := es + [Exception(UnmatchedStatement, OfLine(l.statementId, l.lineNo), "", "", l.statementId, l.lineNo,
                              None, Some(l.amountMinor), l.currency)];
      }
    }
    assert inp.lines[..|inp.lines|] == inp.lines;
  }

  /** The textual flag says exactly that the line is taken. */
  lemma LineFlag(inp: Input, p: Progress, l: StatementLeg)
    requires Reached(inp, inp.settlements, p)
    ensures LineKey(l.statementId, l.lineNo) in p.matchedLines <==> LineTaken(p.matches, l)
  {
    if LineKey(l.statementId, l.lineNo) in p.matchedLines {
      var m :| m in p.matches && LineKey(m.statementId, m.lineNo) == LineKey(l.statementId, l.lineNo);
      LineKeyInjective(m.statementId, m.lineNo, l.statementId, l.lineNo);
    }
  }

  lemma OrphanByIndex(inp: Input, l: StatementLeg)
    ensures Siblings(inp.settlements, l.bankReference) == []
            <==> forall s :: s in inp.settlements ==> s.bankReference != l.bankReference
  {
    if Siblings(inp.settlements, l.bankReference) != [] {
      assert Siblings(inp.settlements, l.bankReference)[0] in inp.settlements;
    }
  }

  method FlagNotes(inp: Input, p: Progress) returns (es: seq<Exception>)
    requires Reached(inp, inp.settlements, p)
    ensures es == NoteExceptions(inp, inp.notes)
  {
    es := [];
    for k := 0 to |inp.notes|
      invariant es == NoteExceptions(inp, inp.notes[..k])
    {
      assert inp.notes[..k + 1][..k] == inp.notes[..k];
      var n := inp.notes[k];
      if n.id !in p.matchedNotes && Text.Less(n.dueDate, inp.asOf) {
        var hasSettlement := HasSettlement(inp.settlements, n);
        if !hasSettlement {
          es := es + [Exception(UnmatchedAssessment, OfNote(n.id), n.id, "", "", 0, Some(n.usdMinor), None, "USD")];
        }
      }
    }
    assert inp.notes[..|inp.notes|] == inp.notes;
  }

  method HasSettlement(ss: seq<Settlement>, n: DebitNote) returns (found: bool)
    ensures found <==> exists s :: s in ss && Concerns(s, n)
  {
    found := false;
    for k := 0 to |ss|
      invariant !found && forall s :: s in ss[..k] ==> !Concerns(s, n)
    {
      if Concerns(ss[k], n) {
        return true;
      }
    }
    assert ss[..|ss|] == ss;
  }

  method FlagIntake(intake: seq<Intake>) returns (es: seq<Exception>)
    ensures es == IntakeExceptions(intake)
  {
    es := [];
    for k := 0 to |intake|
      invariant es == IntakeExceptions(intake[..k])
    {
      assert intake[..k + 1][..k] == intake[..k];
      var i := intake[k];
      if i.mappingError != "" {
        es := es + [Exception(UnmatchedStatement, OfIntake(i.eventId), "", "", "", 0, None, None, "")];
      }
    }
    assert intake[..|intake|] == intake;
  }

  /** The whole planner computes exactly the specified plan. */
  method PlanRecon(inp: Input) returns (plan: Plan)
    ensures plan == PlanOf(inp)
  {
    var p, settlementsByRef := MatchSettlements(inp);
    var lines := FlagLines(inp, p, settlementsByRef);
    var notes := FlagNotes(inp, p);
    var intake := FlagIntake(inp.intake);
    plan := Plan(p.matches, p.exceptions + lines + notes + intake, p.settledNotes, p.intakeMatches);
  }
}
