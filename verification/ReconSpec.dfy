/** Three-way reconciliation (internal/revenue/recon.go): the records, and what a plan is for each
    settlement, line, note and assessment, written without the maps and flags of the code. */
module ReconSpec {
  import opened Wrappers
  import Text
  import Decimal

  datatype DebitNote = DebitNote(id: string, documentNumber: string, usdMinor: int, ngnMinor: int, dueDate: string)

  datatype Settlement = Settlement(id: string, debitNoteId: string, bankReference: string, amountMinor: int, currency: string)

  /** One unmatched CREDIT statement line. */
  datatype StatementLeg = StatementLeg(statementId: string, lineNo: int, bankReference: string, amountMinor: int, currency: string)

  datatype Intake = Intake(eventId: string, callReference: string, assessmentId: string, totalMinor: int, currency: string, mappingError: string)

  datatype Input = Input(notes: seq<DebitNote>, settlements: seq<Settlement>, lines: seq<StatementLeg>, intake: seq<Intake>, asOf: string)

  datatype Match = Match(noteId: string, settlementId: string, statementId: string, lineNo: int, amountMinor: int, currency: string)

  datatype IntakeMatch = IntakeMatch(eventId: string, settlementId: string)

  datatype Class = DuplicateBankRef | AmountMismatch | UnmatchedSettlement | UnmatchedStatement | UnmatchedAssessment

  datatype Subject = OfSettlement(id: string) | OfLine(statementId: string, lineNo: int) | OfNote(id: string) | OfIntake(id: string)

  datatype Exception = Exception(
    class_: Class, subject: Subject, noteId: string, settlementId: string, statementId: string, lineNo: int,
    expected: Option<int>, actual: Option<int>, currency: string)

  datatype Plan = Plan(
    matches: seq<Match>, exceptions: seq<Exception>, settledNotes: map<string, string>, intakeMatches: seq<IntakeMatch>)

  function NoteAmountIn(note: DebitNote, currency: string): int {
    if currency == "NGN" then note.ngnMinor else note.usdMinor
  }

  // ---- the legs a settlement names ----

  /** The last note with an id: a later row replaces an earlier one. */
  function LastById(notes: seq<DebitNote>, id: string): (r: Option<DebitNote>)
    ensures r.Some? ==> r.value in notes && r.value.id == id
    ensures r.None? ==> forall n :: n in notes ==> n.id != id
  {
    if notes == [] then None
    else if notes[|notes| - 1].id == id then Some(notes[|notes| - 1])
    else LastById(notes[..|notes| - 1], id)
  }

  /** The last numbered note with a document number. */
  function LastByDocument(notes: seq<DebitNote>, document: string): (r: Option<DebitNote>)
    ensures r.Some? ==> r.value in notes && r.value.documentNumber == document != ""
    ensures r.None? && document != "" ==> forall n :: n in notes ==> n.documentNumber != document
  {
    if notes == [] then None
    else if notes[|notes| - 1].documentNumber == document && document != "" then Some(notes[|notes| - 1])
    else LastByDocument(notes[..|notes| - 1], document)
  }

  /** The first line with a bank reference. */
  function FirstLine(lines: seq<StatementLeg>, ref: string): (r: Option<StatementLeg>)
    ensures r.Some? ==> r.value in lines && r.value.bankReference == ref
    ensures r.None? ==> forall l :: l in lines ==> l.bankReference != ref
  {
    if lines == [] then None
    else
      var earlier := FirstLine(lines[..|lines| - 1], ref);
      if earlier.Some? then earlier
      else if lines[|lines| - 1].bankReference == ref then Some(lines[|lines| - 1])
      else None
  }

  /** An assessment answers to its call reference and, when it has one, to its assessment id; rows
      that could not be mapped answer to nothing. */
  predicate Answers(i: Intake, ref: string) {
    i.mappingError == "" && (i.callReference == ref || (i.assessmentId != "" && i.assessmentId == ref))
  }

  function FirstIntake(intake: seq<Intake>, ref: string): (r: Option<Intake>)
    ensures r.Some? ==> r.value in intake && Answers(r.value, ref)
    ensures r.None? ==> forall i :: i in intake ==> !Answers(i, ref)
  {
    if intake == [] then None
    else
      var earlier := FirstIntake(intake[..|intake| - 1], ref);
      if earlier.Some? then earlier
      else if Answers(intake[|intake| - 1], ref) then Some(intake[|intake| - 1])
      else None
  }

  /** All settlements remitted under one bank reference, in order. */
  function Siblings(ss: seq<Settlement>, ref: string): (r: seq<Settlement>)
    ensures forall s :: s in r <==> s in ss && s.bankReference == ref
  {
    if ss == [] then []
    else if ss[|ss| - 1].bankReference == ref then Siblings(ss[..|ss| - 1], ref) + [ss[|ss| - 1]]
    else Siblings(ss[..|ss| - 1], ref)
  }

  /** The open note a settlement pays: the one it names, or, naming none, the one whose document
      number it was remitted under. */
  function Identify(notes: seq<DebitNote>, s: Settlement): (r: Option<DebitNote>)
    ensures r.Some? ==> r.value in notes && (r.value.id == s.debitNoteId || r.value.documentNumber == s.bankReference)
  {
    var named := LastById(notes, s.debitNoteId);
    if named.Some? then named
    else if s.debitNoteId == "" then LastByDocument(notes, s.bankReference)
    else None
  }

  // ---- what becomes of one settlement ----

  datatype Disposition =
    | Frozen
    | IntakeMatched(intake: Intake)
    | IntakeMismatch(intake: Intake)
    | Unidentified
    | NoteMismatch(note: DebitNote)
    | Awaiting(note: DebitNote)
    | LineMismatch(note: DebitNote, line: StatementLeg)
    | Matched(note: DebitNote, line: StatementLeg)

  function Dispose(inp: Input, s: Settlement): Disposition {
    if |Siblings(inp.settlements, s.bankReference)| > 1 then Frozen
    else match Identify(inp.notes, s)
      case None => DisposeUnidentified(inp, s)
      case Some(note) =>
        if NoteAmountIn(note, s.currency) != s.amountMinor then NoteMismatch(note)
        else match FirstLine(inp.lines, s.bankReference)
          case None => Awaiting(note)
          case Some(line) =>
            if line.amountMinor != s.amountMinor || line.currency != s.currency then LineMismatch(note, line)
            else Matched(note, line)
  }

  function DisposeUnidentified(inp: Input, s: Settlement): Disposition {
    match FirstIntake(inp.intake, s.bankReference)
    case None => Unidentified
    case Some(i) =>
      if s.debitNoteId != "" then Unidentified
      else if i.totalMinor == s.amountMinor && i.currency == s.currency then IntakeMatched(i)
      else IntakeMismatch(i)
  }

  // ---- the plan ----

  function MatchOf(s: Settlement, note: DebitNote, line: StatementLeg): Match {
    Match(note.id, s.id, line.statementId, line.lineNo, s.amountMinor, s.currency)
  }

  function MatchesOf(inp: Input, ss: seq<Settlement>): seq<Match> {
    if ss == [] then []
    else
      var s := ss[|ss| - 1];
      var earlier := MatchesOf(inp, ss[..|ss| - 1]);
      var d := Dispose(inp, s);
      if d.Matched? then earlier + [MatchOf(s, d.note, d.line)] else earlier
  }

  function IntakeMatchesOf(inp: Input, ss: seq<Settlement>): seq<IntakeMatch> {
    if ss == [] then []
    else
      var s := ss[|ss| - 1];
      var earlier := IntakeMatchesOf(inp, ss[..|ss| - 1]);
      var d := Dispose(inp, s);
      if d.IntakeMatched? then earlier + [IntakeMatch(d.intake.eventId, s.id)] else earlier
  }

  /** The exception one settlement raises, if any. Matched, intake-matched and awaiting settlements
      raise none. */
  function SettlementException(s: Settlement, d: Disposition): Option<Exception> {
    match d
    case Frozen =>
      Some(Exception(DuplicateBankRef, OfSettlement(s.id), "", s.id, "", 0, None, Some(s.amountMinor), s.currency))
    case IntakeMatched(_) => None
    case IntakeMismatch(i) =>
      Some(Exception(AmountMismatch, OfSettlement(s.id), "", s.id, "", 0, Some(i.totalMinor), Some(s.amountMinor), s.currency))
    case Unidentified =>
      Some(Exception(UnmatchedSettlement, OfSettlement(s.id), "", s.id, "", 0, None, Some(s.amountMinor), s.currency))
    case NoteMismatch(note) =>
      Some(Exception(AmountMismatch, OfSettlement(s.id), note.id, s.id, "", 0,
                     Some(NoteAmountIn(note, s.currency)), Some(s.amountMinor), s.currency))
    case Awaiting(_) => None
    case LineMismatch(note, line) =>
      Some(Exception(AmountMismatch, OfLine(line.statementId, line.lineNo), note.id, s.id, line.statementId, line.lineNo,
                     Some(s.amountMinor), Some(line.amountMinor), s.currency))
    case Matched(_, _) => None
  }

  function SettlementExceptions(inp: Input, ss: seq<Settlement>): seq<Exception> {
    if ss == [] then []
    else
      var s := ss[|ss| - 1];
      var earlier := SettlementExceptions(inp, ss[..|ss| - 1]);
      var e := SettlementException(s, Dispose(inp, s));
      if e.Some? then earlier + [e.value] else earlier
  }

  predicate LineTaken(ms: seq<Match>, l: StatementLeg) {
    exists m :: m in ms && m.statementId == l.statementId && m.lineNo == l.lineNo
  }

  predicate NoteTaken(ms: seq<Match>, n: DebitNote) {
    exists m :: m in ms && m.noteId == n.id
  }

  /** A line nobody settled under: neither matched nor remitted under by any settlement. */
  predicate LineOrphan(inp: Input, l: StatementLeg) {
    && !LineTaken(MatchesOf(inp, inp.settlements), l)
    && forall s :: s in inp.settlements ==> s.bankReference != l.bankReference
  }

  function LineExceptions(inp: Input, ls: seq<StatementLeg>): seq<Exception> {
    if ls == [] then []
    else
      var l := ls[|ls| - 1];
      var earlier := LineExceptions(inp, ls[..|ls| - 1]);
      if LineOrphan(inp, l)
      then earlier + [Exception(UnmatchedStatement, OfLine(l.statementId, l.lineNo), "", "", l.statementId, l.lineNo,
                                None, Some(l.amountMinor), l.currency)]
      else earlier
  }

  predicate Concerns(s: Settlement, n: DebitNote) {
    s.debitNoteId == n.id || s.bankReference == n.documentNumber
  }

  /** A note past due that no settlement concerns. */
  predicate NoteOverdue(inp: Input, n: DebitNote) {
    && !NoteTaken(MatchesOf(inp, inp.settlements), n)
    && Text.Less(n.dueDate, inp.asOf)
    && forall s :: s in inp.settlements ==> !Concerns(s, n)
  }

  function NoteExceptions(inp: Input, ns: seq<DebitNote>): seq<Exception> {
    if ns == [] then []
    else
      var n := ns[|ns| - 1];
      var earlier := NoteExceptions(inp, ns[..|ns| - 1]);
      if NoteOverdue(inp, n)
      then earlier + [Exception(UnmatchedAssessment, OfNote(n.id), n.id, "", "", 0, Some(n.usdMinor), None, "USD")]
      else earlier
  }

  function IntakeExceptions(is_: seq<Intake>): seq<Exception> {
    if is_ == [] then []
    else
      var i := is_[|is_| - 1];
      var earlier := IntakeExceptions(is_[..|is_| - 1]);
      if i.mappingError != ""
      then earlier + [Exception(UnmatchedStatement, OfIntake(i.eventId), "", "", "", 0, None, None, "")]
      else earlier
  }

  /** Note to settlement; with two matches of one note the later settlement stands. */
  function SettledNotes(ms: seq<Match>): map<string, string> {
    if ms == [] then map[]
    else SettledNotes(ms[..|ms| - 1])[ms[|ms| - 1].noteId := ms[|ms| - 1].settlementId]
  }

  function PlanOf(inp: Input): Plan {
    var ms := MatchesOf(inp, inp.settlements);
    Plan(ms,
         SettlementExceptions(inp, inp.settlements) + LineExceptions(inp, inp.lines)
         + NoteExceptions(inp, inp.notes) + IntakeExceptions(inp.intake),
         SettledNotes(ms),
         IntakeMatchesOf(inp, inp.settlements))
  }

  // ---- dedupe keys ----

  function ClassName(c: Class): string {
    match c
    case DuplicateBankRef => "DUPLICATE_BANK_REF"
    case AmountMismatch => "AMOUNT_MISMATCH"
    case UnmatchedSettlement => "UNMATCHED_SETTLEMENT"
    case UnmatchedStatement => "UNMATCHED_STATEMENT"
    case UnmatchedAssessment => "UNMATCHED_ASSESSMENT"
  }

  function Character(d: Decimal.Digit): char { ('0' as int + d) as char }

  function ShowNat(n: nat): (s: string)
    ensures |s| > 0
  {
    var ds := Decimal.Digits(n);
    seq(|ds|, i requires 0 <= i < |ds| => Character(ds[i]))
  }

  /** fmt.Sprint of an int. */
  function Show(n: int): string {
    if n < 0 then "-" + ShowNat(-n) else ShowNat(n)
  }

  function LineKey(statementId: string, lineNo: int): string {
    statementId + [':'] + Show(lineNo)
  }

  function SubjectText(s: Subject): string {
    match s
    case OfSettlement(id) => "settlement" + [':'] + id
    case OfLine(statementId, lineNo) => "line" + [':'] + LineKey(statementId, lineNo)
    case OfNote(id) => "note" + [':'] + id
    case OfIntake(id) => "intake" + [':'] + id
  }

  function DedupeKey(e: Exception): string {
    ClassName(e.class_) + ['|'] + SubjectText(e.subject)
  }
}
