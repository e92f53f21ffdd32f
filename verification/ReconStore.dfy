/** The tables behind reconciliation (internal/revenue/recon_store.go, db/migrations/0009 and 0010) and
    RunRecon, which loads what is unmatched, plans, and persists the plan in one transaction. */
module ReconStore {
  import opened Wrappers
  import opened ReconSpec
  import opened ReconTheorems
  import opened ReconRuns
  import opened ReconKeys
  import Recon

  /** A debit note and whether its state is ISSUED, ACKED or DISPUTED. */
  datatype NoteRow = NoteRow(note: DebitNote, open: bool)

  /** An assessment; it is OPEN until a settlement is linked. */
  datatype IntakeRow = IntakeRow(intake: Intake, link: Option<string>)

  datatype Queued = Queued(exception: Exception, open: bool)

  /** `lines` are the CREDIT lines in (statement, line number) order. */
  datatype Tables = Tables(
    notes: seq<NoteRow>, settlements: seq<Settlement>, lines: seq<StatementLeg>, intake: seq<IntakeRow>,
    matches: seq<Match>, queue: seq<Queued>)

  // ---- load ----

  function Filter<T(!new)>(xs: seq<T>, keep: T -> bool): (r: seq<T>)
    ensures forall x :: x in r <==> x in xs && keep(x)
  {
    if xs == [] then []
    else
      var earlier := Filter(xs[..|xs| - 1], keep);
      if keep(xs[|xs| - 1]) then earlier + [xs[|xs| - 1]] else earlier
  }

  ghost predicate DistinctBy<T(!new), K(!new)>(xs: seq<T>, key: T -> K) {
    forall i, j :: 0 <= i < j < |xs| ==> key(xs[i]) != key(xs[j])
  }

  lemma OneIndex<T(!new), K(!new)>(xs: seq<T>, key: T -> K, i: nat, j: nat)
    requires DistinctBy(xs, key) && i < |xs| && j < |xs| && key(xs[i]) == key(xs[j])
    ensures i == j
  {
  }

  lemma {:induction false} FilterKeepsDistinct<T(!new), K(!new)>(xs: seq<T>, keep: T -> bool, key: T -> K)
    requires DistinctBy(xs, key)
    ensures DistinctBy(Filter(xs, keep), key)
  {
    if xs != [] {
      var init := xs[..|xs| - 1];
      assert DistinctBy(init, key);
      FilterKeepsDistinct(init, keep, key);
      forall x | x in Filter(init, keep) ensures key(x) != key(xs[|xs| - 1]) {
        var i :| 0 <= i < |init| && init[i] == x;
      }
    }
  }

  predicate LinkedTo(rows: seq<IntakeRow>, settlementId: string) {
    exists r :: r in rows && r.link == Some(settlementId)
  }

  function OpenNoteRows(t: Tables): seq<NoteRow> {
    Filter(t.notes, (r: NoteRow) => r.open && !NoteTaken(t.matches, r.note))
  }

  function OpenIntakeRows(t: Tables): seq<IntakeRow> {
    Filter(t.intake, (r: IntakeRow) => r.link.None?)
  }

  /** The unmatched legs. */
  function Load(t: Tables, asOf: string): Input {
    var notes, intake := OpenNoteRows(t), OpenIntakeRows(t);
    Input(seq(|notes|, i requires 0 <= i < |notes| => notes[i].note),
          Filter(t.settlements, s => !SettlementTaken(t.matches, s) && !LinkedTo(t.intake, s.id)),
          KeepLines(t.lines, t.matches),
          seq(|intake|, i requires 0 <= i < |intake| => intake[i].intake),
          asOf)
  }

  // ---- persist ----

  predicate Clash(m: Match, n: Match) {
    m.noteId == n.noteId || (m.statementId == n.statementId && m.lineNo == n.lineNo)
  }

  predicate SettlementMatched(ms: seq<Match>, settlementId: string) {
    exists m :: m in ms && m.settlementId == settlementId
  }

  /** INSERT ... ON CONFLICT (settlement_id) DO NOTHING into a table that is also unique on the note and
      on the statement line: only a settlement conflict is skipped, the others fail. */
  function InsertMatch(ms: seq<Match>, m: Match): Option<seq<Match>> {
    if SettlementMatched(ms, m.settlementId) then Some(ms)
    else if exists n :: n in ms && Clash(m, n) then None
    else Some(ms + [m])
  }

  function InsertMatches(ms: seq<Match>, planned: seq<Match>): Option<seq<Match>> {
    if planned == [] then Some(ms)
    else
      var earlier := InsertMatches(ms, planned[..|planned| - 1]);
      if earlier.None? then None else InsertMatch(earlier.value, planned[|planned| - 1])
  }

  /** Open notes with one of the ids become SETTLED. */
  function Settle(rows: seq<NoteRow>, ids: set<string>): (r: seq<NoteRow>)
    ensures |r| == |rows| && forall i :: 0 <= i < |r| ==> r[i].note == rows[i].note
  {
    seq(|rows|, i requires 0 <= i < |rows| => rows[i].(open := rows[i].open && rows[i].note.id !in ids))
  }

  function LinkOne(rows: seq<IntakeRow>, im: IntakeMatch): (r: seq<IntakeRow>)
    ensures |r| == |rows| && forall i :: 0 <= i < |r| ==> r[i].intake == rows[i].intake
  {
    seq(|rows|, i requires 0 <= i < |rows| =>
      if rows[i].intake.eventId == im.eventId && rows[i].link.None? then rows[i].(link := Some(im.settlementId)) else rows[i])
  }

  function Link(rows: seq<IntakeRow>, ims: seq<IntakeMatch>): seq<IntakeRow> {
    if ims == [] then rows else LinkOne(Link(rows, ims[..|ims| - 1]), ims[|ims| - 1])
  }

  predicate Pending(q: seq<Queued>, key: string) {
    exists x :: x in q && x.open && DedupeKey(x.exception) == key
  }

  /** An exception whose key is already OPEN is not raised again. */
  function EnqueueOne(q: seq<Queued>, e: Exception): seq<Queued> {
    if Pending(q, DedupeKey(e)) then q else q + [Queued(e, true)]
  }

  function Enqueue(q: seq<Queued>, es: seq<Exception>): seq<Queued> {
    if es == [] then q else EnqueueOne(Enqueue(q, es[..|es| - 1]), es[|es| - 1])
  }

  /** The tables after a plan is persisted; None when the transaction fails. */
  function Persist(t: Tables, plan: Plan): Option<Tables> {
    var ms := InsertMatches(t.matches, plan.matches);
    if ms.None? then None
    else Some(t.(matches := ms.value, notes := Settle(t.notes, plan.settledNotes.Keys),
                 intake := Link(t.intake, plan.intakeMatches), queue := Enqueue(t.queue, plan.exceptions)))
  }

  // ---- keys ----

  ghost predicate KeysOk(t: Tables) {
    && DistinctBy(t.notes, (r: NoteRow) => r.note.id)
    && (forall r :: r in t.notes ==> r.note.id != "")
    && (forall r, q :: r in t.notes && q in t.notes && r.note.documentNumber == q.note.documentNumber != "" ==> r == q)
    && DistinctBy(t.settlements, (s: Settlement) => s.id)
    && DistinctBy(t.lines, (l: StatementLeg) => (l.statementId, l.lineNo))
    && DistinctBy(t.intake, (r: IntakeRow) => r.intake.eventId)
  }

  /** The unique indexes of recon_matches. */
  predicate MatchesUnique(ms: seq<Match>) {
    forall i, j :: 0 <= i < j < |ms| ==> ms[i].settlementId != ms[j].settlementId && !Clash(ms[i], ms[j])
  }

  /** The partial unique index on OPEN dedupe keys. */
  predicate OpenKeysUnique(q: seq<Queued>) {
    forall i, j :: 0 <= i < j < |q| && q[i].open && q[j].open ==> DedupeKey(q[i].exception) != DedupeKey(q[j].exception)
  }

  ghost predicate StoreOk(t: Tables) {
    KeysOk(t) && MatchesUnique(t.matches) && OpenKeysUnique(t.queue)
  }

  lemma {:induction false} KeepLinesIsFilter(ls: seq<StatementLeg>, ms: seq<Match>)
    ensures KeepLines(ls, ms) == Filter(ls, l => !LineTaken(ms, l))
  {
    if ls != [] {
      KeepLinesIsFilter(ls[..|ls| - 1], ms);
    }
  }

  lemma LoadedLinesDistinct(t: Tables)
    requires KeysOk(t)
    ensures DistinctBy(KeepLines(t.lines, t.matches), (l: StatementLeg) => (l.statementId, l.lineNo))
  {
    KeepLinesIsFilter(t.lines, t.matches);
    FilterKeepsDistinct(t.lines, l => !LineTaken(t.matches, l), (l: StatementLeg) => (l.statementId, l.lineNo));
  }

  lemma LoadedNotesDistinct(t: Tables, asOf: string)
    requires KeysOk(t)
    ensures var ns := Load(t, asOf).notes;
            && (forall i, j :: 0 <= i < j < |ns| ==> ns[i].id != ns[j].id)
            && (forall n :: n in ns ==> n.id != "")
            && (forall m, n :: m in ns && n in ns && m.documentNumber == n.documentNumber != "" ==> m == n)
  {
    var rows, ns := OpenNoteRows(t), Load(t, asOf).notes;
    FilterKeepsDistinct(t.notes, (r: NoteRow) => r.open && !NoteTaken(t.matches, r.note), (r: NoteRow) => r.note.id);
    forall i | 0 <= i < |ns| ensures ns[i] == rows[i].note && rows[i] in t.notes {
      assert rows[i] in rows;
    }
  }

  lemma LoadedOthersDistinct(t: Tables, asOf: string)
    requires KeysOk(t)
    ensures var inp := Load(t, asOf);
            && (forall i, j :: 0 <= i < j < |inp.settlements| ==> inp.settlements[i].id != inp.settlements[j].id)
            && (forall i, j :: 0 <= i < j < |inp.intake| ==> inp.intake[i].eventId != inp.intake[j].eventId)
  {
    FilterKeepsDistinct(t.settlements, s => !SettlementTaken(t.matches, s) && !LinkedTo(t.intake, s.id), (s: Settlement) => s.id);
    FilterKeepsDistinct(t.intake, (r: IntakeRow) => r.link.None?, (r: IntakeRow) => r.intake.eventId);
  }

  /** The tables' keys make every load well keyed. */
  lemma LoadIsWellKeyed(t: Tables, asOf: string)
    requires KeysOk(t)
    ensures WellKeyed(Load(t, asOf))
  {
    LoadedLinesDistinct(t);
    LoadedNotesDistinct(t, asOf);
    LoadedOthersDistinct(t, asOf);
    var ls := Load(t, asOf).lines;
    forall i, j | 0 <= i < j < |ls| ensures ls[i].statementId != ls[j].statementId || ls[i].lineNo != ls[j].lineNo {
      assert (ls[i].statementId, ls[i].lineNo) != (ls[j].statementId, ls[j].lineNo);
    }
  }

  // ---- when a run commits ----

  lemma InsertOneKeepsUnique(ms: seq<Match>, m: Match)
    requires MatchesUnique(ms) && InsertMatch(ms, m).Some?
    ensures MatchesUnique(InsertMatch(ms, m).value) && ms <= InsertMatch(ms, m).value
  {
    if !SettlementMatched(ms, m.settlementId) {
      forall i | 0 <= i < |ms| ensures ms[i].settlementId != m.settlementId && !Clash(ms[i], m) {
        assert ms[i] in ms && !Clash(m, ms[i]);
      }
    }
  }

  /** Whatever a plan says, even a stale one, recorded matches stay and remain unique on all three legs. */
  lemma {:induction false} InsertKeepsUnique(ms: seq<Match>, planned: seq<Match>)
    requires MatchesUnique(ms) && InsertMatches(ms, planned).Some?
    ensures MatchesUnique(InsertMatches(ms, planned).value) && ms <= InsertMatches(ms, planned).value
  {
    if planned != [] {
      InsertKeepsUnique(ms, planned[..|planned| - 1]);
      InsertOneKeepsUnique(InsertMatches(ms, planned[..|planned| - 1]).value, planned[|planned| - 1]);
    }
  }

  predicate NotesDistinct(ms: seq<Match>) {
    forall i, j :: 0 <= i < j < |ms| ==> ms[i].noteId != ms[j].noteId
  }

  /** Planned matches keep clear of the recorded ones. */
  predicate ClearOf(ms: seq<Match>, planned: seq<Match>) {
    forall m, p :: m in ms && p in planned ==> m.settlementId != p.settlementId && !Clash(m, p)
  }

  lemma {:induction false} InsertExactly(ms: seq<Match>, planned: seq<Match>)
    requires ClearOf(ms, planned) && AllApart(planned)
    ensures InsertMatches(ms, planned) == (if NotesDistinct(planned) then Some(ms + planned) else None)
  {
    if planned == [] {
      assert ms + planned == ms;
    } else {
      var init, p := planned[..|planned| - 1], planned[|planned| - 1];
      assert ClearOf(ms, init);
      InsertExactly(ms, init);
      if NotesDistinct(init) {
        InsertLast(ms, init, p);
        assert init + [p] == planned;
        assert ms + init + [p] == ms + planned;
      }
    }
  }

  lemma InsertLast(ms: seq<Match>, init: seq<Match>, p: Match)
    requires ClearOf(ms, init + [p]) && AllApart(init + [p]) && NotesDistinct(init)
    ensures InsertMatch(ms + init, p) == (if NotesDistinct(init + [p]) then Some(ms + init + [p]) else None)
  {
    assert p in init + [p];
    forall n | n in ms + init
      ensures n.settlementId != p.settlementId && (Clash(p, n) ==> n in init && n.noteId == p.noteId)
      ensures n in init && NotesDistinct(init + [p]) ==> n.noteId != p.noteId
    {
      if n in init {
        var i :| 0 <= i < |init| && init[i] == n;
        assert Apart((init + [p])[i], (init + [p])[|init|]);
        assert NotesDistinct(init + [p]) ==> (init + [p])[i].noteId != (init + [p])[|init|].noteId;
      }
    }
    if !NotesDistinct(init + [p]) {
      var i, j :| 0 <= i < j < |init + [p]| && (init + [p])[i].noteId == (init + [p])[j].noteId;
      assert j == |init| && init[i] in ms + init && Clash(p, init[i]);
    }
  }

  lemma LoadIsUnmatched(t: Tables, asOf: string)
    requires KeysOk(t)
    ensures ClearOf(t.matches, PlanOf(Load(t, asOf)).matches)
  {
    LoadIsWellKeyed(t, asOf);
    var inp := Load(t, asOf);
    forall m, p | m in t.matches && p in PlanOf(inp).matches ensures m.settlementId != p.settlementId && !Clash(m, p) {
      var s, n, l := TakenBy(inp, p);
      LoadedLegsAreFree(t, asOf, s, n, l, m);
    }
  }

  lemma LoadedLegsAreFree(t: Tables, asOf: string, s: Settlement, n: DebitNote, l: StatementLeg, m: Match)
    requires s in Load(t, asOf).settlements && n in Load(t, asOf).notes && l in Load(t, asOf).lines && m in t.matches
    ensures m.settlementId != s.id && m.noteId != n.id && !(m.statementId == l.statementId && m.lineNo == l.lineNo)
  {
    assert !SettlementTaken(t.matches, s) && !LineTaken(t.matches, l);
    var rows := OpenNoteRows(t);
    var i :| 0 <= i < |Load(t, asOf).notes| && Load(t, asOf).notes[i] == n;
    assert rows[i] in rows && rows[i].note == n;
    assert !NoteTaken(t.matches, n);
  }

  /** A run commits exactly when no two settlements of its plan match one note. Then it records its whole
      plan; otherwise it fails and leaves every table as it was, and so will the next run. */
  lemma CommitsExactly(t: Tables, asOf: string)
    requires KeysOk(t)
    ensures var inp := Load(t, asOf);
            var t' := Persist(t, PlanOf(inp));
            && (t'.Some? <==> forall s, r, n, k, l | s in inp.settlements && r in inp.settlements ::
                                CleanMatch(inp, s, n, k) && CleanMatch(inp, r, n, l) ==> s == r)
            && (t'.Some? ==> t'.value.matches == t.matches + PlanOf(inp).matches)
  {
    var inp := Load(t, asOf);
    LoadIsWellKeyed(t, asOf);
    LoadIsUnmatched(t, asOf);
    MatchesInjective(inp);
    InsertExactly(t.matches, PlanOf(inp).matches);
    DistinctNotesExactly(inp);
  }

  lemma DistinctNotesExactly(inp: Input)
    requires WellKeyed(inp)
    ensures NotesDistinct(PlanOf(inp).matches)
            <==> forall s, r, n, k, l | s in inp.settlements && r in inp.settlements ::
                   CleanMatch(inp, s, n, k) && CleanMatch(inp, r, n, l) ==> s == r
  {
    var ms := PlanOf(inp).matches;
    MatchesInjective(inp);
    if NotesDistinct(ms) {
      forall s, r, n, k, l | s in inp.settlements && r in inp.settlements && CleanMatch(inp, s, n, k) && CleanMatch(inp, r, n, l)
        ensures s == r
      {
        PlannedWhenClean(inp, s, n, k);
        PlannedWhenClean(inp, r, n, l);
        SameNoteSameMatch(ms, MatchOf(s, n, k), MatchOf(r, n, l));
        SameSettlement(inp, s, r);
      }
    } else {
      var i, j :| 0 <= i < j < |ms| && ms[i].noteId == ms[j].noteId;
      var s, n, k := TakenBy(inp, ms[i]);
      var r, n', l := TakenBy(inp, ms[j]);
      SameNote(inp, n, n');
      assert Apart(ms[i], ms[j]);
      assert s.id != r.id && CleanMatch(inp, s, n, k) && CleanMatch(inp, r, n, l);
    }
  }

  lemma SameNoteSameMatch(ms: seq<Match>, m: Match, n: Match)
    requires NotesDistinct(ms) && m in ms && n in ms && m.noteId == n.noteId
    ensures m == n
  {
    var i :| 0 <= i < |ms| && ms[i] == m;
    var j :| 0 <= j < |ms| && ms[j] == n;
    assert !(i < j) && !(j < i);
  }

  lemma LoadAtAnotherDate(t: Tables, asOf: string, later: string)
    ensures Load(t, later) == Load(t, asOf).(asOf := later)
  {
  }

  /** Whether a run commits does not depend on its date. A failed run leaves the tables as they were, so
      every run after it fails as well until somebody else changes them. */
  lemma FailsAtEveryDate(t: Tables, asOf: string, later: string)
    requires KeysOk(t)
    ensures Persist(t, PlanOf(Load(t, asOf))).Some? <==> Persist(t, PlanOf(Load(t, later))).Some?
  {
    CommitsExactly(t, asOf);
    CommitsExactly(t, later);
    LoadAtAnotherDate(t, asOf, later);
    assert forall s, n, l :: CleanMatch(Load(t, asOf), s, n, l) <==> CleanMatch(Load(t, later), s, n, l);
  }

  lemma {:induction false} FilterKeepsAll<T(!new)>(xs: seq<T>, keep: T -> bool)
    requires forall x :: x in xs ==> keep(x)
    ensures Filter(xs, keep) == xs
  {
    if xs != [] {
      assert forall x :: x in xs[..|xs| - 1] ==> x in xs;
      FilterKeepsAll(xs[..|xs| - 1], keep);
    }
  }

  /** With nothing matched or linked yet, everything is loaded. */
  lemma LoadsAll(t: Tables, asOf: string)
    requires t.matches == [] && t.intake == [] && forall r :: r in t.notes ==> r.open
    ensures Load(t, asOf).settlements == t.settlements && Load(t, asOf).lines == t.lines && Load(t, asOf).intake == []
    ensures OpenNoteRows(t) == t.notes
  {
    FilterKeepsAll(t.notes, (r: NoteRow) => r.open && !NoteTaken(t.matches, r.note));
    FilterKeepsAll(t.settlements, s => !SettlementTaken(t.matches, s) && !LinkedTo(t.intake, s.id));
    KeepLinesIsFilter(t.lines, t.matches);
    FilterKeepsAll(t.lines, l => !LineTaken(t.matches, l));
  }

  const SHARED_TABLES := Tables([NoteRow(SHARED_NOTE, true)], SHARED_INPUT.settlements, SHARED_INPUT.lines, [], [], [])

  lemma SharedLoad(asOf: string)
    ensures Load(SHARED_TABLES, asOf) == SHARED_INPUT.(asOf := asOf)
  {
    LoadsAll(SHARED_TABLES, asOf);
    assert Load(SHARED_TABLES, asOf).notes == [SHARED_NOTE];
  }

  lemma SharedStoreOk()
    ensures StoreOk(SHARED_TABLES)
  {
    SharedKeys();
    assert "1"[0] != "2"[0];
  }

  /** Tables within all their keys and indexes from which no run, at any date, can commit: two settlements,
      each clean, name one note. */
  lemma StuckOnSharedNote(asOf: string)
    ensures StoreOk(SHARED_TABLES) && Persist(SHARED_TABLES, PlanOf(Load(SHARED_TABLES, asOf))).None?
  {
    SharedStoreOk();
    SharedLoad(SHARED_INPUT.asOf);
    OneNoteTwice();
    SharedKeys();
    var ms := PlanOf(SHARED_INPUT).matches;
    MatchesInjective(SHARED_INPUT);
    assert ms[0].noteId == ms[1].noteId;
    InsertExactly([], ms);
    FailsAtEveryDate(SHARED_TABLES, SHARED_INPUT.asOf, asOf);
  }

  // ---- what a committed run leaves ----

  lemma {:induction false} SettledIds(ms: seq<Match>)
    ensures forall id :: id in SettledNotes(ms) <==> exists m :: m in ms && m.noteId == id
  {
    if ms != [] {
      SettledIds(ms[..|ms| - 1]);
      assert forall m :: m in ms <==> m in ms[..|ms| - 1] || m == ms[|ms| - 1];
    }
  }

  lemma {:induction false} LinksGrow(rows: seq<IntakeRow>, ims: seq<IntakeMatch>)
    ensures |Link(rows, ims)| == |rows|
    ensures forall i :: 0 <= i < |rows| ==>
              Link(rows, ims)[i].intake == rows[i].intake
              && (Link(rows, ims)[i].link == rows[i].link
                  || (rows[i].link.None? && exists im :: im in ims && Link(rows, ims)[i].link == Some(im.settlementId)))
  {
    if ims != [] {
      var init, im := ims[..|ims| - 1], ims[|ims| - 1];
      LinksGrow(rows, init);
      assert forall x :: x in init ==> x in ims;
      assert im in ims;
    }
  }

  lemma NewLinksArePlanned(rows: seq<IntakeRow>, ims: seq<IntakeMatch>, id: string)
    ensures LinkedTo(rows, id) ==> LinkedTo(Link(rows, ims), id)
    ensures LinkedTo(Link(rows, ims), id) ==> LinkedTo(rows, id) || exists im :: im in ims && im.settlementId == id
  {
    LinksGrow(rows, ims);
    if LinkedTo(rows, id) {
      var i :| 0 <= i < |rows| && rows[i].link == Some(id);
      assert Link(rows, ims)[i] in Link(rows, ims);
    }
    if LinkedTo(Link(rows, ims), id) {
      var i :| 0 <= i < |rows| && Link(rows, ims)[i].link == Some(id);
      assert rows[i] in rows;
    }
  }

  lemma LoadedNote(t: Tables, asOf: string, n: DebitNote)
    ensures n in Load(t, asOf).notes <==> exists r :: r in t.notes && r.note == n && r.open && !NoteTaken(t.matches, n)
  {
    var rows, ns := OpenNoteRows(t), Load(t, asOf).notes;
    if n in ns {
      var i :| 0 <= i < |ns| && ns[i] == n;
      assert rows[i] in rows;
    }
    if r :| r in t.notes && r.note == n && r.open && !NoteTaken(t.matches, n) {
      assert r in rows;
      var i :| 0 <= i < |rows| && rows[i] == r;
      assert ns[i] == n;
    }
  }

  lemma NotesLeft(t: Tables, t': Tables, asOf: string, later: string, n: DebitNote)
    requires var ms := PlanOf(Load(t, asOf)).matches;
             t'.matches == t.matches + ms && t'.notes == Settle(t.notes, SettledNotes(ms).Keys)
    ensures n in Load(t', later).notes <==> n in Load(t, asOf).notes && !NoteTaken(PlanOf(Load(t, asOf)).matches, n)
  {
    var ms := PlanOf(Load(t, asOf)).matches;
    LoadedNote(t, asOf, n);
    LoadedNote(t', later, n);
    SettledIds(ms);
    assert NoteTaken(t'.matches, n) <==> NoteTaken(t.matches, n) || NoteTaken(ms, n);
    if r :| r in t'.notes && r.note == n && r.open && !NoteTaken(t'.matches, n) {
      var i :| 0 <= i < |t'.notes| && t'.notes[i] == r;
      assert t.notes[i] in t.notes;
    }
    if r :| r in t.notes && r.note == n && r.open && !NoteTaken(t'.matches, n) {
      var i :| 0 <= i < |t.notes| && t.notes[i] == r;
      assert t'.notes[i] in t'.notes;
    }
  }

  lemma SettlementsLeft(t: Tables, t': Tables, asOf: string, later: string, s: Settlement)
    requires KeysOk(t)
    requires var plan := PlanOf(Load(t, asOf));
             t'.matches == t.matches + plan.matches && t'.intake == Link(t.intake, plan.intakeMatches)
             && t'.settlements == t.settlements
    ensures var inp := Load(t, asOf);
            var taken := SettlementTaken(PlanOf(inp).matches, s);
            && (s in Load(t', later).settlements ==> s in inp.settlements && !taken)
            && (s in inp.settlements && !taken && !Dispose(inp, s).IntakeMatched? ==> s in Load(t', later).settlements)
  {
    var inp := Load(t, asOf);
    var plan := PlanOf(inp);
    NewLinksArePlanned(t.intake, plan.intakeMatches, s.id);
    assert SettlementTaken(t'.matches, s) <==> SettlementTaken(t.matches, s) || SettlementTaken(plan.matches, s);
    if s in inp.settlements && exists im :: im in plan.intakeMatches && im.settlementId == s.id {
      var im :| im in plan.intakeMatches && im.settlementId == s.id;
      LoadIsWellKeyed(t, asOf);
      IntakeMatchesSound(inp, inp.settlements, im);
      var r :| r in inp.settlements && r.id == im.settlementId && Dispose(inp, r).IntakeMatched?;
      SameSettlement(inp, s, r);
    }
  }

  lemma {:induction false} LinesLeft(ls: seq<StatementLeg>, ms: seq<Match>, more: seq<Match>)
    ensures KeepLines(ls, ms + more) == KeepLines(KeepLines(ls, ms), more)
  {
    if ls != [] {
      var init, l := ls[..|ls| - 1], ls[|ls| - 1];
      LinesLeft(init, ms, more);
      assert LineTaken(ms + more, l) <==> LineTaken(ms, l) || LineTaken(more, l);
      assert (KeepLines(init, ms) + [l])[..|KeepLines(init, ms)|] == KeepLines(init, ms);
    }
  }

  lemma PersistKeepsKeys(t: Tables, plan: Plan)
    requires KeysOk(t) && Persist(t, plan).Some?
    ensures KeysOk(Persist(t, plan).value)
  {
    var t' := Persist(t, plan).value;
    LinksGrow(t.intake, plan.intakeMatches);
    forall r, q | r in t'.notes && q in t'.notes && r.note.documentNumber == q.note.documentNumber != "" ensures r == q {
      var i :| 0 <= i < |t'.notes| && t'.notes[i] == r;
      var j :| 0 <= j < |t'.notes| && t'.notes[j] == q;
      assert t.notes[i] in t.notes && t.notes[j] in t.notes;
      OneIndex(t.notes, (x: NoteRow) => x.note.id, i, j);
    }
    forall r | r in t'.notes ensures r.note.id != "" {
      var i :| 0 <= i < |t'.notes| && t'.notes[i] == r;
      assert t.notes[i] in t.notes;
    }
  }

  /** The run after a committed run, at any date, plans no match. */
  lemma NextRunMatchesNothing(t: Tables, asOf: string, later: string)
    requires KeysOk(t) && Persist(t, PlanOf(Load(t, asOf))).Some?
    ensures PlanOf(Load(Persist(t, PlanOf(Load(t, asOf))).value, later)).matches == []
  {
    var inp := Load(t, asOf);
    var plan := PlanOf(inp);
    var t' := Persist(t, plan).value;
    LoadIsWellKeyed(t, asOf);
    CommitsExactly(t, asOf);
    PersistKeepsKeys(t, plan);
    LoadIsWellKeyed(t', later);
    LinesLeft(t.lines, t.matches, plan.matches);
    forall n ensures n in Load(t', later).notes <==> n in inp.notes && !NoteTaken(plan.matches, n) {
      NotesLeft(t, t', asOf, later, n);
    }
    forall s { SettlementsLeft(t, t', asOf, later, s); }
    RerunMatchesNothing(inp, Load(t', later));
  }

  // ---- the exception queue ----

  lemma EnqueueOneKeepsUnique(q: seq<Queued>, e: Exception)
    requires OpenKeysUnique(q)
    ensures OpenKeysUnique(EnqueueOne(q, e)) && q <= EnqueueOne(q, e)
  {
    if !Pending(q, DedupeKey(e)) {
      forall i | 0 <= i < |q| && q[i].open ensures DedupeKey(q[i].exception) != DedupeKey(e) {
        assert q[i] in q;
      }
    }
  }

  lemma EnqueueOneRaises(q: seq<Queued>, e: Exception, key: string)
    ensures Pending(EnqueueOne(q, e), key) <==> Pending(q, key) || key == DedupeKey(e)
  {
    var k := DedupeKey(e);
    if !Pending(q, k) {
      assert Queued(e, true) in q + [Queued(e, true)];
    }
  }

  /** Queueing never removes or changes an entry and keeps OPEN keys unique. */
  lemma {:induction false} QueueKeepsUnique(q: seq<Queued>, es: seq<Exception>)
    requires OpenKeysUnique(q)
    ensures OpenKeysUnique(Enqueue(q, es)) && q <= Enqueue(q, es)
  {
    if es != [] {
      QueueKeepsUnique(q, es[..|es| - 1]);
      EnqueueOneKeepsUnique(Enqueue(q, es[..|es| - 1]), es[|es| - 1]);
    }
  }

  predicate RaisedBy(es: seq<Exception>, key: string) {
    exists e :: e in es && DedupeKey(e) == key
  }

  /** Exactly the keys that were OPEN and those of the plan are OPEN afterwards. */
  lemma {:induction false} QueueHoldsPlan(q: seq<Queued>, es: seq<Exception>, key: string)
    ensures Pending(Enqueue(q, es), key) <==> Pending(q, key) || RaisedBy(es, key)
  {
    if es != [] {
      var init, e := es[..|es| - 1], es[|es| - 1];
      QueueHoldsPlan(q, init, key);
      EnqueueOneRaises(Enqueue(q, init), e, key);
      assert forall f :: f in es <==> f in init || f == e;
    }
  }

  /** Raising what is already OPEN adds nothing. */
  lemma {:induction false} RequeueAddsNothing(q: seq<Queued>, es: seq<Exception>)
    requires forall key :: RaisedBy(es, key) ==> Pending(q, key)
    ensures Enqueue(q, es) == q
  {
    if es != [] {
      var init, e := es[..|es| - 1], es[|es| - 1];
      forall key | RaisedBy(init, key) ensures RaisedBy(es, key) {
        var f :| f in init && DedupeKey(f) == key;
        assert f in es;
      }
      RequeueAddsNothing(q, init);
      assert RaisedBy(es, DedupeKey(e));
    }
  }

  ghost predicate KeysDiffer(es: seq<Exception>) {
    forall i, j :: 0 <= i < j < |es| ==> DedupeKey(es[i]) != DedupeKey(es[j])
  }

  function AsOpen(es: seq<Exception>): seq<Queued> {
    if es == [] then [] else AsOpen(es[..|es| - 1]) + [Queued(es[|es| - 1], true)]
  }

  /** A plan none of whose keys is OPEN is queued whole: none of its exceptions is swallowed by another. */
  lemma {:induction false} FirstRaiseAddsAll(q: seq<Queued>, es: seq<Exception>)
    requires KeysDiffer(es) && forall key :: RaisedBy(es, key) ==> !Pending(q, key)
    ensures Enqueue(q, es) == q + AsOpen(es)
  {
    if es == [] {
      assert q + AsOpen(es) == q;
    } else {
      var init, e := es[..|es| - 1], es[|es| - 1];
      forall key | RaisedBy(init, key) ensures RaisedBy(es, key) && key != DedupeKey(e) {
        var i :| 0 <= i < |init| && DedupeKey(init[i]) == key;
        assert es[i] in es && DedupeKey(es[i]) != DedupeKey(es[|es| - 1]);
      }
      FirstRaiseAddsAll(q, init);
      QueueHoldsPlan(q, init, DedupeKey(e));
      assert RaisedBy(es, DedupeKey(e));
      assert q + AsOpen(init) + [Queued(e, true)] == q + AsOpen(es);
    }
  }

  lemma PlanKeysDiffer(inp: Input)
    requires WellKeyed(inp)
    ensures KeysDiffer(PlanOf(inp).exceptions)
  {
    forall i, j | 0 <= i < j < |PlanOf(inp).exceptions|
      ensures DedupeKey(PlanOf(inp).exceptions[i]) != DedupeKey(PlanOf(inp).exceptions[j])
    {
      DedupeKeysDistinct(inp, i, j);
    }
  }

  /** Every committed transaction, of a plan made from these tables or from older ones, keeps all keys and
      unique indexes and only adds to the matches and the queue. */
  lemma PersistKeepsStore(t: Tables, plan: Plan)
    requires StoreOk(t) && Persist(t, plan).Some?
    ensures StoreOk(Persist(t, plan).value)
    ensures t.matches <= Persist(t, plan).value.matches && t.queue <= Persist(t, plan).value.queue
  {
    PersistKeepsKeys(t, plan);
    InsertKeepsUnique(t.matches, plan.matches);
    QueueKeepsUnique(t.queue, plan.exceptions);
  }

  lemma {:induction false} InsertAgain(ms: seq<Match>, planned: seq<Match>)
    requires forall p :: p in planned ==> SettlementMatched(ms, p.settlementId)
    ensures InsertMatches(ms, planned) == Some(ms)
  {
    if planned != [] {
      InsertAgain(ms, planned[..|planned| - 1]);
      assert planned[|planned| - 1] in planned;
    }
  }

  lemma {:induction false} InsertedAreMatched(ms: seq<Match>, planned: seq<Match>)
    requires InsertMatches(ms, planned).Some?
    ensures forall m :: m in ms ==> SettlementMatched(InsertMatches(ms, planned).value, m.settlementId)
    ensures forall p :: p in planned ==> SettlementMatched(InsertMatches(ms, planned).value, p.settlementId)
  {
    if planned != [] {
      var init, last := planned[..|planned| - 1], planned[|planned| - 1];
      InsertedAreMatched(ms, init);
      OneMoreMatched(InsertMatches(ms, init).value, last);
      forall p | p in planned ensures p in init || p == last { }
    }
  }

  lemma OneMoreMatched(ms: seq<Match>, p: Match)
    requires InsertMatch(ms, p).Some?
    ensures SettlementMatched(InsertMatch(ms, p).value, p.settlementId)
    ensures forall id :: SettlementMatched(ms, id) ==> SettlementMatched(InsertMatch(ms, p).value, id)
  {
    var after := InsertMatch(ms, p).value;
    assert forall m :: m in ms ==> m in after;
    if !SettlementMatched(ms, p.settlementId) {
      assert after[|ms|] == p;
    }
  }

  predicate Answered(rows: seq<IntakeRow>, eventId: string) {
    forall r :: r in rows && r.intake.eventId == eventId ==> r.link.Some?
  }

  lemma {:induction false} LinkAgain(rows: seq<IntakeRow>, ims: seq<IntakeMatch>)
    requires forall im :: im in ims ==> Answered(rows, im.eventId)
    ensures Link(rows, ims) == rows
  {
    if ims != [] {
      LinkAgain(rows, ims[..|ims| - 1]);
      assert Answered(rows, ims[|ims| - 1].eventId);
      forall i | 0 <= i < |rows| ensures LinkOne(rows, ims[|ims| - 1])[i] == rows[i] {
        assert rows[i] in rows;
      }
    }
  }

  lemma {:induction false} LinkedAreAnswered(rows: seq<IntakeRow>, ims: seq<IntakeMatch>)
    ensures forall im :: im in ims ==> Answered(Link(rows, ims), im.eventId)
  {
    if ims != [] {
      var init, last := ims[..|ims| - 1], ims[|ims| - 1];
      LinkedAreAnswered(rows, init);
      forall im | im in ims ensures Answered(Link(rows, ims), im.eventId) {
        OneMoreAnswered(Link(rows, init), last, im.eventId);
        assert im in init || im == last;
      }
    }
  }

  lemma OneMoreAnswered(rows: seq<IntakeRow>, im: IntakeMatch, eventId: string)
    ensures Answered(rows, eventId) || eventId == im.eventId ==> Answered(LinkOne(rows, im), eventId)
  {
    if Answered(rows, eventId) || eventId == im.eventId {
      forall r | r in LinkOne(rows, im) && r.intake.eventId == eventId ensures r.link.Some? {
        var i :| 0 <= i < |rows| && LinkOne(rows, im)[i] == r;
        assert rows[i] in rows;
      }
    }
  }

  /** Two runs that loaded the same tables: whichever commits second finds its whole plan done and changes
      nothing. */
  lemma SecondCommitAddsNothing(t: Tables, plan: Plan)
    requires Persist(t, plan).Some?
    ensures Persist(Persist(t, plan).value, plan) == Persist(t, plan)
  {
    var t' := Persist(t, plan).value;
    InsertedAreMatched(t.matches, plan.matches);
    InsertAgain(t'.matches, plan.matches);
    LinkedAreAnswered(t.intake, plan.intakeMatches);
    LinkAgain(t'.intake, plan.intakeMatches);
    forall key | RaisedBy(plan.exceptions, key) ensures Pending(t'.queue, key) {
      QueueHoldsPlan(t.queue, plan.exceptions, key);
    }
    RequeueAddsNothing(t'.queue, plan.exceptions);
    assert Settle(t'.notes, plan.settledNotes.Keys) == t'.notes;
  }

  /** After a committed run the OPEN keys are those before and those of the plan, each once; when none of
      the plan's was OPEN before, its exceptions are queued whole and in order. */
  lemma RunQueuesPlan(t: Tables, asOf: string, key: string)
    requires StoreOk(t) && Persist(t, PlanOf(Load(t, asOf))).Some?
    ensures var planned := PlanOf(Load(t, asOf)).exceptions;
            var q := Persist(t, PlanOf(Load(t, asOf))).value.queue;
            && OpenKeysUnique(q) && (Pending(q, key) <==> Pending(t.queue, key) || RaisedBy(planned, key))
            && ((forall k :: RaisedBy(planned, k) ==> !Pending(t.queue, k)) ==> q == t.queue + AsOpen(planned))
  {
    var planned := PlanOf(Load(t, asOf)).exceptions;
    QueueKeepsUnique(t.queue, planned);
    QueueHoldsPlan(t.queue, planned, key);
    if forall k :: RaisedBy(planned, k) ==> !Pending(t.queue, k) {
      LoadIsWellKeyed(t, asOf);
      PlanKeysDiffer(Load(t, asOf));
      FirstRaiseAddsAll(t.queue, planned);
    }
  }

  // ---- the store ----

  class Store {
    var notes: seq<NoteRow>
    var settlements: seq<Settlement>
    var lines: seq<StatementLeg>
    var intake: seq<IntakeRow>
    var matches: seq<Match>
    var queue: seq<Queued>

    constructor (t: Tables)
      ensures Snapshot() == t
    {
      notes, settlements, lines, intake, matches, queue := t.notes, t.settlements, t.lines, t.intake, t.matches, t.queue;
    }

    function Snapshot(): Tables
      reads this
    {
      Tables(notes, settlements, lines, intake, matches, queue)
    }

    /** The load and the plan of a batch are made before its transaction begins. */
    method PlanBatch(asOf: string) returns (plan: Plan)
      ensures plan == PlanOf(Load(Snapshot(), asOf))
    {
      plan := Recon.PlanRecon(Load(Snapshot(), asOf));
    }

    /** One batch with nobody in between. */
    method RunRecon(asOf: string) returns (committed: bool)
      modifies this
      ensures var t' := Persist(old(Snapshot()), PlanOf(Load(old(Snapshot()), asOf)));
              committed == t'.Some? && Snapshot() == (if committed then t'.value else old(Snapshot()))
    {
      var plan := PlanBatch(asOf);
      committed := Commit(plan);
    }

    /** The transaction of a batch, whatever the tables have become since its plan was made: true when it
        committed, false when it was rolled back. */
    method Commit(plan: Plan) returns (committed: bool)
      modifies this
      ensures var t' := Persist(old(Snapshot()), plan);
              committed == t'.Some? && Snapshot() == (if committed then t'.value else old(Snapshot()))
    {
      var inserted := RecordMatches(matches, plan.matches);
      if inserted.None? {
        return false;
      }
      matches := inserted.value;
      notes := SettleNotes(notes, plan.settledNotes);
      intake := LinkAssessments(intake, plan.intakeMatches);
      queue := RaiseExceptions(queue, plan.exceptions);
      committed := true;
    }
  }

  method RecordMatches(ms: seq<Match>, planned: seq<Match>) returns (r: Option<seq<Match>>)
    ensures r == InsertMatches(ms, planned)
  {
    var recorded := ms;
    for k := 0 to |planned|
      invariant InsertMatches(ms, planned[..k]) == Some(recorded)
    {
      assert planned[..k + 1][..k] == planned[..k];
      var after := InsertMatch(recorded, planned[k]);
      if after.None? {
        FailureStays(ms, planned, k + 1);
        return None;
      }
      recorded := after.value;
    }
    assert planned[..|planned|] == planned;
    r := Some(recorded);
  }

  /** A failed insert aborts the transaction: later matches do not repair it. */
  lemma {:induction false} FailureStays(ms: seq<Match>, planned: seq<Match>, k: nat)
    requires k <= |planned| && InsertMatches(ms, planned[..k]).None?
    ensures InsertMatches(ms, planned).None?
    decreases |planned|
  {
    if k == |planned| {
      assert planned[..k] == planned;
    } else {
      assert planned[..|planned| - 1][..k] == planned[..k];
      FailureStays(ms, planned[..|planned| - 1], k);
    }
  }

  /** The settled-notes map is visited in any order. */
  method SettleNotes(rows: seq<NoteRow>, settled: map<string, string>) returns (r: seq<NoteRow>)
    ensures r == Settle(rows, settled.Keys)
  {
    r := rows;
    var left := settled.Keys;
    while left != {}
      invariant left <= settled.Keys && r == Settle(rows, settled.Keys - left)
      decreases |left|
    {
      var id :| id in left;
      r := Settle(r, {id});
      left := left - {id};
    }
  }

  method LinkAssessments(rows: seq<IntakeRow>, ims: seq<IntakeMatch>) returns (r: seq<IntakeRow>)
    ensures r == Link(rows, ims)
  {
    r := rows;
    for k := 0 to |ims|
      invariant r == Link(rows, ims[..k])
    {
      assert ims[..k + 1][..k] == ims[..k];
      r := LinkOne(r, ims[k]);
    }
    assert ims[..|ims|] == ims;
  }

  method RaiseExceptions(q: seq<Queued>, es: seq<Exception>) returns (r: seq<Queued>)
    ensures r == Enqueue(q, es)
  {
    r := q;
    for k := 0 to |es|
      invariant r == Enqueue(q, es[..k])
    {
      assert es[..k + 1][..k] == es[..k];
      r := EnqueueOne(r, es[k]);
    }
    assert es[..|es|] == es;
  }
}
