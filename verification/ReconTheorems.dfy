/** What a reconciliation plan guarantees: sound and complete three-way matches, conservation of
    settlement money, distinct dedupe keys, nothing left for a second run, and independence of how
    statement lines are batched. */
module ReconTheorems {
  import opened Wrappers
  import opened ReconSpec
  import Recon
  import Text

  // ---- well-formed input: what the tables' keys guarantee ----

  /** Primary keys: settlement ids, note ids, statement lines and event ids are distinct, a note has an
      id, and document numbers are unique. */
  ghost predicate WellKeyed(inp: Input) {
    && (forall i, j :: 0 <= i < j < |inp.settlements| ==> inp.settlements[i].id != inp.settlements[j].id)
    && (forall n :: n in inp.notes ==> n.id != "")
    && (forall i, j :: 0 <= i < j < |inp.notes| ==> inp.notes[i].id != inp.notes[j].id)
    && (forall m, n :: m in inp.notes && n in inp.notes && m.documentNumber == n.documentNumber != "" ==> m == n)
    && (forall i, j :: 0 <= i < j < |inp.lines| ==>
          inp.lines[i].statementId != inp.lines[j].statementId || inp.lines[i].lineNo != inp.lines[j].lineNo)
    && (forall i, j :: 0 <= i < j < |inp.intake| ==> inp.intake[i].eventId != inp.intake[j].eventId)
  }

  lemma SameSettlement(inp: Input, s: Settlement, t: Settlement)
    requires WellKeyed(inp) && s in inp.settlements && t in inp.settlements && s.id == t.id
    ensures s == t
  {
    var i :| 0 <= i < |inp.settlements| && inp.settlements[i] == s;
    var j :| 0 <= j < |inp.settlements| && inp.settlements[j] == t;
  }

  lemma SameLine(inp: Input, k: StatementLeg, l: StatementLeg)
    requires WellKeyed(inp) && k in inp.lines && l in inp.lines && k.statementId == l.statementId && k.lineNo == l.lineNo
    ensures k == l
  {
    var i :| 0 <= i < |inp.lines| && inp.lines[i] == k;
    var j :| 0 <= j < |inp.lines| && inp.lines[j] == l;
  }

  lemma SameNote(inp: Input, m: DebitNote, n: DebitNote)
    requires WellKeyed(inp) && m in inp.notes && n in inp.notes && m.id == n.id
    ensures m == n
  {
    var i :| 0 <= i < |inp.notes| && inp.notes[i] == m;
    var j :| 0 <= j < |inp.notes| && inp.notes[j] == n;
  }

  // ---- sharing a reference ----

  lemma {:induction false} TwoSiblings(ss: seq<Settlement>, s: Settlement, t: Settlement)
    requires s in ss && t in ss && s != t && s.bankReference == t.bankReference
    ensures |Siblings(ss, s.bankReference)| > 1
  {
    var last := ss[|ss| - 1];
    var init := ss[..|ss| - 1];
    assert forall x :: x in ss ==> x in init || x == last;
    if last == s {
      assert t in Siblings(init, s.bankReference);
    } else if last == t {
      assert s in Siblings(init, s.bankReference);
    } else {
      TwoSiblings(init, s, t);
    }
  }

  lemma {:induction false} SiblingsAt(ss: seq<Settlement>, ref: string)
    returns (i: nat, j: nat)
    requires |Siblings(ss, ref)| > 1
    ensures i < j < |ss| && ss[i].bankReference == ss[j].bankReference == ref
  {
    var init := ss[..|ss| - 1];
    if ss[|ss| - 1].bankReference == ref {
      assert Siblings(init, ref)[0] in Siblings(init, ref);
      i :| 0 <= i < |init| && init[i].bankReference == ref;
      j := |ss| - 1;
    } else {
      i, j := SiblingsAt(init, ref);
    }
  }

  /** A settlement is frozen exactly when another settlement was remitted under its reference. */
  lemma FrozenExactly(inp: Input, s: Settlement)
    requires WellKeyed(inp) && s in inp.settlements
    ensures Dispose(inp, s).Frozen? <==>
            exists t :: t in inp.settlements && t.id != s.id && t.bankReference == s.bankReference
  {
    if Dispose(inp, s).Frozen? {
      var i, j := SiblingsAt(inp.settlements, s.bankReference);
      assert inp.settlements[i].id != inp.settlements[j].id;
    }
    if t :| t in inp.settlements && t.id != s.id && t.bankReference == s.bankReference {
      TwoSiblings(inp.settlements, s, t);
    }
  }

  // ---- matches ----

  /** The three legs of a clean match, in relational terms. */
  ghost predicate CleanMatch(inp: Input, s: Settlement, note: DebitNote, line: StatementLeg) {
    && (forall t :: t in inp.settlements && t.bankReference == s.bankReference ==> t.id == s.id)
    && note in inp.notes && line in inp.lines
    && (|| note.id == s.debitNoteId
        || (s.debitNoteId == "" && note.documentNumber == s.bankReference != ""))
    && NoteAmountIn(note, s.currency) == s.amountMinor == line.amountMinor
    && line.currency == s.currency
    && FirstLine(inp.lines, s.bankReference) == Some(line)
  }

  /** A settlement is matched exactly when its three legs agree in amount and currency, nobody shares its
      bank reference, and the line is the first one under it. */
  lemma MatchedExactly(inp: Input, s: Settlement, note: DebitNote, line: StatementLeg)
    requires WellKeyed(inp) && s in inp.settlements
    ensures Dispose(inp, s) == Matched(note, line) <==> CleanMatch(inp, s, note, line)
  {
    FrozenExactly(inp, s);
    if CleanMatch(inp, s, note, line) {
      var named := LastById(inp.notes, s.debitNoteId);
      if named.Some? {
        if note.id == s.debitNoteId {
          SameNote(inp, note, named.value);
        }
      } else {
        assert note.documentNumber == s.bankReference;
      }
      assert Identify(inp.notes, s) == Some(note);
    }
    if Dispose(inp, s) == Matched(note, line) {
      assert Identify(inp.notes, s) == Some(note);
    }
  }

  lemma {:induction false} MatchesSound(inp: Input, ss: seq<Settlement>, m: Match)
    requires m in MatchesOf(inp, ss)
    ensures exists s :: s in ss && Dispose(inp, s).Matched? && m == MatchOf(s, Dispose(inp, s).note, Dispose(inp, s).line)
  {
    var s, init := ss[|ss| - 1], ss[..|ss| - 1];
    if m in MatchesOf(inp, init) {
      MatchesSound(inp, init, m);
    } else {
      assert s in ss;
    }
  }

  lemma {:induction false} MatchesComplete(inp: Input, ss: seq<Settlement>, s: Settlement)
    requires s in ss && Dispose(inp, s).Matched?
    ensures MatchOf(s, Dispose(inp, s).note, Dispose(inp, s).line) in MatchesOf(inp, ss)
  {
    if s != ss[|ss| - 1] {
      assert s in ss[..|ss| - 1];
      MatchesComplete(inp, ss[..|ss| - 1], s);
    }
  }

  /** Every planned match names an existing settlement, note and line that agree on the money. */
  lemma MatchHasThreeLegs(inp: Input, m: Match)
    requires WellKeyed(inp) && m in PlanOf(inp).matches
    ensures exists s, note, line :: s in inp.settlements && CleanMatch(inp, s, note, line) && m == MatchOf(s, note, line)
  {
    MatchesSound(inp, inp.settlements, m);
    var s :| s in inp.settlements && Dispose(inp, s).Matched? && m == MatchOf(s, Dispose(inp, s).note, Dispose(inp, s).line);
    MatchedExactly(inp, s, Dispose(inp, s).note, Dispose(inp, s).line);
  }

  predicate Apart(m: Match, n: Match) {
    && m.settlementId != n.settlementId
    && (m.statementId != n.statementId || m.lineNo != n.lineNo)
  }

  predicate AllApart(ms: seq<Match>) {
    forall i, j :: 0 <= i < j < |ms| ==> Apart(ms[i], ms[j])
  }

  /** No settlement and no statement line is in two matches. */
  lemma MatchesInjective(inp: Input)
    requires WellKeyed(inp)
    ensures AllApart(PlanOf(inp).matches)
  {
    ApartUpTo(inp, |inp.settlements|);
    assert inp.settlements[..|inp.settlements|] == inp.settlements;
  }

  lemma {:induction false} ApartUpTo(inp: Input, k: nat)
    requires WellKeyed(inp) && k <= |inp.settlements|
    ensures AllApart(MatchesOf(inp, inp.settlements[..k]))
  {
    if k > 0 {
      var before, s := inp.settlements[..k - 1], inp.settlements[k - 1];
      ApartUpTo(inp, k - 1);
      assert before + [s] == inp.settlements[..k];
      Recon.OneMore(inp, before, s, Dispose(inp, s));
      if Dispose(inp, s).Matched? {
        forall m | m in MatchesOf(inp, before) ensures Apart(m, MatchOf(s, Dispose(inp, s).note, Dispose(inp, s).line)) {
          ApartFromEarlier(inp, k - 1, m);
        }
      }
    }
  }

  lemma ApartFromEarlier(inp: Input, k: nat, m: Match)
    requires WellKeyed(inp) && k < |inp.settlements| && m in MatchesOf(inp, inp.settlements[..k])
    requires Dispose(inp, inp.settlements[k]).Matched?
    ensures var s := inp.settlements[k]; Apart(m, MatchOf(s, Dispose(inp, s).note, Dispose(inp, s).line))
  {
    MatchesSound(inp, inp.settlements[..k], m);
    var t :| t in inp.settlements[..k] && Dispose(inp, t).Matched? && m == MatchOf(t, Dispose(inp, t).note, Dispose(inp, t).line);
    var i :| 0 <= i < k && inp.settlements[i] == t;
    assert t.id != inp.settlements[k].id;
    DistinctLines(inp, inp.settlements[k], t);
  }

  lemma DistinctLines(inp: Input, s: Settlement, t: Settlement)
    requires WellKeyed(inp) && s in inp.settlements && t in inp.settlements && s.id != t.id
    requires Dispose(inp, s).Matched? && Dispose(inp, t).Matched?
    ensures Dispose(inp, t).line.statementId != Dispose(inp, s).line.statementId
            || Dispose(inp, t).line.lineNo != Dispose(inp, s).line.lineNo
  {
    FrozenExactly(inp, s);
    MatchedExactly(inp, s, Dispose(inp, s).note, Dispose(inp, s).line);
    MatchedExactly(inp, t, Dispose(inp, t).note, Dispose(inp, t).line);
    var a, b := Dispose(inp, t).line, Dispose(inp, s).line;
    assert a.bankReference == t.bankReference && b.bankReference == s.bankReference;
    if a.statementId == b.statementId && a.lineNo == b.lineNo {
      SameLine(inp, a, b);
    }
  }

  const SHARED_NOTE := DebitNote("n", "", 5, 0, "2026-01-01")
  const SHARE_1 := Settlement("1", "n", "3", 5, "USD")
  const SHARE_2 := Settlement("2", "n", "4", 5, "USD")
  const SHARE_LINE_1 := StatementLeg("st", 1, "3", 5, "USD")
  const SHARE_LINE_2 := StatementLeg("st", 2, "4", 5, "USD")
  const SHARED_INPUT := Input([SHARED_NOTE], [SHARE_1, SHARE_2], [SHARE_LINE_1, SHARE_LINE_2], [], "2026-02-01")

  lemma SharedKeys()
    ensures WellKeyed(SHARED_INPUT) && SHARE_1 != SHARE_2
  {
    assert SHARE_1.id[0] != SHARE_2.id[0];
  }

  lemma SharedSiblings()
    ensures Siblings(SHARED_INPUT.settlements, "3") == [SHARE_1]
    ensures Siblings(SHARED_INPUT.settlements, "4") == [SHARE_2]
  {
    var ss := SHARED_INPUT.settlements;
    assert "3"[0] != "4"[0];
    assert ss[..1] == [SHARE_1] && [SHARE_1][..0] == [];
    assert Siblings([SHARE_1], "3") == [] + [SHARE_1] && Siblings([SHARE_1], "4") == [];
  }

  lemma SharedLines()
    ensures FirstLine(SHARED_INPUT.lines, "3") == Some(SHARE_LINE_1)
    ensures FirstLine(SHARED_INPUT.lines, "4") == Some(SHARE_LINE_2)
  {
    var ls := SHARED_INPUT.lines;
    assert "3"[0] != "4"[0];
    assert ls[..1] == [SHARE_LINE_1] && [SHARE_LINE_1][..0] == [];
    assert FirstLine([SHARE_LINE_1], "3") == Some(SHARE_LINE_1) && FirstLine([SHARE_LINE_1], "4") == None;
  }

  /** Matches are not injective on notes: two settlements, each under its own reference, that name one
      note both match it. */
  lemma OneNoteTwice()
    ensures WellKeyed(SHARED_INPUT)
    ensures PlanOf(SHARED_INPUT).matches == [Match("n", "1", "st", 1, 5, "USD"), Match("n", "2", "st", 2, 5, "USD")]
  {
    SharedKeys();
    SharedSiblings();
    SharedLines();
    assert LastById([SHARED_NOTE], "n") == Some(SHARED_NOTE);
    assert Dispose(SHARED_INPUT, SHARE_1) == Matched(SHARED_NOTE, SHARE_LINE_1);
    assert Dispose(SHARED_INPUT, SHARE_2) == Matched(SHARED_NOTE, SHARE_LINE_2);
    Recon.OneMore(SHARED_INPUT, [], SHARE_1, Matched(SHARED_NOTE, SHARE_LINE_1));
    Recon.OneMore(SHARED_INPUT, [SHARE_1], SHARE_2, Matched(SHARED_NOTE, SHARE_LINE_2));
    assert [] + [SHARE_1] == [SHARE_1] && [SHARE_1] + [SHARE_2] == SHARED_INPUT.settlements;
  }

  // ---- conservation ----

  function SumSettlements(ss: seq<Settlement>): int {
    if ss == [] then 0 else SumSettlements(ss[..|ss| - 1]) + ss[|ss| - 1].amountMinor
  }

  function SumMatches(ms: seq<Match>): int {
    if ms == [] then 0 else SumMatches(ms[..|ms| - 1]) + ms[|ms| - 1].amountMinor
  }

  /** The settlement's own money in an exception about it: the actual amount, or the expected one when
      the exception is about a statement line. */
  function SettlementMoney(e: Exception): int {
    var side := if e.subject.OfLine? then e.expected else e.actual;
    if side.Some? then side.value else 0
  }

  function SumExceptions(es: seq<Exception>): int {
    if es == [] then 0 else SumExceptions(es[..|es| - 1]) + SettlementMoney(es[|es| - 1])
  }

  function SumAwaiting(inp: Input, ss: seq<Settlement>): int {
    if ss == [] then 0
    else SumAwaiting(inp, ss[..|ss| - 1]) + (if Dispose(inp, ss[|ss| - 1]).Awaiting? then ss[|ss| - 1].amountMinor else 0)
  }

  function SumIntakeMatched(inp: Input, ss: seq<Settlement>): int {
    if ss == [] then 0
    else SumIntakeMatched(inp, ss[..|ss| - 1])
         + (if Dispose(inp, ss[|ss| - 1]).IntakeMatched? then ss[|ss| - 1].amountMinor else 0)
  }

  lemma SumMatchesAppend(ms: seq<Match>, m: Match)
    ensures SumMatches(ms + [m]) == SumMatches(ms) + m.amountMinor
  {
    assert (ms + [m])[..|ms|] == ms;
  }

  lemma SumExceptionsAppend(es: seq<Exception>, e: Exception)
    ensures SumExceptions(es + [e]) == SumExceptions(es) + SettlementMoney(e)
  {
    assert (es + [e])[..|es|] == es;
  }

  /** An exception is raised for exactly the settlements that neither match nor wait, and carries their money. */
  lemma ExceptionMoney(s: Settlement, d: Disposition)
    ensures SettlementException(s, d).Some? <==> !d.Matched? && !d.Awaiting? && !d.IntakeMatched?
    ensures SettlementException(s, d).Some? ==> SettlementMoney(SettlementException(s, d).value) == s.amountMinor
  {
  }

  lemma OneSettlementOneBucket(inp: Input, init: seq<Settlement>, s: Settlement, d: Disposition)
    requires d == Dispose(inp, s)
    ensures SumMatches(MatchesOf(inp, init + [s])) + SumExceptions(SettlementExceptions(inp, init + [s]))
            == SumMatches(MatchesOf(inp, init)) + SumExceptions(SettlementExceptions(inp, init))
               + (if d.Awaiting? || d.IntakeMatched? then 0 else s.amountMinor)
  {
    Recon.OneMore(inp, init, s, d);
    OneBucket(s, d, MatchesOf(inp, init), SettlementExceptions(inp, init));
  }

  lemma OneBucket(s: Settlement, d: Disposition, ms: seq<Match>, es: seq<Exception>)
    ensures SumMatches(ms + (if d.Matched? then [MatchOf(s, d.note, d.line)] else []))
            + SumExceptions(es + (if SettlementException(s, d).Some? then [SettlementException(s, d).value] else []))
            == SumMatches(ms) + SumExceptions(es) + (if d.Awaiting? || d.IntakeMatched? then 0 else s.amountMinor)
  {
    ExceptionMoney(s, d);
    assert ms + [] == ms && es + [] == es;
    if d.Matched? {
      SumMatchesAppend(ms, MatchOf(s, d.note, d.line));
    }
    if SettlementException(s, d).Some? {
      SumExceptionsAppend(es, SettlementException(s, d).value);
    }
  }

  /** Every unit of settlement money is in a match, in an intake match, in an exception, or waiting for
      its statement line: once and only once. */
  lemma {:induction false} SettlementMoneyConserved(inp: Input, ss: seq<Settlement>)
    ensures SumSettlements(ss) == SumMatches(MatchesOf(inp, ss)) + SumExceptions(SettlementExceptions(inp, ss))
                                  + SumAwaiting(inp, ss) + SumIntakeMatched(inp, ss)
  {
    if ss != [] {
      var s, init := ss[|ss| - 1], ss[..|ss| - 1];
      SettlementMoneyConserved(inp, init);
      assert init + [s] == ss;
      OneSettlementOneBucket(inp, init, s, Dispose(inp, s));
    }
  }
}
