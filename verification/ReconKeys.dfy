/** No two exceptions of one plan share a dedupe key, so queueing a plan never swallows one of its own
    exceptions. */
module ReconKeys {
  import opened Wrappers
  import opened ReconSpec
  import opened ReconTheorems
  import Recon
  import Text

  // ---- a key names its class and subject ----

  lemma ClassNamesDiffer(c: Class, d: Class)
    requires ClassName(c) == ClassName(d)
    ensures c == d
  {
    var n := ClassName(c);
    assert c.DuplicateBankRef? ==> n[0] == 'D';
    assert c.AmountMismatch? ==> n[0] == 'A';
    assert c.UnmatchedSettlement? ==> n[0] == 'U' && n[10..12] == "SE" && n[10] == 'S' && n[11] == 'E';
    assert c.UnmatchedStatement? ==> n[0] == 'U' && n[10] == 'S' && n[11] == 'T';
    assert c.UnmatchedAssessment? ==> n[0] == 'U' && n[10] == 'A';
    assert d.DuplicateBankRef? ==> n[0] == 'D';
    assert d.AmountMismatch? ==> n[0] == 'A';
    assert d.UnmatchedSettlement? ==> n[0] == 'U' && n[10] == 'S' && n[11] == 'E';
    assert d.UnmatchedStatement? ==> n[0] == 'U' && n[10] == 'S' && n[11] == 'T';
    assert d.UnmatchedAssessment? ==> n[0] == 'U' && n[10] == 'A';
  }

  function Kind(s: Subject): string {
    match s
    case OfSettlement(_) => "settlement"
    case OfLine(_, _) => "line"
    case OfNote(_) => "note"
    case OfIntake(_) => "intake"
  }

  function Name(s: Subject): string {
    match s
    case OfSettlement(id) => id
    case OfLine(statementId, lineNo) => LineKey(statementId, lineNo)
    case OfNote(id) => id
    case OfIntake(id) => id
  }

  lemma SubjectTextInjective(s: Subject, t: Subject)
    requires SubjectText(s) == SubjectText(t)
    ensures s == t
  {
    assert SubjectText(s) == Kind(s) + [':'] + Name(s);
    assert SubjectText(t) == Kind(t) + [':'] + Name(t);
    Text.JoinInjective(Kind(s), Name(s), Kind(t), Name(t), ':');
    assert Kind(s)[0] == Kind(t)[0];
    if s.OfLine? && t.OfLine? {
      Recon.LineKeyInjective(s.statementId, s.lineNo, t.statementId, t.lineNo);
    }
  }

  /** Distinct (class, subject) pairs have distinct dedupe keys. */
  lemma DedupeKeyInjective(e: Exception, f: Exception)
    requires DedupeKey(e) == DedupeKey(f)
    ensures e.class_ == f.class_ && e.subject == f.subject
  {
    Text.JoinInjective(ClassName(e.class_), SubjectText(e.subject), ClassName(f.class_), SubjectText(f.subject), '|');
    ClassNamesDiffer(e.class_, f.class_);
    SubjectTextInjective(e.subject, f.subject);
  }

  // ---- exceptions of a plan differ in class or subject ----

  predicate Differ(e: Exception, f: Exception) {
    e.class_ != f.class_ || e.subject != f.subject
  }

  predicate AllDiffer(es: seq<Exception>) {
    forall i, j :: 0 <= i < j < |es| ==> Differ(es[i], es[j])
  }

  lemma DifferConcat(es: seq<Exception>, fs: seq<Exception>)
    requires AllDiffer(es) && AllDiffer(fs)
    requires forall e, f | e in es && f in fs :: Differ(e, f)
    ensures AllDiffer(es + fs)
  {
    forall i, j | 0 <= i < j < |es + fs| ensures Differ((es + fs)[i], (es + fs)[j]) {
      if i < |es| && j >= |es| {
        assert es[i] in es && fs[j - |es|] in fs;
      }
    }
  }

  lemma DifferSnoc(es: seq<Exception>, f: Exception)
    requires AllDiffer(es) && forall e :: e in es ==> Differ(e, f)
    ensures AllDiffer(es + [f])
  {
  }

  /** What a settlement's exception is about: the settlement itself, or, for a line that disagrees, the
      first line under its reference. */
  ghost predicate AboutSettlement(inp: Input, s: Settlement, e: Exception) {
    && SettlementException(s, Dispose(inp, s)) == Some(e)
    && (|| e.subject == OfSettlement(s.id)
        || (&& Dispose(inp, s).LineMismatch? && e.class_ == AmountMismatch
            && e.subject == OfLine(Dispose(inp, s).line.statementId, Dispose(inp, s).line.lineNo)))
    && e.class_ != UnmatchedStatement
  }

  lemma ExceptionIsAbout(inp: Input, s: Settlement)
    requires SettlementException(s, Dispose(inp, s)).Some?
    ensures AboutSettlement(inp, s, SettlementException(s, Dispose(inp, s)).value)
  {
    var d := Dispose(inp, s);
  }

  lemma {:induction false} SettlementExceptionFrom(inp: Input, ss: seq<Settlement>, e: Exception)
    requires e in SettlementExceptions(inp, ss)
    ensures exists s :: s in ss && AboutSettlement(inp, s, e)
  {
    var s, init := ss[|ss| - 1], ss[..|ss| - 1];
    if e in SettlementExceptions(inp, init) {
      SettlementExceptionFrom(inp, init, e);
    } else {
      ExceptionIsAbout(inp, s);
      assert s in ss;
    }
  }

  lemma MismatchedLinesApart(inp: Input, s: Settlement, t: Settlement)
    requires WellKeyed(inp) && s in inp.settlements && t in inp.settlements && s.id != t.id
    requires Dispose(inp, s).LineMismatch? && Dispose(inp, t).LineMismatch?
    ensures Dispose(inp, t).line.statementId != Dispose(inp, s).line.statementId
            || Dispose(inp, t).line.lineNo != Dispose(inp, s).line.lineNo
  {
    FrozenExactly(inp, s);
    var a, b := Dispose(inp, t).line, Dispose(inp, s).line;
    assert a == FirstLine(inp.lines, t.bankReference).value && b == FirstLine(inp.lines, s.bankReference).value;
    if a.statementId == b.statementId && a.lineNo == b.lineNo {
      SameLine(inp, a, b);
    }
  }

  lemma TwoSettlementsDiffer(inp: Input, s: Settlement, t: Settlement, e: Exception, f: Exception)
    requires WellKeyed(inp) && s in inp.settlements && t in inp.settlements && s.id != t.id
    requires AboutSettlement(inp, s, e) && AboutSettlement(inp, t, f)
    ensures Differ(e, f)
  {
    if e.subject.OfLine? && f.subject.OfLine? {
      MismatchedLinesApart(inp, s, t);
    }
  }

  lemma {:induction false} SettlementsDiffer(inp: Input, k: nat)
    requires WellKeyed(inp) && k <= |inp.settlements|
    ensures AllDiffer(SettlementExceptions(inp, inp.settlements[..k]))
  {
    if k > 0 {
      var before, s := inp.settlements[..k - 1], inp.settlements[k - 1];
      SettlementsDiffer(inp, k - 1);
      assert before + [s] == inp.settlements[..k];
      Recon.OneMore(inp, before, s, Dispose(inp, s));
      var e := SettlementException(s, Dispose(inp, s));
      if e.Some? {
        ExceptionIsAbout(inp, s);
        forall f | f in SettlementExceptions(inp, before) ensures Differ(f, e.value) {
          DiffersFromEarlier(inp, k - 1, f, e.value);
        }
        DifferSnoc(SettlementExceptions(inp, before), e.value);
      }
    }
  }

  lemma DiffersFromEarlier(inp: Input, k: nat, f: Exception, e: Exception)
    requires WellKeyed(inp) && k < |inp.settlements|
    requires f in SettlementExceptions(inp, inp.settlements[..k]) && AboutSettlement(inp, inp.settlements[k], e)
    ensures Differ(f, e)
  {
    SettlementExceptionFrom(inp, inp.settlements[..k], f);
    var t :| t in inp.settlements[..k] && AboutSettlement(inp, t, f);
    var i :| 0 <= i < k && inp.settlements[i] == t;
    assert t.id != inp.settlements[k].id;
    TwoSettlementsDiffer(inp, t, inp.settlements[k], f, e);
  }

  lemma {:induction false} LineExceptionFrom(inp: Input, ls: seq<StatementLeg>, e: Exception)
    requires e in LineExceptions(inp, ls)
    ensures exists l :: l in ls && e.class_ == UnmatchedStatement && e.subject == OfLine(l.statementId, l.lineNo)
  {
    var l, init := ls[|ls| - 1], ls[..|ls| - 1];
    if e in LineExceptions(inp, init) {
      LineExceptionFrom(inp, init, e);
    } else {
      assert l in ls;
    }
  }

  lemma {:induction false} LinesDiffer(inp: Input, k: nat)
    requires WellKeyed(inp) && k <= |inp.lines|
    ensures AllDiffer(LineExceptions(inp, inp.lines[..k]))
  {
    if k > 0 {
      LinesDiffer(inp, k - 1);
      var l := inp.lines[k - 1];
      assert inp.lines[..k][..k - 1] == inp.lines[..k - 1];
      forall e | e in LineExceptions(inp, inp.lines[..k - 1])
        ensures e.subject != OfLine(l.statementId, l.lineNo)
      {
        LineExceptionFrom(inp, inp.lines[..k - 1], e);
        var m :| m in inp.lines[..k - 1] && e.subject == OfLine(m.statementId, m.lineNo);
        var i :| 0 <= i < k - 1 && inp.lines[i] == m;
      }
    }
  }

  lemma {:induction false} NoteExceptionFrom(inp: Input, ns: seq<DebitNote>, e: Exception)
    requires e in NoteExceptions(inp, ns)
    ensures exists n :: n in ns && e.subject == OfNote(n.id)
  {
    var n, init := ns[|ns| - 1], ns[..|ns| - 1];
    if e in NoteExceptions(inp, init) {
      NoteExceptionFrom(inp, init, e);
    } else {
      assert n in ns;
    }
  }

  lemma {:induction false} NotesDiffer(inp: Input, k: nat)
    requires WellKeyed(inp) && k <= |inp.notes|
    ensures AllDiffer(NoteExceptions(inp, inp.notes[..k]))
  {
    if k > 0 {
      NotesDiffer(inp, k - 1);
      assert inp.notes[..k][..k - 1] == inp.notes[..k - 1];
      forall e | e in NoteExceptions(inp, inp.notes[..k - 1])
        ensures e.subject != OfNote(inp.notes[k - 1].id)
      {
        NoteExceptionFrom(inp, inp.notes[..k - 1], e);
        var m :| m in inp.notes[..k - 1] && e.subject == OfNote(m.id);
        var i :| 0 <= i < k - 1 && inp.notes[i] == m;
      }
    }
  }

  lemma {:induction false} IntakeExceptionFrom(is_: seq<Intake>, e: Exception)
    requires e in IntakeExceptions(is_)
    ensures exists i :: i in is_ && e.subject == OfIntake(i.eventId)
  {
    var i, init := is_[|is_| - 1], is_[..|is_| - 1];
    if e in IntakeExceptions(init) {
      IntakeExceptionFrom(init, e);
    } else {
      assert i in is_;
    }
  }

  lemma {:induction false} IntakesDiffer(inp: Input, k: nat)
    requires WellKeyed(inp) && k <= |inp.intake|
    ensures AllDiffer(IntakeExceptions(inp.intake[..k]))
  {
    if k > 0 {
      IntakesDiffer(inp, k - 1);
      assert inp.intake[..k][..k - 1] == inp.intake[..k - 1];
      forall e | e in IntakeExceptions(inp.intake[..k - 1])
        ensures e.subject != OfIntake(inp.intake[k - 1].eventId)
      {
        IntakeExceptionFrom(inp.intake[..k - 1], e);
        var m :| m in inp.intake[..k - 1] && e.subject == OfIntake(m.eventId);
        var i :| 0 <= i < k - 1 && inp.intake[i] == m;
      }
    }
  }

  lemma KindsApart(inp: Input, e: Exception)
    ensures e in SettlementExceptions(inp, inp.settlements)
            ==> e.subject.OfSettlement? || (e.subject.OfLine? && e.class_ == AmountMismatch)
    ensures e in LineExceptions(inp, inp.lines) ==> e.subject.OfLine? && e.class_ == UnmatchedStatement
    ensures e in NoteExceptions(inp, inp.notes) ==> e.subject.OfNote?
    ensures e in IntakeExceptions(inp.intake) ==> e.subject.OfIntake?
  {
    if e in SettlementExceptions(inp, inp.settlements) { SettlementExceptionFrom(inp, inp.settlements, e); }
    if e in LineExceptions(inp, inp.lines) { LineExceptionFrom(inp, inp.lines, e); }
    if e in NoteExceptions(inp, inp.notes) { NoteExceptionFrom(inp, inp.notes, e); }
    if e in IntakeExceptions(inp.intake) { IntakeExceptionFrom(inp.intake, e); }
  }

  lemma PlanExceptionsDiffer(inp: Input)
    requires WellKeyed(inp)
    ensures AllDiffer(PlanOf(inp).exceptions)
  {
    SettlementsDiffer(inp, |inp.settlements|);
    LinesDiffer(inp, |inp.lines|);
    NotesDiffer(inp, |inp.notes|);
    IntakesDiffer(inp, |inp.intake|);
    assert inp.settlements[..|inp.settlements|] == inp.settlements && inp.lines[..|inp.lines|] == inp.lines;
    assert inp.notes[..|inp.notes|] == inp.notes && inp.intake[..|inp.intake|] == inp.intake;
    forall e { KindsApart(inp, e); }
    var s, l, n, i := SettlementExceptions(inp, inp.settlements), LineExceptions(inp, inp.lines),
                      NoteExceptions(inp, inp.notes), IntakeExceptions(inp.intake);
    DifferConcat(s, l);
    DifferConcat(s + l, n);
    DifferConcat(s + l + n, i);
  }

  /** No two exceptions of one plan share a dedupe key. */
  lemma DedupeKeysDistinct(inp: Input, i: nat, j: nat)
    requires WellKeyed(inp) && i < j < |PlanOf(inp).exceptions|
    ensures DedupeKey(PlanOf(inp).exceptions[i]) != DedupeKey(PlanOf(inp).exceptions[j])
  {
    PlanExceptionsDiffer(inp);
    assert Differ(PlanOf(inp).exceptions[i], PlanOf(inp).exceptions[j]);
    if DedupeKey(PlanOf(inp).exceptions[i]) == DedupeKey(PlanOf(inp).exceptions[j]) {
      DedupeKeyInjective(PlanOf(inp).exceptions[i], PlanOf(inp).exceptions[j]);
    }
  }
}
