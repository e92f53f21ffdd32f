/** The report does not depend on map iteration or on how sort.Slice breaks ties, and it is clean exactly
    when statements and intents agree one to one. */
module ReconciliationTheorems {
  import opened Wrappers
  import opened Intents
  import opened Reconciliation
  import opened Sorting
  import Text

  // ---- the order of findings ----

  lemma EarlierOrder(a: Finding, b: Finding, c: Finding)
    ensures !(Earlier(a, b) && Earlier(b, a))
    ensures Earlier(a, c) ==> Earlier(a, b) || Earlier(b, c)
    ensures (a.ref == b.ref && a.kind == b.kind) || Earlier(a, b) || Earlier(b, a)
  {
    Text.LessTotal(a.ref, b.ref);
    Text.LessTotal(b.ref, c.ref);
    Text.LessTotal(KindText(a.kind), KindText(b.kind));
    Text.LessTotal(KindText(b.kind), KindText(c.kind));
    KindTextInjective(a.kind, b.kind);
    if Text.Less(b.ref, a.ref) && Text.Less(a.ref, c.ref) {
      Text.LessTransitive(b.ref, a.ref, c.ref);
    }
    if Text.Less(a.ref, c.ref) && Text.Less(c.ref, b.ref) {
      Text.LessTransitive(a.ref, c.ref, b.ref);
    }
    if Text.Less(KindText(b.kind), KindText(a.kind)) && Text.Less(KindText(a.kind), KindText(c.kind)) {
      Text.LessTransitive(KindText(b.kind), KindText(a.kind), KindText(c.kind));
    }
  }

  lemma KindTextInjective(a: Kind, b: Kind)
    ensures KindText(a) == KindText(b) ==> a == b
  {
    assert KindText(a)[0] == 'M' <==> a.MissingStatement?;
    assert KindText(a)[0] == 'U' <==> a.UnexpectedEntry?;
    assert KindText(a)[0] == 'D' <==> a.DuplicateStatement?;
    assert KindText(a)[0] == 'S' <==> a.StatusMismatch?;
    assert KindText(a)[0] == 'A' <==> a.AmountMismatch?;
    assert KindText(b)[0] == 'M' <==> b.MissingStatement?;
    assert KindText(b)[0] == 'U' <==> b.UnexpectedEntry?;
    assert KindText(b)[0] == 'D' <==> b.DuplicateStatement?;
    assert KindText(b)[0] == 'S' <==> b.StatusMismatch?;
    assert KindText(b)[0] == 'A' <==> b.AmountMismatch?;
  }

  lemma EarlierIsOrder()
    ensures StrictWeak(Earlier)
  {
    forall a, b, c
      ensures !(Earlier(a, b) && Earlier(b, a))
      ensures Earlier(a, c) ==> Earlier(a, b) || Earlier(b, c)
    {
      EarlierOrder(a, b, c);
    }
  }

  // ---- a reference and a kind determine a finding ----

  ghost predicate Determined(byRef: map<string, Intent>, ss: seq<Statement>, f: Finding) {
    match f.kind
    case DuplicateStatement => f == Finding(DuplicateStatement, f.ref, "", "", Fixed)
    case UnexpectedEntry => f.ref !in byRef && f in UnexpectedAt(byRef, ss)(f.ref)
    case _ => f.ref in byRef && f in IntentFindings(byRef[f.ref], FirstStatement(ss, f.ref))
  }

  lemma {:induction false} DuplicatesDetermined(ss: seq<Statement>, f: Finding)
    requires f in Duplicates(ss)
    ensures f == Finding(DuplicateStatement, f.ref, "", "", Fixed)
  {
    if f in Duplicates(ss[..|ss| - 1]) {
      DuplicatesDetermined(ss[..|ss| - 1], f);
    }
  }

  lemma CollectedDetermined(is_: seq<Intent>, ss: seq<Statement>, io: seq<string>, so: seq<string>, f: Finding)
    requires f in Collected(is_, ss, io, so) && forall r, i :: r in ByRef(is_) && ByRef(is_)[r] == i ==> i.request.externalRef == r
    ensures Determined(ByRef(is_), ss, f)
  {
    var byRef := ByRef(is_);
    if f in Duplicates(ss) {
      DuplicatesDetermined(ss, f);
    } else if f in FlatMap(io, IntentAt(byRef, ss)) {
      var r := FlatMapFrom(io, IntentAt(byRef, ss), f);
      assert f in IntentFindings(byRef[r], FirstStatement(ss, r));
      IntentFindingsAre(byRef[r], FirstStatement(ss, r), f);
    } else {
      var r := FlatMapFrom(so, UnexpectedAt(byRef, ss), f);
    }
  }

  lemma IntentFindingsAre(i: Intent, st: Option<Statement>, f: Finding)
    requires f in IntentFindings(i, st)
    ensures f.ref == i.request.externalRef && !f.kind.DuplicateStatement? && !f.kind.UnexpectedEntry?
  {
  }

  lemma OneFindingPerKind(i: Intent, st: Option<Statement>, f: Finding, g: Finding)
    requires f in IntentFindings(i, st) && g in IntentFindings(i, st) && f.kind == g.kind
    ensures f == g
  {
  }

  lemma {:induction false} ByRefKeyed(is_: seq<Intent>, r: string)
    requires r in ByRef(is_)
    ensures ByRef(is_)[r].request.externalRef == r && ByRef(is_)[r] in is_
  {
    if is_[|is_| - 1].request.externalRef != r {
      ByRefKeyed(is_[..|is_| - 1], r);
    }
  }

  lemma CollectedTies(is_: seq<Intent>, ss: seq<Statement>, io: seq<string>, so: seq<string>)
    ensures TiesEqual(Collected(is_, ss, io, so), Earlier)
  {
    var fs := Collected(is_, ss, io, so);
    forall r | r in ByRef(is_) ensures ByRef(is_)[r].request.externalRef == r { ByRefKeyed(is_, r); }
    forall f, g | f in fs && g in fs ensures f == g || Earlier(f, g) || Earlier(g, f) {
      EarlierOrder(f, g, f);
      if f.ref == g.ref && f.kind == g.kind {
        CollectedDetermined(is_, ss, io, so, f);
        CollectedDetermined(is_, ss, io, so, g);
        SameWhenDetermined(ByRef(is_), ss, f, g);
      }
    }
  }

  lemma SameWhenDetermined(byRef: map<string, Intent>, ss: seq<Statement>, f: Finding, g: Finding)
    requires Determined(byRef, ss, f) && Determined(byRef, ss, g) && f.ref == g.ref && f.kind == g.kind
    ensures f == g
  {
    if f.ref in byRef && !f.kind.DuplicateStatement? {
      OneFindingPerKind(byRef[f.ref], FirstStatement(ss, f.ref), f, g);
    }
  }

  // ---- determinism ----

  lemma {:induction false} ArrangementsPermute(a: seq<string>, b: seq<string>, refs: set<string>)
    requires Arranges(a, refs) && Arranges(b, refs)
    ensures multiset(a) == multiset(b)
  {
    forall r ensures multiset(a)[r] == multiset(b)[r] {
      CountOne(a, refs, r);
      CountOne(b, refs, r);
    }
  }

  lemma {:induction false} CountOne(a: seq<string>, refs: set<string>, r: string)
    requires Arranges(a, refs)
    ensures multiset(a)[r] == (if r in refs then 1 else 0)
    decreases |a|
  {
    if a == [] {
      assert r !in a;
    } else {
      var init, l := a[..|a| - 1], a[|a| - 1];
      assert a == init + [l];
      assert l !in init;
      assert Arranges(init, refs - {l}) by {
        forall x ensures x in init <==> x in refs - {l} { assert x in a <==> x in init || x == l; }
      }
      CountOne(init, refs - {l}, r);
    }
  }

  /** The findings in any sorted arrangement, collected in any iteration order, are the same report. */
  lemma ReportIsDeterministic(
      is_: seq<Intent>, ss: seq<Statement>, io: seq<string>, so: seq<string>, jo: seq<string>, to: seq<string>,
      sorted: seq<Finding>, other: seq<Finding>)
    requires Arranges(io, ByRef(is_).Keys) && Arranges(so, StatementRefs(ss))
    requires Arranges(jo, ByRef(is_).Keys) && Arranges(to, StatementRefs(ss))
    requires Sorted(sorted, Earlier) && multiset(sorted) == multiset(Collected(is_, ss, io, so))
    requires Sorted(other, Earlier) && multiset(other) == multiset(Collected(is_, ss, jo, to))
    ensures ReportOf(is_, ss, io, so, sorted) == ReportOf(is_, ss, jo, to, other)
  {
    var byRef := ByRef(is_);
    ArrangementsPermute(io, jo, byRef.Keys);
    ArrangementsPermute(so, to, StatementRefs(ss));
    FlatMapPermuted(io, jo, IntentAt(byRef, ss));
    FlatMapPermuted(so, to, UnexpectedAt(byRef, ss));
    FlatMapPermuted(io, jo, MatchAt(byRef, ss));
    assert |FlatMap(io, MatchAt(byRef, ss))| == |multiset(FlatMap(io, MatchAt(byRef, ss)))|;
    assert |FlatMap(jo, MatchAt(byRef, ss))| == |multiset(FlatMap(jo, MatchAt(byRef, ss)))|;
    EarlierIsOrder();
    CollectedTies(is_, ss, io, so);
    SameMembers(sorted, Collected(is_, ss, io, so));
    SortedUnique(sorted, other, Earlier);
  }

  // ---- when the report is clean ----

  ghost predicate DistinctStatements(ss: seq<Statement>) {
    forall i, j :: 0 <= i < j < |ss| ==> ss[i].ref != ss[j].ref
  }

  /** Statements and intents correspond one to one and agree. */
  ghost predicate Balanced(is_: seq<Intent>, ss: seq<Statement>) {
    && DistinctStatements(ss)
    && (forall i :: i in is_ ==> exists s :: s in ss && s.ref == i.request.externalRef && Agrees(i, s))
    && (forall s :: s in ss ==> exists i :: i in is_ && i.request.externalRef == s.ref)
  }

  lemma {:induction false} NoDuplicatesExactly(ss: seq<Statement>)
    ensures Duplicates(ss) == [] <==> DistinctStatements(ss)
  {
    if ss != [] {
      var init, s := ss[..|ss| - 1], ss[|ss| - 1];
      NoDuplicatesExactly(init);
      if FirstStatement(init, s.ref).Some? {
        var i :| 0 <= i < |init| && init[i] == FirstStatement(init, s.ref).value;
        assert ss[i].ref == ss[|ss| - 1].ref;
      } else {
        assert forall i :: 0 <= i < |init| ==> init[i] in init && ss[i] == init[i];
      }
    }
  }

  lemma NoIntentFindingExactly(i: Intent, st: Option<Statement>)
    ensures IntentFindings(i, st) == [] <==> st.Some? && Agrees(i, st.value)
  {
  }

  lemma {:induction false} ByRefHas(is_: seq<Intent>, i: Intent)
    requires DistinctIntents(is_) && i in is_
    ensures i.request.externalRef in ByRef(is_) && ByRef(is_)[i.request.externalRef] == i
  {
    var init, l := is_[..|is_| - 1], is_[|is_| - 1];
    if i != l {
      var k :| 0 <= k < |init| && init[k] == i;
      assert is_[k].request.externalRef != is_[|is_| - 1].request.externalRef;
      ByRefHas(init, i);
    }
  }

  lemma {:induction false} ByRefCounts(is_: seq<Intent>)
    requires DistinctIntents(is_)
    ensures |ByRef(is_).Keys| == |is_|
  {
    if is_ != [] {
      var init, l := is_[..|is_| - 1], is_[|is_| - 1];
      ByRefCounts(init);
      forall i | i in init ensures i.request.externalRef != l.request.externalRef {
        var k :| 0 <= k < |init| && init[k] == i;
        assert is_[k].request.externalRef != is_[|is_| - 1].request.externalRef;
      }
      if l.request.externalRef in ByRef(init) {
        ByRefKeyed(init, l.request.externalRef);
      }
      assert ByRef(is_).Keys == ByRef(init).Keys + {l.request.externalRef};
    }
  }

  lemma {:induction false} ArrangementCounts(order: seq<string>, refs: set<string>)
    requires Arranges(order, refs)
    ensures |order| == |refs|
    decreases |order|
  {
    if order == [] {
      assert refs == {} by { forall r ensures r !in refs { assert r in order <==> r in refs; } }
    } else {
      var init, l := order[..|order| - 1], order[|order| - 1];
      assert l in refs && l !in init;
      forall x ensures x in init <==> x in refs - {l} { assert x in order <==> x in init || x == l; }
      ArrangementCounts(init, refs - {l});
    }
  }

  lemma {:induction false} AllMatched(order: seq<string>, f: string -> seq<string>)
    requires forall r :: r in order ==> |f(r)| == 1
    ensures |FlatMap(order, f)| == |order|
  {
    if order != [] {
      AllMatched(order[..|order| - 1], f);
    }
  }

  lemma NoFindingsExactly(is_: seq<Intent>, ss: seq<Statement>, io: seq<string>, so: seq<string>)
    requires DistinctIntents(is_) && Arranges(io, ByRef(is_).Keys) && Arranges(so, StatementRefs(ss))
    ensures Collected(is_, ss, io, so) == [] <==> Balanced(is_, ss)
  {
    var byRef := ByRef(is_);
    NoDuplicatesExactly(ss);
    FlatMapEmpty(io, IntentAt(byRef, ss));
    FlatMapEmpty(so, UnexpectedAt(byRef, ss));
    if Collected(is_, ss, io, so) == [] {
      forall i | i in is_ ensures exists s :: s in ss && s.ref == i.request.externalRef && Agrees(i, s) {
        ByRefHas(is_, i);
        var r := i.request.externalRef;
        assert IntentAt(byRef, ss)(r) == [];
        NoIntentFindingExactly(i, FirstStatement(ss, r));
      }
      forall s | s in ss ensures exists i :: i in is_ && i.request.externalRef == s.ref {
        assert s.ref in StatementRefs(ss) && UnexpectedAt(byRef, ss)(s.ref) == [];
        assert FirstStatement(ss, s.ref).Some?;
        ByRefKeyed(is_, s.ref);
      }
    }
    if Balanced(is_, ss) {
      forall r | r in io ensures IntentAt(byRef, ss)(r) == [] {
        ByRefKeyed(is_, r);
        AgreesWithFirst(ss, byRef[r]);
        NoIntentFindingExactly(byRef[r], FirstStatement(ss, r));
      }
      forall r | r in so ensures UnexpectedAt(byRef, ss)(r) == [] {
        var s :| s in ss && s.ref == r;
        var i :| i in is_ && i.request.externalRef == s.ref;
        ByRefHas(is_, i);
      }
    }
  }

  lemma AgreesWithFirst(ss: seq<Statement>, i: Intent)
    requires DistinctStatements(ss) && exists s :: s in ss && s.ref == i.request.externalRef && Agrees(i, s)
    ensures FirstStatement(ss, i.request.externalRef).Some? && Agrees(i, FirstStatement(ss, i.request.externalRef).value)
  {
    var s :| s in ss && s.ref == i.request.externalRef && Agrees(i, s);
    var first := FirstStatement(ss, i.request.externalRef);
    var j :| 0 <= j < |ss| && ss[j] == s;
    var k :| 0 <= k < |ss| && ss[k] == first.value;
    assert !(j < k) && !(k < j);
  }

  /** Without findings every intent is matched, so the count adds nothing to the verdict. */
  lemma CountFollows(is_: seq<Intent>, ss: seq<Statement>, io: seq<string>, so: seq<string>)
    requires DistinctIntents(is_) && Arranges(io, ByRef(is_).Keys) && Arranges(so, StatementRefs(ss))
    requires Collected(is_, ss, io, so) == []
    ensures |FlatMap(io, MatchAt(ByRef(is_), ss))| == |is_|
  {
    var byRef := ByRef(is_);
    FlatMapEmpty(io, IntentAt(byRef, ss));
    forall r | r in io ensures |MatchAt(byRef, ss)(r)| == 1 {
      assert IntentAt(byRef, ss)(r) == [];
      NoIntentFindingExactly(byRef[r], FirstStatement(ss, r));
    }
    AllMatched(io, MatchAt(byRef, ss));
    ArrangementCounts(io, byRef.Keys);
    ByRefCounts(is_);
  }

  /** The verdict is OK exactly when statement references are distinct and statements and intents agree
      one to one on amount, currency and the status an intent that is POSTED or VOIDED should have. */
  lemma OkExactly(is_: seq<Intent>, ss: seq<Statement>, io: seq<string>, so: seq<string>, sorted: seq<Finding>)
    requires Accepted(is_, ss) && Arranges(io, ByRef(is_).Keys) && Arranges(so, StatementRefs(ss))
    requires multiset(sorted) == multiset(Collected(is_, ss, io, so))
    ensures ReportOf(is_, ss, io, so, sorted).reconciliationOk <==> Balanced(is_, ss)
  {
    NoFindingsExactly(is_, ss, io, so);
    assert |sorted| == |multiset(sorted)| == |multiset(Collected(is_, ss, io, so))| == |Collected(is_, ss, io, so)|;
    if sorted == [] {
      CountFollows(is_, ss, io, so);
    }
  }
}
