/** The provider report over its input records: exactly which findings it has, in which order, and what it counts. */
module ReconciliationFindings {
  import opened Wrappers
  import opened Intents
  import opened Sorting
  import opened Reconciliation
  import opened ReconciliationTheorems
  import Text

  /** The first statement under a reference. */
  ghost predicate FirstFor(ss: seq<Statement>, ref: string, s: Statement) {
    exists k :: 0 <= k < |ss| && ss[k] == s && s.ref == ref && forall j :: 0 <= j < k ==> ss[j].ref != ref
  }

  lemma {:induction false} FirstStatementIs(ss: seq<Statement>, ref: string, s: Statement)
    ensures FirstStatement(ss, ref) == Some(s) <==> FirstFor(ss, ref, s)
  {
    if ss != [] {
      var init, last := ss[..|ss| - 1], ss[|ss| - 1];
      FirstStatementIs(init, ref, s);
      if FirstStatement(ss, ref) == Some(s) {
        if FirstStatement(init, ref).Some? {
          var k :| 0 <= k < |init| && init[k] == s && s.ref == ref && forall j :: 0 <= j < k ==> init[j].ref != ref;
          assert ss[k] == s && forall j :: 0 <= j < k ==> ss[j] == init[j];
        } else {
          assert forall j :: 0 <= j < |init| ==> ss[j] == init[j] && init[j] in init;
          assert ss[|ss| - 1] == s;
        }
      }
      if FirstFor(ss, ref, s) {
        var k :| 0 <= k < |ss| && ss[k] == s && s.ref == ref && forall j :: 0 <= j < k ==> ss[j].ref != ref;
        if k < |init| {
          assert init[k] == s && forall j :: 0 <= j < k ==> init[j] == ss[j];
        } else {
          assert forall j :: 0 <= j < |init| ==> init[j].ref != ref;
        }
      }
    }
  }

  // ---- the input ----

  /** A report is made exactly when there is something to compare, every intent is a valid request, no two intents
      share a reference, and every statement has its references, an amount, a currency and a final status. */
  lemma AcceptsExactly(is_: seq<Intent>, ss: seq<Statement>)
    ensures Accepted(is_, ss) <==>
            && (is_ != [] || ss != []) && (forall i :: i in is_ ==> ValidRequest(i.request))
            && (forall j, k :: 0 <= j < |is_| && 0 <= k < |is_| && is_[j].request.externalRef == is_[k].request.externalRef ==> j == k)
            && forall s :: s in ss ==> "" !in {s.ref, s.providerRef, s.currency} && s.amount > 0 && s.status in {"SETTLED", "VOIDED"}
  {
    if Accepted(is_, ss) {
      forall j, k | 0 <= j < |is_| && 0 <= k < |is_| && is_[j].request.externalRef == is_[k].request.externalRef ensures j == k {
      }
    }
  }

  // ---- the findings ----

  /** The status a closed intent's statement must have. */
  predicate RightStatus(i: Intent, s: Statement) {
    (i.state == Posted && s.status == "SETTLED") || (i.state == State.Voided && s.status == "VOIDED")
  }

  /** What an intent's first statement may be reproached with. */
  predicate StatementRaises(i: Intent, s: Statement, f: Finding) {
    && f.ref == i.request.externalRef && f.intentId == i.request.intentId && f.providerRef == s.providerRef
    && (|| (f.kind == StatusMismatch && !RightStatus(i, s)
            && f.detail == (if i.state == Posted then Statuses("SETTLED", s.status)
                            else if i.state == State.Voided then Statuses("VOIDED", s.status)
                            else NotReconcilable(i.state)))
        || (f.kind == AmountMismatch && s.amount != i.request.amount && f.detail == Amounts(i.request.amount, s.amount))
        || (f.kind == CurrencyMismatch && s.currency != i.request.currency
            && f.detail == Currencies(i.request.currency, s.currency)))
  }

  ghost predicate IntentRaises(ss: seq<Statement>, i: Intent, f: Finding) {
    || ((forall s :: s in ss ==> s.ref != i.request.externalRef)
        && f == Finding(MissingStatement, i.request.externalRef, i.request.intentId, "", Fixed))
    || exists s :: FirstFor(ss, i.request.externalRef, s) && StatementRaises(i, s, f)
  }

  ghost predicate Repeats(ss: seq<Statement>, f: Finding) {
    exists j, k :: 0 <= j < k < |ss| && ss[j].ref == ss[k].ref && f == Finding(DuplicateStatement, ss[k].ref, "", "", Fixed)
  }

  ghost predicate Strays(is_: seq<Intent>, ss: seq<Statement>, s: Statement, f: Finding) {
    && FirstFor(ss, s.ref, s) && (forall i :: i in is_ ==> i.request.externalRef != s.ref)
    && f == Finding(UnexpectedEntry, s.ref, "", s.providerRef, Fixed)
  }

  lemma IntentFindingsExactly(ss: seq<Statement>, i: Intent, f: Finding)
    ensures f in IntentFindings(i, FirstStatement(ss, i.request.externalRef)) <==> IntentRaises(ss, i, f)
  {
    var first := FirstStatement(ss, i.request.externalRef);
    if first.Some? {
      FirstStatementIs(ss, i.request.externalRef, first.value);
      assert first.value in ss;
      FromFirst(i, first.value, f);
    }
    if s :| FirstFor(ss, i.request.externalRef, s) && StatementRaises(i, s, f) {
      FirstStatementIs(ss, i.request.externalRef, s);
      FromFirst(i, s, f);
    }
  }

  lemma FromFirst(i: Intent, s: Statement, f: Finding)
    requires s.ref == i.request.externalRef
    ensures f in IntentFindings(i, Some(s)) <==> StatementRaises(i, s, f)
  {
  }

  lemma {:induction false} DuplicatesExactly(ss: seq<Statement>, f: Finding)
    ensures f in Duplicates(ss) <==> Repeats(ss, f)
  {
    if ss != [] {
      var init, last := ss[..|ss| - 1], ss[|ss| - 1];
      DuplicatesExactly(init, f);
      assert forall j :: 0 <= j < |init| ==> init[j] == ss[j];
      if FirstStatement(init, last.ref).Some? {
        var j :| 0 <= j < |init| && init[j] == FirstStatement(init, last.ref).value;
        assert ss[j].ref == ss[|ss| - 1].ref;
      } else {
        assert forall j :: 0 <= j < |init| ==> init[j].ref != last.ref;
      }
      if Repeats(ss, f) {
        var j, k :| 0 <= j < k < |ss| && ss[j].ref == ss[k].ref && f == Finding(DuplicateStatement, ss[k].ref, "", "", Fixed);
        if k < |init| {
          assert init[j].ref == init[k].ref;
        } else {
          assert init[j] in init;
        }
      }
    }
  }

  lemma {:induction false} InFlatMap<T, U>(xs: seq<T>, f: T -> seq<U>, x: T, y: U)
    requires x in xs && y in f(x)
    ensures y in FlatMap(xs, f)
  {
    if x != xs[|xs| - 1] {
      InFlatMap(xs[..|xs| - 1], f, x, y);
    }
  }

  lemma FromIntents(is_: seq<Intent>, ss: seq<Statement>, io: seq<string>, f: Finding)
    requires DistinctIntents(is_) && Arranges(io, ByRef(is_).Keys)
    ensures f in FlatMap(io, IntentAt(ByRef(is_), ss)) <==> exists i :: i in is_ && IntentRaises(ss, i, f)
  {
    var byRef := ByRef(is_);
    if f in FlatMap(io, IntentAt(byRef, ss)) {
      var r := FlatMapFrom(io, IntentAt(byRef, ss), f);
      ByRefKeyed(is_, r);
      IntentFindingsExactly(ss, byRef[r], f);
    }
    if i :| i in is_ && IntentRaises(ss, i, f) {
      ByRefHas(is_, i);
      IntentFindingsExactly(ss, i, f);
      InFlatMap(io, IntentAt(byRef, ss), i.request.externalRef, f);
    }
  }

  lemma {:induction false} InByRef(is_: seq<Intent>, ref: string)
    ensures ref in ByRef(is_) <==> exists i :: i in is_ && i.request.externalRef == ref
  {
    if is_ != [] {
      var init, last := is_[..|is_| - 1], is_[|is_| - 1];
      InByRef(init, ref);
      assert last in is_ && forall i :: i in is_ <==> i in init || i == last;
    }
  }

  lemma FromStatements(is_: seq<Intent>, ss: seq<Statement>, so: seq<string>, f: Finding)
    requires Arranges(so, StatementRefs(ss))
    ensures f in FlatMap(so, UnexpectedAt(ByRef(is_), ss)) <==> exists s :: s in ss && Strays(is_, ss, s, f)
  {
    var byRef := ByRef(is_);
    if f in FlatMap(so, UnexpectedAt(byRef, ss)) {
      var r := FlatMapFrom(so, UnexpectedAt(byRef, ss), f);
      var s := FirstStatement(ss, r).value;
      FirstStatementIs(ss, r, s);
      InByRef(is_, r);
      assert s in ss && Strays(is_, ss, s, f);
    }
    if s :| s in ss && Strays(is_, ss, s, f) {
      FirstStatementIs(ss, s.ref, s);
      InByRef(is_, s.ref);
      assert s.ref in StatementRefs(ss);
      InFlatMap(so, UnexpectedAt(byRef, ss), s.ref, f);
    }
  }

  /** A report names an intent without a statement, an intent whose first statement has the wrong status, amount or
      currency, each repeated reference, and each first statement without an intent, with these details and nothing
      else. */
  lemma FindingsExactly(is_: seq<Intent>, ss: seq<Statement>, io: seq<string>, so: seq<string>, sorted: seq<Finding>, f: Finding)
    requires DistinctIntents(is_) && Arranges(io, ByRef(is_).Keys) && Arranges(so, StatementRefs(ss))
    requires multiset(sorted) == multiset(Collected(is_, ss, io, so))
    ensures f in ReportOf(is_, ss, io, so, sorted).findings <==>
            (exists i :: i in is_ && IntentRaises(ss, i, f)) || Repeats(ss, f) || (exists s :: s in ss && Strays(is_, ss, s, f))
  {
    SameMembers(sorted, Collected(is_, ss, io, so));
    DuplicatesExactly(ss, f);
    FromIntents(is_, ss, io, f);
    FromStatements(is_, ss, so, f);
  }

  // ---- the order ----

  /** Findings ascend by reference, and by the text of their kind under one reference. */
  lemma FindingsAscend(fs: seq<Finding>)
    ensures var r := Sort(fs, Earlier);
            forall i, j :: 0 <= i < j < |r| ==>
              Text.Precedes(r[i].ref, r[j].ref)
              || (r[i].ref == r[j].ref && !Text.Precedes(KindText(r[j].kind), KindText(r[i].kind)))
  {
    EarlierIsOrder();
    SortSorts(fs, Earlier);
    var r := Sort(fs, Earlier);
    forall i, j | 0 <= i < j < |r|
      ensures Text.Precedes(r[i].ref, r[j].ref)
              || (r[i].ref == r[j].ref && !Text.Precedes(KindText(r[j].kind), KindText(r[i].kind)))
    {
      assert !Earlier(r[j], r[i]);
      Text.LessTotal(r[i].ref, r[j].ref);
      Text.LessIsFirstDifference(r[i].ref, r[j].ref);
      Text.LessIsFirstDifference(KindText(r[j].kind), KindText(r[i].kind));
    }
  }

  // ---- the count ----

  /** The intent is closed and its first statement has its status, amount and currency. */
  ghost predicate Confirmed(ss: seq<Statement>, i: Intent) {
    exists s :: FirstFor(ss, i.request.externalRef, s) && RightStatus(i, s)
                && s.amount == i.request.amount && s.currency == i.request.currency
  }

  lemma ConfirmedIs(ss: seq<Statement>, i: Intent)
    ensures Confirmed(ss, i) <==>
            FirstStatement(ss, i.request.externalRef).Some? && Agrees(i, FirstStatement(ss, i.request.externalRef).value)
  {
    var first := FirstStatement(ss, i.request.externalRef);
    if first.Some? {
      FirstStatementIs(ss, i.request.externalRef, first.value);
    }
    if s :| FirstFor(ss, i.request.externalRef, s) && RightStatus(i, s)
            && s.amount == i.request.amount && s.currency == i.request.currency {
      FirstStatementIs(ss, i.request.externalRef, s);
    }
  }

  lemma {:induction false} CountDistinct(order: seq<string>, f: string -> seq<string>, refs: set<string>, hits: set<string>)
    requires Arranges(order, refs) && hits <= refs
    requires forall r :: r in refs ==> f(r) == (if r in hits then [r] else [])
    ensures |FlatMap(order, f)| == |hits|
    decreases |order|
  {
    if order == [] {
      assert hits == {} by {
        forall r ensures r !in hits { assert r in order <==> r in refs; }
      }
    } else {
      var init, l := order[..|order| - 1], order[|order| - 1];
      assert l in refs && l !in init;
      forall x ensures x in init <==> x in refs - {l} { assert x in order <==> x in init || x == l; }
      CountDistinct(init, f, refs - {l}, hits - {l});
      if l in hits {
        assert |hits| == |hits - {l}| + 1;
      } else {
        assert hits - {l} == hits;
      }
    }
  }

  /** The matched count is the number of references, one for each intent, whose intent is confirmed. */
  lemma MatchedCounts(is_: seq<Intent>, ss: seq<Statement>, io: seq<string>, so: seq<string>, sorted: seq<Finding>)
    requires DistinctIntents(is_) && Arranges(io, ByRef(is_).Keys)
    ensures ReportOf(is_, ss, io, so, sorted).matched
            == |set i | i in is_ && Confirmed(ss, i) :: i.request.externalRef|
  {
    var byRef := ByRef(is_);
    var hits := set i | i in is_ && Confirmed(ss, i) :: i.request.externalRef;
    forall r | r in byRef ensures MatchAt(byRef, ss)(r) == (if r in hits then [r] else []) {
      ByRefKeyed(is_, r);
      ConfirmedIs(ss, byRef[r]);
      if r in hits {
        var i :| i in is_ && Confirmed(ss, i) && i.request.externalRef == r;
        ByRefHas(is_, i);
      }
    }
    forall r | r in hits ensures r in byRef.Keys {
      InByRef(is_, r);
    }
    CountDistinct(io, MatchAt(byRef, ss), byRef.Keys, hits);
  }
}
