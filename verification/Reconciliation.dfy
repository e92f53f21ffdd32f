/** The provider-statement report (internal/reconciliation/reconciliation.go): intents against statement
    entries by external reference, with map iteration in any order and an unstable sort. */
module Reconciliation {
  import opened Wrappers
  import opened Intents
  import opened Sorting
  import Text

  const SETTLED := "SETTLED"
  const VOIDED := "VOIDED"

  datatype Statement = Statement(ref: string, providerRef: string, amount: nat, currency: string, status: string)

  datatype Kind = MissingStatement | UnexpectedEntry | DuplicateStatement | StatusMismatch | AmountMismatch | CurrencyMismatch

  /** The variable parts of a finding's text. */
  datatype Detail =
    | Fixed | NotReconcilable(state: State) | Statuses(wanted: string, received: string)
    | Amounts(wantedAmount: nat, receivedAmount: nat) | Currencies(wantedCurrency: string, receivedCurrency: string)

  datatype Finding = Finding(kind: Kind, ref: string, intentId: string, providerRef: string, detail: Detail)

  datatype Report = Report(intentsExamined: nat, statementsSeen: nat, matched: nat, findings: seq<Finding>, reconciliationOk: bool)

  datatype Failure = EmptyInputs | InvalidIntent | DuplicateIntent | MissingField | UnsupportedStatus

  function KindText(k: Kind): string {
    match k
    case MissingStatement => "MISSING_STATEMENT"
    case UnexpectedEntry => "UNEXPECTED_ENTRY"
    case DuplicateStatement => "DUPLICATE_STATEMENT"
    case StatusMismatch => "STATUS_MISMATCH"
    case AmountMismatch => "AMOUNT_MISMATCH"
    case CurrencyMismatch => "CURRENCY_MISMATCH"
  }

  predicate Earlier(a: Finding, b: Finding) {
    if a.ref == b.ref then Text.Less(KindText(a.kind), KindText(b.kind)) else Text.Less(a.ref, b.ref)
  }

  // ---- what each entry contributes ----

  function FirstStatement(ss: seq<Statement>, ref: string): (r: Option<Statement>)
    ensures r.Some? ==> r.value in ss && r.value.ref == ref
    ensures r.None? ==> forall s :: s in ss ==> s.ref != ref
  {
    if ss == [] then None
    else
      var earlier := FirstStatement(ss[..|ss| - 1], ref);
      if earlier.Some? then earlier
      else if ss[|ss| - 1].ref == ref then Some(ss[|ss| - 1])
      else None
  }

  function Duplicates(ss: seq<Statement>): seq<Finding> {
    if ss == [] then []
    else
      var init, s := ss[..|ss| - 1], ss[|ss| - 1];
      Duplicates(init)
      + (if FirstStatement(init, s.ref).Some? then [Finding(DuplicateStatement, s.ref, "", "", Fixed)] else [])
  }

  function WantedStatus(i: Intent): string { if i.state.Voided? then VOIDED else SETTLED }

  /** The findings of one intent against the first statement under its reference. */
  function IntentFindings(i: Intent, statement: Option<Statement>): seq<Finding> {
    var ref, id := i.request.externalRef, i.request.intentId;
    if statement.None? then [Finding(MissingStatement, ref, id, "", Fixed)]
    else
      var s := statement.value;
      (if !Terminal(i.state) then [Finding(StatusMismatch, ref, id, s.providerRef, NotReconcilable(i.state))]
       else if s.status != WantedStatus(i) then [Finding(StatusMismatch, ref, id, s.providerRef, Statuses(WantedStatus(i), s.status))]
       else [])
      + (if s.amount != i.request.amount then [Finding(AmountMismatch, ref, id, s.providerRef, Amounts(i.request.amount, s.amount))] else [])
      + (if s.currency != i.request.currency then [Finding(CurrencyMismatch, ref, id, s.providerRef, Currencies(i.request.currency, s.currency))] else [])
  }

  predicate Agrees(i: Intent, s: Statement) {
    Terminal(i.state) && s.amount == i.request.amount && s.currency == i.request.currency && s.status == WantedStatus(i)
  }

  /** What the intent under a reference contributes to the findings. */
  function IntentAt(byRef: map<string, Intent>, ss: seq<Statement>): string -> seq<Finding> {
    r => if r in byRef then IntentFindings(byRef[r], FirstStatement(ss, r)) else []
  }

  function UnexpectedAt(byRef: map<string, Intent>, ss: seq<Statement>): string -> seq<Finding> {
    r => if r !in byRef && FirstStatement(ss, r).Some?
         then [Finding(UnexpectedEntry, r, "", FirstStatement(ss, r).value.providerRef, Fixed)] else []
  }

  function MatchAt(byRef: map<string, Intent>, ss: seq<Statement>): string -> seq<string> {
    r => if r in byRef && FirstStatement(ss, r).Some? && Agrees(byRef[r], FirstStatement(ss, r).value) then [r] else []
  }

  function ByRef(is_: seq<Intent>): map<string, Intent> {
    if is_ == [] then map[] else ByRef(is_[..|is_| - 1])[is_[|is_| - 1].request.externalRef := is_[|is_| - 1]]
  }

  function StatementRefs(ss: seq<Statement>): set<string> { set s | s in ss :: s.ref }

  // ---- the report ----

  predicate ValidIntents(is_: seq<Intent>) { forall i :: i in is_ ==> ValidRequest(i.request) }

  predicate DistinctIntents(is_: seq<Intent>) {
    forall i, j :: 0 <= i < j < |is_| ==> is_[i].request.externalRef != is_[j].request.externalRef
  }

  predicate CompleteStatement(s: Statement) { s.ref != "" && s.providerRef != "" && s.amount != 0 && s.currency != "" }

  predicate ValidStatement(s: Statement) { CompleteStatement(s) && (s.status == SETTLED || s.status == VOIDED) }

  predicate Accepted(is_: seq<Intent>, ss: seq<Statement>) {
    (is_ != [] || ss != []) && ValidIntents(is_) && DistinctIntents(is_) && forall s :: s in ss ==> ValidStatement(s)
  }

  /** Some order of a set: how a Go map is iterated. */
  ghost predicate Arranges(order: seq<string>, refs: set<string>) {
    (forall r :: r in order <==> r in refs) && forall i, j :: 0 <= i < j < |order| ==> order[i] != order[j]
  }

  /** The findings before sorting, for some iteration orders of the two maps. */
  function Collected(is_: seq<Intent>, ss: seq<Statement>, intentOrder: seq<string>, statementOrder: seq<string>): seq<Finding> {
    Duplicates(ss) + FlatMap(intentOrder, IntentAt(ByRef(is_), ss)) + FlatMap(statementOrder, UnexpectedAt(ByRef(is_), ss))
  }

  function ReportOf(is_: seq<Intent>, ss: seq<Statement>, intentOrder: seq<string>, statementOrder: seq<string>, findings: seq<Finding>): Report {
    var matched := |FlatMap(intentOrder, MatchAt(ByRef(is_), ss))|;
    Report(|is_|, |ss|, matched, findings, findings == [] && matched == |is_|)
  }

  // ---- the report as it is computed ----

  method AnyOrder(refs: set<string>) returns (order: seq<string>)
    ensures Arranges(order, refs)
  {
    order := [];
    var left := refs;
    while left != {}
      invariant left <= refs && Arranges(order, refs - left)
      decreases |left|
    {
      var r :| r in left;
      order := order + [r];
      left := left - {r};
    }
  }

  predicate HasRef(is_: seq<Intent>, ref: string) { exists i :: i in is_ && i.request.externalRef == ref }

  lemma DistinctSnoc(is_: seq<Intent>, i: Intent)
    ensures DistinctIntents(is_ + [i]) <==> DistinctIntents(is_) && !HasRef(is_, i.request.externalRef)
  {
    var all := is_ + [i];
    assert forall j, k :: 0 <= j < k < |is_| ==> all[j] == is_[j] && all[k] == is_[k];
    assert all[|is_|] == i;
    if DistinctIntents(all) {
      forall x | x in is_ ensures x.request.externalRef != i.request.externalRef {
        var j :| 0 <= j < |is_| && is_[j] == x;
        assert all[j].request.externalRef != all[|is_|].request.externalRef;
      }
    }
    assert forall j :: 0 <= j < |is_| ==> is_[j] in is_;
  }

  lemma ValidSnoc(is_: seq<Intent>, i: Intent)
    ensures ValidIntents(is_ + [i]) <==> ValidIntents(is_) && ValidRequest(i.request)
    ensures forall ref :: HasRef(is_ + [i], ref) <==> HasRef(is_, ref) || i.request.externalRef == ref
  {
    assert forall x :: x in is_ + [i] <==> x in is_ || x == i;
  }

  /** An invalid or repeated intent among the first ones spoils all of them. */
  lemma PrefixSpoils(is_: seq<Intent>, k: nat)
    requires k <= |is_|
    ensures ValidIntents(is_) ==> ValidIntents(is_[..k])
    ensures DistinctIntents(is_) ==> DistinctIntents(is_[..k])
  {
    assert forall x :: x in is_[..k] ==> x in is_;
    assert forall j :: 0 <= j < k ==> is_[..k][j] == is_[j];
  }

  method IndexIntents(is_: seq<Intent>) returns (r: Result<map<string, Intent>, Failure>)
    ensures r.Ok? <==> ValidIntents(is_) && DistinctIntents(is_)
    ensures r.Ok? ==> r.value == ByRef(is_)
  {
    var byRef := map[];
    for k := 0 to |is_|
      invariant byRef == ByRef(is_[..k]) && ValidIntents(is_[..k]) && DistinctIntents(is_[..k])
      invariant forall ref :: ref in byRef <==> HasRef(is_[..k], ref)
    {
      var i := is_[k];
      assert is_[..k + 1] == is_[..k] + [i] && is_[..k + 1][..k] == is_[..k];
      ValidSnoc(is_[..k], i);
      DistinctSnoc(is_[..k], i);
      PrefixSpoils(is_, k + 1);
      if !ValidRequest(i.request) {
        return Err(InvalidIntent);
      }
      if i.request.externalRef in byRef {
        return Err(DuplicateIntent);
      }
      byRef := byRef[i.request.externalRef := i];
    }
    assert is_[..|is_|] == is_;
    r := Ok(byRef);
  }

  method IndexStatements(ss: seq<Statement>) returns (r: Result<(map<string, Statement>, seq<Finding>), Failure>)
    ensures r.Ok? <==> forall s :: s in ss ==> ValidStatement(s)
    ensures r.Ok? ==> r.value.1 == Duplicates(ss)
    ensures r.Ok? ==> forall ref :: (ref in r.value.0 <==> FirstStatement(ss, ref).Some?)
                                    && (ref in r.value.0 ==> FirstStatement(ss, ref) == Some(r.value.0[ref]))
  {
    var byRef: map<string, Statement>, findings: seq<Finding> := map[], [];
    for k := 0 to |ss|
      invariant forall s :: s in ss[..k] ==> ValidStatement(s)
      invariant findings == Duplicates(ss[..k])
      invariant forall ref :: (ref in byRef <==> FirstStatement(ss[..k], ref).Some?)
                              && (ref in byRef ==> FirstStatement(ss[..k], ref) == Some(byRef[ref]))
    {
      assert ss[..k + 1][..k] == ss[..k];
      var s := ss[k];
      assert s in ss;
      if !CompleteStatement(s) {
        return Err(MissingField);
      }
      if s.status != SETTLED && s.status != VOIDED {
        return Err(UnsupportedStatus);
      }
      if s.ref in byRef {
        findings := findings + [Finding(DuplicateStatement, s.ref, "", "", Fixed)];
      } else {
        byRef := byRef[s.ref := s];
      }
    }
    assert ss[..|ss|] == ss;
    r := Ok((byRef, findings));
  }

  method CollectIntents(byRef: map<string, Intent>, statements: map<string, Statement>, order: seq<string>, ghost ss: seq<Statement>)
    returns (findings: seq<Finding>, matched: nat)
    requires forall r :: r in order ==> r in byRef
    requires forall ref :: (ref in statements <==> FirstStatement(ss, ref).Some?)
                           && (ref in statements ==> FirstStatement(ss, ref) == Some(statements[ref]))
    ensures findings == FlatMap(order, IntentAt(byRef, ss)) && matched == |FlatMap(order, MatchAt(byRef, ss))|
  {
    findings, matched := [], 0;
    for k := 0 to |order|
      invariant findings == FlatMap(order[..k], IntentAt(byRef, ss)) && matched == |FlatMap(order[..k], MatchAt(byRef, ss))|
    {
      assert order[..k + 1][..k] == order[..k];
      var r := order[k];
      assert r in byRef;
      var statement := if r in statements then Some(statements[r]) else None;
      findings := findings + IntentFindings(byRef[r], statement);
      if statement.Some? && Agrees(byRef[r], statement.value) {
        matched := matched + 1;
      }
    }
    assert order[..|order|] == order;
  }

  method CollectUnexpected(byRef: map<string, Intent>, statements: map<string, Statement>, order: seq<string>, ghost ss: seq<Statement>)
    returns (findings: seq<Finding>)
    requires forall r :: r in order ==> r in statements
    requires forall ref :: (ref in statements <==> FirstStatement(ss, ref).Some?)
                           && (ref in statements ==> FirstStatement(ss, ref) == Some(statements[ref]))
    ensures findings == FlatMap(order, UnexpectedAt(byRef, ss))
  {
    findings := [];
    for k := 0 to |order|
      invariant findings == FlatMap(order[..k], UnexpectedAt(byRef, ss))
    {
      assert order[..k + 1][..k] == order[..k];
      var r := order[k];
      assert r in statements;
      if r !in byRef {
        findings := findings + [Finding(UnexpectedEntry, r, "", statements[r].providerRef, Fixed)];
      }
    }
    assert order[..|order|] == order;
  }

  /** The report, for whatever iteration orders the two maps happen to have. */
  method Reconcile(is_: seq<Intent>, ss: seq<Statement>)
    returns (r: Result<Report, Failure>, ghost intentOrder: seq<string>, ghost statementOrder: seq<string>)
    ensures r.Ok? <==> Accepted(is_, ss)
    ensures r.Ok? ==> Arranges(intentOrder, ByRef(is_).Keys) && Arranges(statementOrder, StatementRefs(ss))
    ensures r.Ok? ==> r.value == ReportOf(is_, ss, intentOrder, statementOrder,
                                          Sort(Collected(is_, ss, intentOrder, statementOrder), Earlier))
  {
    intentOrder, statementOrder := [], [];
    if is_ == [] && ss == [] {
      return Err(EmptyInputs), [], [];
    }
    var intents := IndexIntents(is_);
    if intents.Err? {
      return Err(intents.error), [], [];
    }
    var statements := IndexStatements(ss);
    if statements.Err? {
      return Err(statements.error), [], [];
    }
    var byRef, byStatementRef := intents.value, statements.value.0;
    var order := AnyOrder(byRef.Keys);
    var found, matched := CollectIntents(byRef, byStatementRef, order, ss);
    KeysAreRefs(ss, byStatementRef);
    var entries := AnyOrder(byStatementRef.Keys);
    var unexpected := CollectUnexpected(byRef, byStatementRef, entries, ss);
    var findings := SortSlice(statements.value.1 + found + unexpected, Earlier);
    intentOrder, statementOrder := order, entries;
    r := Ok(Report(|is_|, |ss|, matched, findings, findings == [] && matched == |is_|));
  }

  lemma KeysAreRefs(ss: seq<Statement>, statements: map<string, Statement>)
    requires forall ref :: ref in statements <==> FirstStatement(ss, ref).Some?
    ensures statements.Keys == StatementRefs(ss)
  {
    forall ref ensures ref in statements <==> ref in StatementRefs(ss) {
      if ref in StatementRefs(ss) {
        var s :| s in ss && s.ref == ref;
      }
    }
  }
}
