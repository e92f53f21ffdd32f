/** Every run of one application through the CVFF store (internal/cvff/store.go): calls read the row and
    the role holders, and write under a state and version guard; the workflow or an officer resolves
    parked applications. */
module CvffRuns {
  import opened Wrappers
  import opened Cvff
  import Text

  /** What a call is about to write, having read the row at a version. */
  datatype Pending = Pending(state: State, version: nat, next: State, approval: Option<Approval>, resumes: bool)

  /** `parked` is where the application was when it last entered RECONCILIATION_REQUIRED; no call reads it. */
  datatype World = World(
    state: State, version: nat, roles: map<Role, string>, approvals: seq<Approval>, calls: seq<Pending>, parked: State)

  /** Roles are bound when the application is submitted or later by an officer who holds none of them. */
  datatype Step =
    | AssignRoles(assigner: Option<string>, roles: map<Role, string>)
    | Decide(principal: string, decision: Decision)
    | Begin
    | Audit
    | Park
    | Resolve(officer: string, resolution: Resolution, target: State)
    | Commit(k: nat)
    | Drop(k: nat)

  predicate Enabled(w: World, s: Step) {
    match s
    case AssignRoles(assigner, roles) =>
      && ValidAssignments(roles) && !Terminal(w.state) && w.roles == map[]
      && (if assigner.None? then w.state == Submitted && w.version == 1 else forall r :: r in roles ==> roles[r] != assigner.value)
    case Decide(principal, d) => w.roles != map[] && ApplyDecision(w.state, w.roles, principal, d).Ok?
    case Begin => BeginUnderwriting(w.state).Ok?
    case Audit => MarkAudited(w.state).Ok?
    case Park => RequireReconciliation(w.state).Ok?
    case Resolve(officer, r, target) =>
      && Text.Canonical(officer) && (forall q :: q in w.roles ==> w.roles[q] != officer)
      && ResolveReconciliationTo(w.state, r, target).Ok?
    case Commit(k) => k < |w.calls|
    case Drop(k) => k < |w.calls|
  }

  function Without(cs: seq<Pending>, k: nat): seq<Pending>
    requires k < |cs|
  {
    cs[..k] + cs[k + 1..]
  }

  function Read(w: World, next: State, approval: Option<Approval>, resumes: bool): World {
    w.(calls := w.calls + [Pending(w.state, w.version, next, approval, resumes)])
  }

  /** The guarded update; a call whose row has moved on is a conflict and writes nothing. */
  function Written(w: World, c: Pending): World {
    if c.state != w.state || c.version != w.version then w
    else w.(state := c.next, version := w.version + 1,
            approvals := w.approvals + (if c.approval.Some? then [c.approval.value] else []),
            parked := if c.next == ReconciliationRequired && w.state != ReconciliationRequired then w.state else w.parked)
  }

  function Apply(w: World, s: Step): World
    requires Enabled(w, s)
  {
    match s
    case AssignRoles(_, roles) => w.(roles := roles)
    case Decide(principal, d) =>
      var a := ApplyDecision(w.state, w.roles, principal, d).value;
      Read(w, a.toState, Some(a), false)
    case Begin => Read(w, UnderwritingPrimary, None, false)
    case Audit => Read(w, Audited, None, false)
    case Park => Read(w, ReconciliationRequired, None, false)
    case Resolve(_, r, target) => Read(w, ResolveReconciliationTo(w.state, r, target).value, None, r.ResumeDisbursement?)
    case Commit(k) => Written(w.(calls := Without(w.calls, k)), w.calls[k])
    case Drop(k) => w.(calls := Without(w.calls, k))
  }

  /** The hypothesis on the caller that supplies the resume target: a resume that takes effect returns the
      application to where it was parked. */
  predicate ResumesFaithfully(w: World, s: Step) {
    s.Commit? && s.k < |w.calls| && w.calls[s.k].resumes && w.calls[s.k].state == w.state && w.calls[s.k].version == w.version
    ==> w.calls[s.k].next == w.parked
  }

  ghost predicate Moves(w: World, w': World) {
    exists s :: Enabled(w, s) && Apply(w, s) == w'
  }

  ghost predicate MovesFaithfully(w: World, w': World) {
    exists s :: Enabled(w, s) && ResumesFaithfully(w, s) && Apply(w, s) == w'
  }

  const START := World(Submitted, 1, map[], [], [], Submitted)

  ghost predicate Run(ws: seq<World>) {
    ws != [] && ws[0] == START && forall i :: 0 <= i < |ws| - 1 ==> Moves(ws[i], ws[i + 1])
  }

  ghost predicate FaithfulRun(ws: seq<World>) {
    ws != [] && ws[0] == START && forall i :: 0 <= i < |ws| - 1 ==> MovesFaithfully(ws[i], ws[i + 1])
  }

  // ---- how much of the chain has approved ----

  predicate Approves(a: Approval, role: Role, roles: map<Role, string>) {
    a.decision.Approve? && a.role == role && role in roles && a.principal == roles[role]
  }

  /** How many chain roles approved in order. */
  function Collected(approvals: seq<Approval>, roles: map<Role, string>): (n: nat)
    ensures n <= |CHAIN|
  {
    if approvals == [] then 0
    else
      var n := Collected(approvals[..|approvals| - 1], roles);
      if n < |CHAIN| && Approves(approvals[|approvals| - 1], CHAIN[n], roles) then n + 1 else n
  }

  /** The in-order approvals by their positions in the audit trail. */
  lemma {:induction false} CollectedInOrder(approvals: seq<Approval>, roles: map<Role, string>) returns (at: seq<nat>)
    ensures |at| == Collected(approvals, roles)
    ensures forall i :: 0 <= i < |at| ==> at[i] < |approvals| && Approves(approvals[at[i]], CHAIN[i], roles)
    ensures forall i, j :: 0 <= i < j < |at| ==> at[i] < at[j]
  {
    if approvals == [] {
      at := [];
    } else {
      at := CollectedInOrder(approvals[..|approvals| - 1], roles);
      if Collected(approvals, roles) > |at| {
        at := at + [|approvals| - 1];
      }
    }
  }

  /** How many approvals a state stands for. */
  function Stage(s: State): nat {
    match s
    case UnderwritingSecondary => 1
    case UnderwritingTertiary => 2
    case NimasaApproval => 3
    case BankConfirmation => 4
    case DisbursementPending => 5
    case Disbursed => 6
    case Audited => 6
    case _ => 0
  }

  lemma StageRole(s: State)
    requires RequiredRole(s).Some?
    ensures Stage(s) < |CHAIN| && CHAIN[Stage(s)] == RequiredRole(s).value && Stage(ApprovedSuccessor(s).value) == Stage(s) + 1
  {
  }

  // ---- the invariant ----

  /** A pending write is a move the state machine allows from the state that was read. */
  ghost predicate CallOk(w: World, c: Pending) {
    && c.version <= w.version && !Terminal(c.state) && (c.version == w.version ==> c.state == w.state)
    && (c.resumes ==> Resumable(c.next))
    && (c.approval.Some? ==>
          var a := c.approval.value;
          w.roles != map[] && RequiredRole(c.state) == Some(a.role) && a.role in w.roles && a.principal == w.roles[a.role]
          && !c.resumes && c.next == (if a.decision.Reject? then Rejected else ApprovedSuccessor(c.state).value))
    && (c.approval.None? ==>
          || (c.next == UnderwritingPrimary && c.state == Submitted && !c.resumes)
          || (c.next == Audited && c.state == Disbursed && !c.resumes)
          || (c.next == ReconciliationRequired && !c.resumes)
          || (c.state == ReconciliationRequired && (c.resumes || c.next == Rejected)))
  }

  function Effective(w: World): State { if w.state == ReconciliationRequired then w.parked else w.state }

  /** What holds whatever targets resumes are given. */
  ghost predicate Base(w: World) {
    && (w.roles == map[] || ValidAssignments(w.roles))
    && (w.roles == map[] ==> w.approvals == [])
    && w.parked != ReconciliationRequired
    && forall k :: 0 <= k < |w.calls| ==> CallOk(w, w.calls[k])
  }

  ghost predicate Inv(w: World) {
    Base(w) && Collected(w.approvals, w.roles) >= Stage(Effective(w))
  }

  lemma OneMoreApproval(approvals: seq<Approval>, a: Approval, roles: map<Role, string>)
    ensures Collected(approvals + [a], roles) >= Collected(approvals, roles)
    ensures forall n: nat | Collected(approvals, roles) >= n && n < |CHAIN| && Approves(a, CHAIN[n], roles) ::
              Collected(approvals + [a], roles) >= n + 1
  {
    assert (approvals + [a])[..|approvals|] == approvals;
  }

  /** The holder's decision in a state: an approval moves the count on with the state. */
  lemma ChainAdvances(approvals: seq<Approval>, a: Approval, roles: map<Role, string>, s: State)
    requires Collected(approvals, roles) >= Stage(s)
    requires RequiredRole(s) == Some(a.role) && a.role in roles && a.principal == roles[a.role]
    ensures Collected(approvals + [a], roles) >= Stage(if a.decision.Reject? then Rejected else ApprovedSuccessor(s).value)
  {
    StageRole(s);
    OneMoreApproval(approvals, a, roles);
    assert a.decision.Approve? ==> Approves(a, CHAIN[Stage(s)], roles);
  }

  lemma WriteKeepsChain(w: World, c: Pending)
    requires Inv(w) && CallOk(w, c) && c.state == w.state && c.version == w.version
    requires c.resumes ==> c.next == w.parked
    ensures var u := Written(w, c); Collected(u.approvals, u.roles) >= Stage(Effective(u))
  {
    if c.approval.Some? {
      assert Effective(w) == w.state;
      ChainAdvances(w.approvals, c.approval.value, w.roles, w.state);
    } else {
      assert w.approvals + [] == w.approvals;
    }
  }

  lemma DroppedCalls(w: World, k: nat)
    requires Base(w) && k < |w.calls|
    ensures Base(w.(calls := Without(w.calls, k)))
  {
    var cs := Without(w.calls, k);
    forall j | 0 <= j < |cs| ensures CallOk(w.(calls := cs), cs[j]) {
      assert cs[j] == (if j < k then w.calls[j] else w.calls[j + 1]);
      assert CallOk(w, cs[j]);
    }
  }

  lemma WriteKeepsBase(w: World, c: Pending)
    requires Base(w) && CallOk(w, c)
    ensures Base(Written(w, c))
  {
    var u := Written(w, c);
    forall j | 0 <= j < |u.calls| ensures CallOk(u, u.calls[j]) {
      assert CallOk(w, w.calls[j]);
    }
    assert c.approval.None? ==> u.approvals == w.approvals;
  }

  lemma CommitKeepsBase(w: World, k: nat)
    requires Base(w) && k < |w.calls|
    ensures Base(Apply(w, Commit(k)))
  {
    var c, v := w.calls[k], w.(calls := Without(w.calls, k));
    DroppedCalls(w, k);
    assert CallOk(w, c) && CallOk(v, c);
    WriteKeepsBase(v, c);
  }

  lemma CommitKeepsInv(w: World, k: nat)
    requires Inv(w) && k < |w.calls| && ResumesFaithfully(w, Commit(k))
    ensures Inv(Apply(w, Commit(k)))
  {
    var c, v := w.calls[k], w.(calls := Without(w.calls, k));
    CommitKeepsBase(w, k);
    DroppedCalls(w, k);
    assert CallOk(w, c) && CallOk(v, c);
    if c.state == v.state && c.version == v.version {
      WriteKeepsChain(v, c);
    }
  }

  lemma ReadKeepsBase(w: World, next: State, approval: Option<Approval>, resumes: bool)
    requires Base(w) && CallOk(w, Pending(w.state, w.version, next, approval, resumes))
    ensures Base(Read(w, next, approval, resumes))
  {
    var c := Pending(w.state, w.version, next, approval, resumes);
    var u := Read(w, next, approval, resumes);
    forall j | 0 <= j < |u.calls| ensures CallOk(u, u.calls[j]) {
      assert j < |w.calls| ==> CallOk(w, w.calls[j]);
      assert j == |w.calls| ==> u.calls[j] == c;
    }
  }

  lemma AssignKeepsBase(w: World, roles: map<Role, string>)
    requires Base(w) && w.roles == map[] && ValidAssignments(roles)
    ensures Base(w.(roles := roles))
  {
    var u := w.(roles := roles);
    forall j | 0 <= j < |u.calls| ensures CallOk(u, u.calls[j]) {
      assert CallOk(w, w.calls[j]);
    }
  }

  lemma StepKeepsBase(w: World, s: Step)
    requires Base(w) && Enabled(w, s)
    ensures Base(Apply(w, s))
  {
    match s
    case AssignRoles(_, roles) => AssignKeepsBase(w, roles);
    case Decide(principal, d) =>
      var a := ApplyDecision(w.state, w.roles, principal, d).value;
      ReadKeepsBase(w, a.toState, Some(a), false);
    case Begin => ReadKeepsBase(w, UnderwritingPrimary, None, false);
    case Audit => ReadKeepsBase(w, Audited, None, false);
    case Park => ReadKeepsBase(w, ReconciliationRequired, None, false);
    case Resolve(_, r, target) => ReadKeepsBase(w, ResolveReconciliationTo(w.state, r, target).value, None, r.ResumeDisbursement?);
    case Commit(k) => CommitKeepsBase(w, k);
    case Drop(k) => DroppedCalls(w, k);
  }

  lemma StepKeepsInv(w: World, s: Step)
    requires Inv(w) && Enabled(w, s) && ResumesFaithfully(w, s)
    ensures Inv(Apply(w, s))
  {
    StepKeepsBase(w, s);
    if s.Commit? {
      CommitKeepsInv(w, s.k);
    }
  }

  lemma {:induction false} RunKeepsBase(ws: seq<World>, i: nat)
    requires Run(ws) && i < |ws|
    ensures Base(ws[i])
  {
    if i > 0 {
      RunKeepsBase(ws, i - 1);
      assert Moves(ws[i - 1], ws[i]);
      var s :| Enabled(ws[i - 1], s) && Apply(ws[i - 1], s) == ws[i];
      StepKeepsBase(ws[i - 1], s);
    }
  }

  lemma {:induction false} RunKeepsInv(ws: seq<World>, i: nat)
    requires FaithfulRun(ws) && i < |ws|
    ensures Inv(ws[i])
  {
    if i > 0 {
      RunKeepsInv(ws, i - 1);
      assert MovesFaithfully(ws[i - 1], ws[i]);
      var s :| Enabled(ws[i - 1], s) && ResumesFaithfully(ws[i - 1], s) && Apply(ws[i - 1], s) == ws[i];
      StepKeepsInv(ws[i - 1], s);
    }
  }

  // ---- what every run guarantees ----

  /** The six positions in the audit trail at which the chain approved. */
  ghost predicate FullChain(approvals: seq<Approval>, roles: map<Role, string>, at: seq<nat>) {
    && |at| == |CHAIN|
    && (forall i :: 0 <= i < |at| ==> at[i] < |approvals| && Approves(approvals[at[i]], CHAIN[i], roles))
    && (forall i, j :: 0 <= i < j < |at| ==> at[i] < at[j] && approvals[at[i]].principal != approvals[at[j]].principal)
  }

  /** When resumes return to where the application was parked, a DISBURSED or AUDITED application was
      approved by all six assigned roles, in chain order, by six different principals. */
  lemma DisbursedIsApprovedByAll(ws: seq<World>, i: nat) returns (at: seq<nat>)
    requires FaithfulRun(ws) && i < |ws| && (ws[i].state == Disbursed || ws[i].state == Audited)
    ensures FullChain(ws[i].approvals, ws[i].roles, at)
  {
    RunKeepsInv(ws, i);
    at := CollectedInOrder(ws[i].approvals, ws[i].roles);
    SixPrincipals(ws[i].approvals, ws[i].roles, at);
  }

  lemma SixPrincipals(approvals: seq<Approval>, roles: map<Role, string>, at: seq<nat>)
    requires roles == map[] || ValidAssignments(roles)
    requires |at| == |CHAIN| && forall i :: 0 <= i < |at| ==> at[i] < |approvals| && Approves(approvals[at[i]], CHAIN[i], roles)
    requires forall i, j :: 0 <= i < j < |at| ==> at[i] < at[j]
    ensures FullChain(approvals, roles, at)
  {
    assert Approves(approvals[at[0]], CHAIN[0], roles);
    forall i, j | 0 <= i < j < |at| ensures approvals[at[i]].principal != approvals[at[j]].principal {
      assert CHAIN[i] != CHAIN[j];
    }
  }

  ghost predicate CallsKnowTerminal(w: World) {
    forall k :: 0 <= k < |w.calls| ==> !Terminal(w.calls[k].state) && w.calls[k].version <= w.version
                                       && (w.calls[k].version == w.version ==> w.calls[k].state == w.state)
  }

  lemma CallsStayKnown(w: World, s: Step)
    requires CallsKnowTerminal(w) && Enabled(w, s)
    ensures CallsKnowTerminal(Apply(w, s))
    ensures Terminal(w.state) ==> Apply(w, s).state == w.state && Apply(w, s).approvals == w.approvals
  {
    if s.Commit? || s.Drop? {
      var cs := Without(w.calls, s.k);
      forall j | 0 <= j < |cs| ensures cs[j] in w.calls {
        assert cs[j] == (if j < s.k then w.calls[j] else w.calls[j + 1]);
      }
      assert forall c :: c in w.calls ==> !Terminal(c.state) && c.version <= w.version && (c.version == w.version ==> c.state == w.state);
    }
  }

  lemma {:induction false} CallsKnown(ws: seq<World>, i: nat)
    requires Run(ws) && i < |ws|
    ensures CallsKnowTerminal(ws[i])
  {
    if i > 0 {
      CallsKnown(ws, i - 1);
      assert Moves(ws[i - 1], ws[i]);
      var s :| Enabled(ws[i - 1], s) && Apply(ws[i - 1], s) == ws[i];
      CallsStayKnown(ws[i - 1], s);
    }
  }

  /** Whatever resume targets are supplied, REJECTED and AUDITED are never left, and their audit trail
      never grows. */
  lemma {:induction false} TerminalForever(ws: seq<World>, i: nat, j: nat)
    requires Run(ws) && i <= j < |ws| && Terminal(ws[i].state)
    ensures ws[j].state == ws[i].state && ws[j].approvals == ws[i].approvals
    decreases j - i
  {
    if i < j {
      TerminalForever(ws, i, j - 1);
      CallsKnown(ws, j - 1);
      assert Moves(ws[j - 1], ws[j]);
      var s :| Enabled(ws[j - 1], s) && Apply(ws[j - 1], s) == ws[j];
      CallsStayKnown(ws[j - 1], s);
    }
  }

  /** Role holders are never replaced. */
  lemma {:induction false} RolesForever(ws: seq<World>, i: nat, j: nat)
    requires Run(ws) && i <= j < |ws| && ws[i].roles != map[]
    ensures ws[j].roles == ws[i].roles
    decreases j - i
  {
    if i < j {
      RolesForever(ws, i, j - 1);
      assert Moves(ws[j - 1], ws[j]);
    }
  }

  // ---- the hypothesis is needed ----

  const HOLDERS: map<Role, string> :=
    map[UnderwriterPrimary := "a", UnderwriterSecondary := "b", UnderwriterTertiary := "c", NimasaApprover := "d",
        ReceivingBank := "e", Beneficiary := "f"]

  lemma OneLetter(c: char)
    requires 'a' <= c <= 'z'
    ensures Text.Canonical([c])
  {
  }

  lemma HoldersAreValid()
    ensures ValidAssignments(HOLDERS)
  {
    forall r | r in HOLDERS ensures Text.Canonical(HOLDERS[r]) {
      OneLetter(HOLDERS[r][0]);
      assert HOLDERS[r] == [HOLDERS[r][0]];
    }
    forall r, q | r in HOLDERS && q in HOLDERS && HOLDERS[r] == HOLDERS[q] ensures r == q {
      assert HOLDERS[r][0] == HOLDERS[q][0];
    }
  }

  lemma Step1(w: World, s: Step)
    requires Enabled(w, s)
    ensures Moves(w, Apply(w, s))
  {
  }

  /** Extend a run by one call that is read and written without interference. */
  lemma CallAlone(ws: seq<World>, s: Step, next: State, approval: Option<Approval>, resumes: bool) returns (longer: seq<World>)
    requires Run(ws)
    requires var w := ws[|ws| - 1]; w.calls == [] && Enabled(w, s) && Apply(w, s) == Read(w, next, approval, resumes)
    ensures Run(longer)
    ensures var w := ws[|ws| - 1]; longer[|longer| - 1] == Written(w, Pending(w.state, w.version, next, approval, resumes))
  {
    var w := ws[|ws| - 1];
    var x := Apply(w, s);
    Step1(w, s);
    Step1(x, Commit(0));
    assert Without(x.calls, 0) == [];
    longer := ws + [x, Apply(x, Commit(0))];
    forall i | 0 <= i < |longer| - 1 ensures Moves(longer[i], longer[i + 1]) {
      if i < |ws| - 1 {
        assert Moves(ws[i], ws[i + 1]);
      }
    }
  }

  lemma Assigned() returns (ws: seq<World>)
    ensures Run(ws) && ws[|ws| - 1] == START.(roles := HOLDERS)
  {
    HoldersAreValid();
    assert forall r :: r in HOLDERS ==> |HOLDERS[r]| == 1;
    Step1(START, AssignRoles(Some("officer"), HOLDERS));
    ws := [START, Apply(START, AssignRoles(Some("officer"), HOLDERS))];
  }

  lemma ResumedAtGate() returns (ws: seq<World>)
    ensures Run(ws)
    ensures var w := ws[|ws| - 1]; w.state == DisbursementPending && w.calls == [] && w.roles == HOLDERS && w.approvals == []
  {
    ws := Assigned();
    ws := CallAlone(ws, Begin, UnderwritingPrimary, None, false);
    ws := CallAlone(ws, Park, ReconciliationRequired, None, false);
    OneLetter('z');
    assert forall r :: r in HOLDERS ==> HOLDERS[r][0] != 'z';
    ws := CallAlone(ws, Resolve(['z'], ResumeDisbursement, DisbursementPending), DisbursementPending, None, true);
  }

  /** With the default resume target a run can reach DISBURSED after a single approval: an application
      parked at the first underwriting tier resumes at the disbursement gate. */
  lemma DefaultResumeSkipsTheChain() returns (ws: seq<World>)
    ensures Run(ws) && ws[|ws| - 1].state == Disbursed && |ws[|ws| - 1].approvals| == 1
  {
    ws := ResumedAtGate();
    HoldersAreValid();
    assert Text.Canonical("f");
    var a := Approval(Beneficiary, "f", Approve, DisbursementPending, Disbursed);
    assert ApplyDecision(DisbursementPending, HOLDERS, "f", Approve) == Ok(a);
    ws := CallAlone(ws, Decide("f", Approve), Disbursed, Some(a), false);
  }
}
