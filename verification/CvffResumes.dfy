/** Which resume targets are safe: exactly those whose stage the approvals collected so far cover. */
module CvffResumes {
  import opened Wrappers
  import opened Cvff
  import opened CvffRuns
  import Text

  // ---- the chain was approved exactly when the in-order count is full ----

  /** Counting greedily misses nothing: any in-order approvals are covered by the count. */
  lemma {:induction false} CollectedMost(approvals: seq<Approval>, roles: map<Role, string>, at: seq<nat>)
    requires |at| <= |CHAIN|
    requires forall i :: 0 <= i < |at| ==> at[i] < |approvals| && Approves(approvals[at[i]], CHAIN[i], roles)
    requires forall i, j :: 0 <= i < j < |at| ==> at[i] < at[j]
    ensures Collected(approvals, roles) >= |at|
  {
    if at != [] {
      assert at[0] < |approvals|;
      var init, m := approvals[..|approvals| - 1], |at| - 1;
      if at[m] == |approvals| - 1 {
        CollectedMost(init, roles, at[..m]);
      } else {
        CollectedMost(init, roles, at);
      }
    }
  }

  ghost predicate Approved(w: World) { exists at :: FullChain(w.approvals, w.roles, at) }

  lemma ApprovedExactly(w: World)
    requires w.roles == map[] || ValidAssignments(w.roles)
    ensures Approved(w) <==> Collected(w.approvals, w.roles) == |CHAIN|
  {
    if Approved(w) {
      var at :| FullChain(w.approvals, w.roles, at);
      CollectedMost(w.approvals, w.roles, at);
    }
    if Collected(w.approvals, w.roles) == |CHAIN| {
      var at := CollectedInOrder(w.approvals, w.roles);
      SixPrincipals(w.approvals, w.roles, at);
    }
  }

  // ---- runs whose resumes are covered ----

  /** A resume that takes effect goes no further than the approvals collected. */
  predicate ResumesCovered(w: World, s: Step) {
    s.Commit? && s.k < |w.calls| && w.calls[s.k].resumes && w.calls[s.k].state == w.state && w.calls[s.k].version == w.version
    ==> Stage(w.calls[s.k].next) <= Collected(w.approvals, w.roles)
  }

  ghost predicate MovesCovered(w: World, w': World) {
    exists s :: Enabled(w, s) && ResumesCovered(w, s) && Apply(w, s) == w'
  }

  ghost predicate CoveredRun(ws: seq<World>) {
    ws != [] && ws[0] == START && forall i :: 0 <= i < |ws| - 1 ==> MovesCovered(ws[i], ws[i + 1])
  }

  ghost predicate Covered(w: World) { Base(w) && Collected(w.approvals, w.roles) >= Stage(w.state) }

  lemma WriteKeepsCovered(w: World, c: Pending)
    requires Covered(w) && CallOk(w, c) && c.state == w.state && c.version == w.version
    requires c.resumes ==> Stage(c.next) <= Collected(w.approvals, w.roles)
    ensures var u := Written(w, c); Collected(u.approvals, u.roles) >= Stage(u.state)
  {
    if c.approval.Some? {
      ChainAdvances(w.approvals, c.approval.value, w.roles, w.state);
    } else {
      assert w.approvals + [] == w.approvals;
    }
  }

  lemma StepKeepsCovered(w: World, s: Step)
    requires Covered(w) && Enabled(w, s) && ResumesCovered(w, s)
    ensures Covered(Apply(w, s))
  {
    StepKeepsBase(w, s);
    if s.Commit? {
      var c, v := w.calls[s.k], w.(calls := Without(w.calls, s.k));
      DroppedCalls(w, s.k);
      assert CallOk(w, c) && CallOk(v, c);
      if c.state == v.state && c.version == v.version {
        WriteKeepsCovered(v, c);
      }
    }
  }

  lemma {:induction false} RunKeepsCovered(ws: seq<World>, i: nat)
    requires CoveredRun(ws) && i < |ws|
    ensures Covered(ws[i])
  {
    if i > 0 {
      RunKeepsCovered(ws, i - 1);
      assert MovesCovered(ws[i - 1], ws[i]);
      var s :| Enabled(ws[i - 1], s) && ResumesCovered(ws[i - 1], s) && Apply(ws[i - 1], s) == ws[i];
      StepKeepsCovered(ws[i - 1], s);
    }
  }

  predicate PaidOut(s: State) { s.Disbursed? || s.Audited? }

  /** When every resume goes no further than the approvals collected, no application is disbursed without
      the whole chain. */
  lemma CoveredIsApproved(ws: seq<World>, i: nat)
    requires CoveredRun(ws) && i < |ws| && PaidOut(ws[i].state)
    ensures Approved(ws[i])
  {
    RunKeepsCovered(ws, i);
    ApprovedExactly(ws[i]);
  }

  // ---- one resume ----

  /** What may follow from a world when later resumes return to where the application was parked. */
  ghost predicate Continues(us: seq<World>) {
    us != [] && forall i :: 0 <= i < |us| - 1 ==> MovesFaithfully(us[i], us[i + 1])
  }

  /** Nothing that follows disburses without the whole chain. */
  ghost predicate Protected(u: World) {
    forall us: seq<World> | Continues(us) && us[0] == u :: PaidOut(us[|us| - 1].state) ==> Approved(us[|us| - 1])
  }

  lemma {:induction false} ContinuesInv(us: seq<World>, i: nat)
    requires Continues(us) && Inv(us[0]) && i < |us|
    ensures Inv(us[i])
  {
    if i > 0 {
      ContinuesInv(us, i - 1);
      assert MovesFaithfully(us[i - 1], us[i]);
      var s :| Enabled(us[i - 1], s) && ResumesFaithfully(us[i - 1], s) && Apply(us[i - 1], s) == us[i];
      StepKeepsInv(us[i - 1], s);
    }
  }

  lemma CoveredIsProtected(u: World)
    requires Inv(u)
    ensures Protected(u)
  {
    forall us: seq<World> | Continues(us) && us[0] == u && PaidOut(us[|us| - 1].state) ensures Approved(us[|us| - 1]) {
      ContinuesInv(us, |us| - 1);
      ApprovedExactly(us[|us| - 1]);
    }
  }

  lemma Grown(us: seq<World>, s: Step) returns (vs: seq<World>)
    requires Continues(us) && Enabled(us[|us| - 1], s) && ResumesFaithfully(us[|us| - 1], s)
    ensures Continues(vs) && vs == us + [Apply(us[|us| - 1], s)]
  {
    vs := us + [Apply(us[|us| - 1], s)];
    forall i | 0 <= i < |vs| - 1 ensures MovesFaithfully(vs[i], vs[i + 1]) {
      if i < |us| - 1 {
        assert MovesFaithfully(us[i], us[i + 1]);
      }
    }
  }

  /** The holder of the role a state waits for approves: one call read and written alone. */
  lemma ApproveNext(us: seq<World>) returns (vs: seq<World>)
    requires Continues(us)
    requires var w := us[|us| - 1]; Base(w) && ValidAssignments(w.roles) && RequiredRole(w.state).Some?
    ensures Continues(vs) && us <= vs && Base(vs[|vs| - 1])
    ensures var w, v := us[|us| - 1], vs[|vs| - 1];
            && v.roles == w.roles && v.state == ApprovedSuccessor(w.state).value
            && exists a :: v.approvals == w.approvals + [a] && a.role == RequiredRole(w.state).value
  {
    var w := us[|us| - 1];
    var role := RequiredRole(w.state).value;
    HolderMayDecide(w, role);
    var a := Approval(role, w.roles[role], Approve, w.state, ApprovedSuccessor(w.state).value);
    var s := Decide(w.roles[role], Approve);
    var x := Apply(w, s);
    assert x == Read(w, a.toState, Some(a), false);
    StepKeepsBase(w, s);
    vs := Grown(us, s);
    var k := |w.calls|;
    assert x.calls[k] == Pending(w.state, w.version, a.toState, Some(a), false);
    StepKeepsBase(x, Commit(k));
    vs := Grown(vs, Commit(k));
    assert vs[|vs| - 1].approvals == w.approvals + [a];
  }

  lemma HolderMayDecide(w: World, role: Role)
    requires ValidAssignments(w.roles) && RequiredRole(w.state) == Some(role)
    ensures w.roles != map[] && role in w.roles
    ensures ApplyDecision(w.state, w.roles, w.roles[role], Approve)
            == Ok(Approval(role, w.roles[role], Approve, w.state, ApprovedSuccessor(w.state).value))
  {
    StageRole(w.state);
    assert CHAIN[Stage(w.state)] in CHAIN;
  }

  /** Approvals of later roles do not fill an earlier gap. */
  lemma GapStays(approvals: seq<Approval>, a: Approval, roles: map<Role, string>, n: nat)
    requires Collected(approvals, roles) < n < |CHAIN| && a.role == CHAIN[n]
    ensures Collected(approvals + [a], roles) == Collected(approvals, roles)
  {
    assert (approvals + [a])[..|approvals|] == approvals;
    ChainDistinct(Collected(approvals, roles), n);
  }

  lemma ChainDistinct(i: nat, j: nat)
    requires i < j < |CHAIN|
    ensures CHAIN[i] != CHAIN[j]
  {
  }

  /** The application is further than the approvals collected. */
  ghost predicate Ahead(w: World) {
    Base(w) && ValidAssignments(w.roles) && Collected(w.approvals, w.roles) < Stage(w.state)
  }

  /** An approval in such a state leaves the gap behind. */
  lemma AheadStays(us: seq<World>) returns (vs: seq<World>)
    requires Continues(us) && Ahead(us[|us| - 1]) && RequiredRole(us[|us| - 1].state).Some?
    ensures Continues(vs) && us <= vs && Ahead(vs[|vs| - 1])
    ensures vs[|vs| - 1].state == ApprovedSuccessor(us[|us| - 1].state).value
  {
    var w := us[|us| - 1];
    StageRole(w.state);
    vs := ApproveNext(us);
    var a :| vs[|vs| - 1].approvals == w.approvals + [a] && a.role == RequiredRole(w.state).value;
    GapStays(w.approvals, a, w.roles, Stage(w.state));
  }

  /** From such a state, approving only what is still asked for disburses the application over the gap. */
  lemma {:induction false} DisbursesOverGap(us: seq<World>) returns (vs: seq<World>)
    requires Continues(us) && Ahead(us[|us| - 1]) && RequiredRole(us[|us| - 1].state).Some?
    ensures Continues(vs) && us <= vs && vs[|vs| - 1].state == Disbursed && !Approved(vs[|vs| - 1])
    decreases |CHAIN| - Stage(us[|us| - 1].state)
  {
    StageRole(us[|us| - 1].state);
    vs := AheadStays(us);
    if RequiredRole(vs[|vs| - 1].state).Some? {
      vs := DisbursesOverGap(vs);
    } else {
      ApprovedExactly(vs[|vs| - 1]);
    }
  }

  lemma AssignsFirst(u: World) returns (us: seq<World>)
    requires Base(u) && RequiredRole(u.state).Some?
    ensures Continues(us) && us[0] == u
    ensures var w := us[|us| - 1];
            && Base(w) && w.state == u.state && w.approvals == u.approvals && ValidAssignments(w.roles)
            && (u.roles != map[] ==> w.roles == u.roles)
  {
    us := [u];
    if u.roles == map[] {
      HoldersAreValid();
      assert forall r :: r in HOLDERS ==> |HOLDERS[r]| == 1;
      var s := AssignRoles(Some("officer"), HOLDERS);
      StepKeepsBase(u, s);
      us := Grown(us, s);
    }
  }

  lemma UncoveredIsUnprotected(u: World)
    requires Base(u) && RequiredRole(u.state).Some? && Collected(u.approvals, u.roles) < Stage(u.state)
    ensures !Protected(u)
  {
    var us := AssignsFirst(u);
    var vs := DisbursesOverGap(us);
    assert vs[0] == u && PaidOut(vs[|vs| - 1].state);
  }

  /** Whatever happened before, a resume that takes effect protects the chain, however the run continues,
      if and only if its target's stage is covered by the approvals collected so far. */
  lemma ResumeSafeExactly(ws: seq<World>, k: nat)
    requires Run(ws) && k < |ws[|ws| - 1].calls|
    requires var w := ws[|ws| - 1]; w.calls[k].resumes && w.calls[k].state == w.state && w.calls[k].version == w.version
    ensures var w := ws[|ws| - 1];
            Protected(Apply(w, Commit(k))) <==> Stage(w.calls[k].next) <= Collected(w.approvals, w.roles)
  {
    var w := ws[|ws| - 1];
    var u := Apply(w, Commit(k));
    RunKeepsBase(ws, |ws| - 1);
    CommitKeepsBase(w, k);
    assert CallOk(w, w.calls[k]);
    assert u.approvals == w.approvals && u.roles == w.roles && u.state == w.calls[k].next;
    if Stage(u.state) <= Collected(u.approvals, u.roles) {
      CoveredIsProtected(u);
    } else {
      UncoveredIsUnprotected(u);
    }
  }
}
