/** The CVFF approval chain (internal/cvff/application.go): lifecycle, role separation and service levels. */
module Cvff {
  import opened Wrappers
  import Text

  datatype State =
    | Submitted | UnderwritingPrimary | UnderwritingSecondary | UnderwritingTertiary | NimasaApproval
    | BankConfirmation | DisbursementPending | Disbursed | Audited | Rejected | ReconciliationRequired

  datatype Role =
    | UnderwriterPrimary | UnderwriterSecondary | UnderwriterTertiary | NimasaApprover | ReceivingBank | Beneficiary
    | ReconciliationOfficer

  datatype Decision = Approve | Reject

  datatype Resolution = ResumeDisbursement | CloseRejected

  datatype Error =
    | TerminalState | SequenceViolation | InvalidIdentifier | RoleNotAssigned | RoleSeparation | AssignmentInvalid
    | ResolutionInvalid | Conflict

  /** The six deciding roles in lifecycle order. */
  const CHAIN := [UnderwriterPrimary, UnderwriterSecondary, UnderwriterTertiary, NimasaApprover, ReceivingBank, Beneficiary]

  datatype Approval = Approval(role: Role, principal: string, decision: Decision, fromState: State, toState: State)

  predicate Terminal(s: State) { s.Rejected? || s.Audited? }

  function RequiredRole(s: State): Option<Role> {
    match s
    case UnderwritingPrimary => Some(UnderwriterPrimary)
    case UnderwritingSecondary => Some(UnderwriterSecondary)
    case UnderwritingTertiary => Some(UnderwriterTertiary)
    case NimasaApproval => Some(NimasaApprover)
    case BankConfirmation => Some(ReceivingBank)
    case DisbursementPending => Some(Beneficiary)
    case _ => None
  }

  function ApprovedSuccessor(s: State): Option<State> {
    match s
    case Submitted => Some(UnderwritingPrimary)
    case UnderwritingPrimary => Some(UnderwritingSecondary)
    case UnderwritingSecondary => Some(UnderwritingTertiary)
    case UnderwritingTertiary => Some(NimasaApproval)
    case NimasaApproval => Some(BankConfirmation)
    case BankConfirmation => Some(DisbursementPending)
    case DisbursementPending => Some(Disbursed)
    case Disbursed => Some(Audited)
    case _ => None
  }

  predicate Resumable(s: State) { RequiredRole(s).Some? }

  // ---- role assignments ----

  predicate ValidAssignments(a: map<Role, string>) {
    && (forall r :: r in CHAIN ==> r in a && Text.Canonical(a[r]))
    && (forall r, q :: r in a && q in a && a[r] == a[q] ==> r == q)
  }

  /** Every role once, no principal twice; the entries are visited in any order. */
  method ValidateRoleAssignments(a: map<Role, string>) returns (ok: bool)
    ensures ok <==> ValidAssignments(a)
  {
    for k := 0 to |CHAIN|
      invariant forall i :: 0 <= i < k ==> CHAIN[i] in a && Text.Canonical(a[CHAIN[i]])
    {
      if CHAIN[k] !in a || !Text.Canonical(a[CHAIN[k]]) {
        assert CHAIN[k] in CHAIN;
        return false;
      }
    }
    var seen: map<string, Role> := map[];
    var left := a.Keys;
    while left != {}
      invariant left <= a.Keys
      invariant forall p :: p in seen <==> exists r :: r in a.Keys - left && a[r] == p
      invariant forall p :: p in seen ==> seen[p] in a.Keys - left && a[seen[p]] == p
      invariant forall r, q :: r in a.Keys - left && q in a.Keys - left && a[r] == a[q] ==> r == q
      decreases |left|
    {
      var r :| r in left;
      if a[r] in seen {
        assert a[seen[a[r]]] == a[r] && seen[a[r]] != r;
        return false;
      }
      seen := seen[a[r] := r];
      left := left - {r};
    }
    ok := true;
  }

  // ---- transitions ----

  function BeginUnderwriting(s: State): Result<State, Error> {
    if Terminal(s) then Err(TerminalState) else if s != Submitted then Err(SequenceViolation) else Ok(UnderwritingPrimary)
  }

  function ApplyDecision(s: State, a: map<Role, string>, principal: string, d: Decision): Result<Approval, Error> {
    if Terminal(s) then Err(TerminalState)
    else match RequiredRole(s)
      case None => Err(SequenceViolation)
      case Some(role) =>
        if !Text.Canonical(principal) then Err(InvalidIdentifier)
        else if role !in a || a[role] != principal then Err(RoleNotAssigned)
        else if exists r :: r in a && a[r] == principal && r != role then Err(RoleSeparation)
        else Ok(Approval(role, principal, d, s, if d.Reject? then Rejected else ApprovedSuccessor(s).value))
  }

  function MarkAudited(s: State): Result<State, Error> {
    if Terminal(s) then Err(TerminalState) else if s != Disbursed then Err(SequenceViolation) else Ok(Audited)
  }

  function RequireReconciliation(s: State): Result<State, Error> {
    if Terminal(s) then Err(TerminalState) else Ok(ReconciliationRequired)
  }

  function ResolveReconciliationTo(s: State, r: Resolution, target: State): Result<State, Error> {
    if s != ReconciliationRequired then Err(SequenceViolation)
    else match r
      case ResumeDisbursement => if Resumable(target) then Ok(target) else Err(ResolutionInvalid)
      case CloseRejected => Ok(Rejected)
  }

  /** The states in which a role decides, in lifecycle order, and where the last approval leads. */
  const STAGES := [UnderwritingPrimary, UnderwritingSecondary, UnderwritingTertiary, NimasaApproval, BankConfirmation,
                   DisbursementPending, Disbursed]

  /** Under separated roles a decision is taken exactly by the holder of the role whose turn it is; it leads to
      the next stage, or to REJECTED. In any other state nobody decides. */
  lemma DecidesExactly(k: nat, a: map<Role, string>, principal: string, d: Decision)
    requires ValidAssignments(a) && k < 6
    ensures CHAIN[k] in a && (ApplyDecision(STAGES[k], a, principal, d).Ok? <==> principal == a[CHAIN[k]])
    ensures ApplyDecision(STAGES[k], a, principal, d).Ok? ==>
              ApplyDecision(STAGES[k], a, principal, d).value
              == Approval(CHAIN[k], principal, d, STAGES[k], if d.Approve? then STAGES[k + 1] else Rejected)
    ensures forall s :: s !in STAGES[..6] ==> ApplyDecision(s, a, principal, d).Err?
  {
    assert CHAIN[k] in CHAIN;
    forall s | s !in STAGES[..6] ensures RequiredRole(s).None? {
      assert STAGES[..6][0] == UnderwritingPrimary && STAGES[..6][1] == UnderwritingSecondary
             && STAGES[..6][2] == UnderwritingTertiary && STAGES[..6][3] == NimasaApproval
             && STAGES[..6][4] == BankConfirmation && STAGES[..6][5] == DisbursementPending;
    }
  }

  // ---- service levels ----

  datatype Tier = Primary | Secondary | Tertiary

  function SlaBusinessDays(t: Tier): nat { match t case Primary => 5 case Secondary => 3 case Tertiary => 2 }

  /** Day numbers count from a Sunday. */
  predicate Weekend(day: int) { day % 7 == 6 || day % 7 == 0 }

  /** Business days after `from` up to and including `to`. */
  function BusinessDays(from: int, to: int): nat
    decreases to - from
  {
    if to <= from then 0 else BusinessDays(from, to - 1) + (if Weekend(to) then 0 else 1)
  }

  /** Days until the next business day, which weekend steps use up. */
  function Wait(day: int): nat { if day % 7 == 5 then 2 else if day % 7 == 6 then 1 else 0 }

  /** The first day by which the tier's number of business days has passed. */
  method SLADeadline(t: Tier, entered: int) returns (deadline: int)
    ensures BusinessDays(entered, deadline) == SlaBusinessDays(t) && entered < deadline && !Weekend(deadline)
    ensures forall d :: entered <= d < deadline ==> BusinessDays(entered, d) < SlaBusinessDays(t)
    ensures t.Primary? ==> deadline == entered + (if entered % 7 == 0 then 5 else if entered % 7 == 6 then 6 else 7)
  {
    var days := SlaBusinessDays(t);
    deadline := entered;
    var added := 0;
    while added < days
      invariant entered <= deadline && 0 <= added <= days && added == BusinessDays(entered, deadline)
      invariant added > 0 && added == days ==> !Weekend(deadline)
      invariant forall d :: entered <= d < deadline ==> BusinessDays(entered, d) < days
      decreases days - added, Wait(deadline)
    {
      deadline := deadline + 1;
      if !Weekend(deadline) {
        added := added + 1;
      }
    }
    if t.Primary? {
      PrimaryDeadline(entered, deadline);
    }
  }

  /** One day more, from the day of the week (0 is Sunday) at which the count starts. */
  lemma OneDay(from: int, w: int, k: nat)
    requires w == from % 7 && 0 < k <= 7
    ensures var off := w + k == 6 || w + k == 7 || w + k == 13;
            (Weekend(from + k) <==> off) && BusinessDays(from, from + k) == BusinessDays(from, from + k - 1) + (if off then 0 else 1)
  {
    assert (from + k) % 7 == (w + k) % 7;
  }

  lemma FiveDays(day: int)
    ensures var days := if day % 7 == 0 then 5 else if day % 7 == 6 then 6 else 7;
            BusinessDays(day, day + days) == 5 && !Weekend(day + days)
  {
    var w := day % 7;
    OneDay(day, w, 1);
    OneDay(day, w, 2);
    OneDay(day, w, 3);
    OneDay(day, w, 4);
    OneDay(day, w, 5);
    OneDay(day, w, 6);
    OneDay(day, w, 7);
  }

  /** A primary tier has five business days: seven days from a weekday, the coming Friday from a weekend. */
  lemma PrimaryDeadline(entered: int, deadline: int)
    requires entered < deadline && BusinessDays(entered, deadline) == 5
    requires forall d :: entered <= d < deadline ==> BusinessDays(entered, d) < 5
    ensures deadline == entered + (if entered % 7 == 0 then 5 else if entered % 7 == 6 then 6 else 7)
  {
    FiveDays(entered);
    var day := entered + (if entered % 7 == 0 then 5 else if entered % 7 == 6 then 6 else 7);
    if deadline < day {
      Unfinished(entered, deadline, day);
    }
  }

  /** The day before a business day counts one less, and no earlier day more. */
  lemma {:induction false} Unfinished(from: int, to: int, later: int)
    requires from <= to < later && !Weekend(later)
    ensures BusinessDays(from, to) < BusinessDays(from, later)
    decreases later - to
  {
    NoneLost(from, to, later - 1);
  }

  lemma {:induction false} NoneLost(from: int, to: int, later: int)
    requires from <= to <= later
    ensures BusinessDays(from, to) <= BusinessDays(from, later)
    decreases later - to
  {
    if to < later {
      NoneLost(from, to, later - 1);
    }
  }
}
