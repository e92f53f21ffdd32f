/** The financial intent record and its pure transitions (internal/intent/model.go). */
module Intents {
  import opened Wrappers
  import Text

  datatype State =
    | Draft | Approved | ReservationRequested | Reserved
    | Posted | Voided | Ambiguous | ReconciliationRequired

  datatype Error =
    | NotFound | Conflict | InvalidState | MakerChecker | InvalidResolution
    | ResolutionRejected | NotMaker | InvalidText | NotReady | Unavailable

  datatype Resolution = Reconcile | Close | Other

  datatype Request = Request(
    intentId: string, externalRef: string, debitAccount: string, creditAccount: string,
    amount: nat, ledger: nat, code: nat, currency: string, maker: string)

  datatype Intent = Intent(request: Request, state: State, checker: Option<string>, version: nat)

  predicate Terminal(state: State) { state.Posted? || state.Voided? }

  predicate ValidRequest(r: Request) {
    && Text.Canonical(r.intentId) && Text.Canonical(r.externalRef)
    && Text.Canonical(r.debitAccount) && Text.Canonical(r.creditAccount)
    && Text.Canonical(r.currency) && Text.Canonical(r.maker)
    && r.debitAccount != r.creditAccount
    && r.amount != 0 && r.ledger != 0 && r.code != 0
    && (r.currency == "NGN" || r.currency == "USD")
  }

  function Approve(current: Intent, checker: string): Result<Intent, Error> {
    if current.state != Draft then Err(InvalidState)
    else if Text.Blank(checker) || checker == current.request.maker then Err(MakerChecker)
    else Ok(current.(state := Approved, checker := Some(checker)))
  }

  function VoidDraft(current: Intent, expectedVersion: int, actor: string): Result<Intent, Error> {
    if current.state != Draft then Err(InvalidState)
    else if current.version != expectedVersion then Err(Conflict)
    else if actor == "" || actor != current.request.maker then Err(NotMaker)
    else Ok(current.(state := Voided))
  }

  function ResolveAmbiguous(current: Intent, expectedVersion: int, officer: string, resolution: Resolution)
    : Result<Intent, Error>
  {
    if current.state != Ambiguous then Err(InvalidState)
    else if current.version != expectedVersion then Err(Conflict)
    else if !Text.Canonical(officer) then Err(InvalidText)
    else match resolution
      case Reconcile => Ok(current.(state := ReconciliationRequired))
      case Close => Ok(current.(state := Voided))
      case Other => Err(InvalidResolution)
  }

  predicate ValidOperationalTransition(current: State, next: State) {
    match current
    case Draft => next == Voided
    case Approved => next == ReservationRequested
    case ReservationRequested => next in {Reserved, Ambiguous, ReconciliationRequired}
    case Reserved => next in {Posted, Voided, Ambiguous, ReconciliationRequired}
    case ReconciliationRequired => next in {Reserved, Posted, Voided, Ambiguous}
    case Ambiguous => next in {ReconciliationRequired, Voided}
    case Posted => false
    case Voided => false
  }

  /** Every move some store call can record: the operational table plus the maker/checker approval. */
  predicate LifecycleMove(current: State, next: State) {
    ValidOperationalTransition(current, next) || (current == Draft && next == Approved)
  }

  /** How far along the road to the ledger a state is; lifecycle moves never go back. */
  function Rank(state: State): nat {
    match state
    case Draft => 0
    case Approved => 1
    case ReservationRequested => 2
    case _ => 3
  }
}
