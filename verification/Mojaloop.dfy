/** Mojaloop message types and validators (internal/mojaloop/fspiop.go, outbound.go, ilp.go). The hash and
    the base64url coding are given functions. */
module Mojaloop {
  import opened Wrappers

  datatype TransferState = Prepared | Reserved | Committed | Aborted | Unknown

  predicate Terminal(s: TransferState) { s.Committed? || s.Aborted? }

  datatype Identity = Identity(transferId: string, payerFsp: string, payeeFsp: string, amount: string, currency: string)

  datatype Callback = Callback(identity: Identity, state: TransferState, fulfilment: string)

  datatype Error =
    | MissingIdentity | IdentityChange | InvalidState | ConflictingBody | UnknownQuote | UnknownTransfer
    | AmountMismatch | MissingTerms | MalformedCondition | InvalidFulfilment

  /** What ILP takes from its environment: the digest of a body, the condition of a fulfilment
      (base64url(SHA-256(preimage)), empty when the fulfilment does not decode), and which conditions are
      well-formed digests. */
  datatype Crypto = Crypto(digest: string -> string, condition: string -> string, wellFormed: string -> bool)

  predicate CompleteIdentity(i: Identity) {
    i.transferId != "" && i.payerFsp != "" && i.payeeFsp != "" && i.amount != "" && i.currency != ""
  }

  function VerifyFulfilment(c: Crypto, condition: string, fulfilment: string): Option<Error> {
    if !c.wellFormed(condition) then Some(MalformedCondition)
    else if c.condition(fulfilment) != condition then Some(InvalidFulfilment)
    else None
  }

  // ---- outbound ----

  /** The terms of a quote response. */
  datatype Terms = Terms(amount: string, currency: string, ilpPacket: string, condition: string)

  function ValidateQuoteResponse(c: Crypto, amount: string, currency: string, t: Terms): Option<Error> {
    if t.amount == "" || t.currency == "" then Some(MissingTerms)
    else if t.amount != amount || t.currency != currency then Some(AmountMismatch)
    else if t.ilpPacket == "" || t.condition == "" then Some(MissingTerms)
    else if !c.wellFormed(t.condition) then Some(MalformedCondition)
    else None
  }

  function ValidateOutboundCallback(c: Crypto, current: Identity, state: TransferState, condition: string, cb: Callback): Option<Error> {
    if !CompleteIdentity(cb.identity) then Some(MissingIdentity)
    else if current != cb.identity then Some(IdentityChange)
    else if state != Prepared then Some(InvalidState)
    else match cb.state
      case Committed => if cb.fulfilment == "" then Some(InvalidFulfilment) else VerifyFulfilment(c, condition, cb.fulfilment)
      case Aborted => None
      case _ => Some(InvalidState)
  }

  // ---- inbound ----

  function ValidateTransferCallback(previous: Option<(Identity, TransferState)>, cb: Callback): Option<Error> {
    if !CompleteIdentity(cb.identity) then Some(MissingIdentity)
    else if previous.None? then (if cb.state != Reserved then Some(InvalidState) else None)
    else
      var (identity, state) := previous.value;
      if identity != cb.identity then Some(IdentityChange)
      else if state == cb.state && Terminal(cb.state) then None
      else if state == Reserved && Terminal(cb.state) then None
      else Some(InvalidState)
  }
}
