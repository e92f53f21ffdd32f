/** The outbound quote and transfer leg (internal/mojaloop/outbound_store.go and the hand-off in http.go):
    the store's transactions, and every run of requests, callbacks, replays and crashes over them. */
module MojaloopOutbound {
  import opened Wrappers
  import opened Mojaloop

  datatype QuoteRow = QuoteRow(
    payerFsp: string, payeeFsp: string, amount: string, currency: string, requestHash: string,
    response: Option<Terms>, callbackHash: string)

  datatype TransferRow = TransferRow(
    identity: Identity, quoteId: string, ilpPacket: string, condition: string, requestHash: string,
    state: TransferState, fulfilment: string, callbackHash: string)

  datatype Tables = Tables(quotes: map<string, QuoteRow>, transfers: map<string, TransferRow>)

  datatype Outcome = Recorded | Duplicate | Rejected(error: Error)

  datatype Quote = Quote(quoteId: string, payerFsp: string, payeeFsp: string, amount: string, currency: string)

  /** A PREPARED transfer about to be recorded. */
  datatype Transfer = Transfer(identity: Identity, quoteId: string, ilpPacket: string, condition: string)

  // ---- the transactions ----

  function CreateQuote(c: Crypto, t: Tables, q: Quote, body: string): (r: (Tables, Outcome))
    ensures r.1 != Recorded ==> r.0 == t
  {
    if q.quoteId == "" || q.payerFsp == "" || q.payeeFsp == "" || q.amount == "" || q.currency == "" then (t, Rejected(MissingIdentity))
    else if q.quoteId !in t.quotes then
      (t.(quotes := t.quotes[q.quoteId := QuoteRow(q.payerFsp, q.payeeFsp, q.amount, q.currency, c.digest(body), None, "")]), Recorded)
    else if t.quotes[q.quoteId].requestHash != c.digest(body) then (t, Rejected(IdentityChange))
    else (t, Duplicate)
  }

  function ApplyQuoteCallback(c: Crypto, t: Tables, quoteId: string, terms: Terms, body: string): (r: (Tables, Outcome))
    ensures r.1 != Recorded ==> r.0 == t
    ensures r.1 == Recorded ==> r.0.transfers == t.transfers && quoteId in t.quotes && t.quotes[quoteId].response.None?
                                && r.0.quotes == t.quotes[quoteId := t.quotes[quoteId].(response := Some(terms), callbackHash := c.digest(body))]
  {
    if quoteId == "" then (t, Rejected(MissingIdentity))
    else if quoteId !in t.quotes then (t, Rejected(UnknownQuote))
    else
      var q := t.quotes[quoteId];
      if q.response.Some? then
        if q.callbackHash == c.digest(body) then (t, Duplicate) else (t, Rejected(ConflictingBody))
      else
        var e := ValidateQuoteResponse(c, q.amount, q.currency, terms);
        if e.Some? then (t, Rejected(e.value))
        else (t.(quotes := t.quotes[quoteId := q.(response := Some(terms), callbackHash := c.digest(body))]), Recorded)
  }

  function CreateTransfer(c: Crypto, t: Tables, tr: Transfer, body: string): (r: (Tables, Outcome))
    ensures r.1 != Recorded ==> r.0 == t
    ensures r.1 == Recorded ==> tr.identity.transferId !in t.transfers && r.0.quotes == t.quotes
  {
    var id := tr.identity.transferId;
    if !CompleteIdentity(tr.identity) || tr.quoteId == "" || tr.ilpPacket == "" || tr.condition == "" then (t, Rejected(MissingIdentity))
    else if !c.wellFormed(tr.condition) then (t, Rejected(MalformedCondition))
    else if id !in t.transfers then
      (t.(transfers := t.transfers[id := TransferRow(tr.identity, tr.quoteId, tr.ilpPacket, tr.condition, c.digest(body), Prepared, "", "")]), Recorded)
    else if t.transfers[id].requestHash != c.digest(body) then (t, Rejected(IdentityChange))
    else (t, Duplicate)
  }

  function ApplyTransferCallback(c: Crypto, t: Tables, cb: Callback, body: string): (r: (Tables, Outcome))
    ensures r.1 != Recorded ==> r.0 == t
    ensures r.1 == Recorded ==>
              var id := cb.identity.transferId;
              && r.0.quotes == t.quotes && id in t.transfers && t.transfers[id].state == Prepared && Terminal(cb.state)
              && (cb.state == Committed ==> c.condition(cb.fulfilment) == t.transfers[id].condition)
              && r.0.transfers == t.transfers[id := t.transfers[id].(state := cb.state, fulfilment := cb.fulfilment, callbackHash := c.digest(body))]
  {
    var id := cb.identity.transferId;
    if !CompleteIdentity(cb.identity) then (t, Rejected(MissingIdentity))
    else if id !in t.transfers then (t, Rejected(UnknownTransfer))
    else
      var row := t.transfers[id];
      if Terminal(row.state) then
        if row.callbackHash == c.digest(body) then (t, Duplicate) else (t, Rejected(ConflictingBody))
      else
        var e := ValidateOutboundCallback(c, row.identity, row.state, row.condition, cb);
        if e.Some? then (t, Rejected(e.value))
        else (t.(transfers := t.transfers[id := row.(state := cb.state, fulfilment := cb.fulfilment, callbackHash := c.digest(body))]), Recorded)
  }

  // ---- what the tables keep ----

  /** A recorded response passed validation against the request. */
  ghost predicate QuoteOk(c: Crypto, id: string, q: QuoteRow) {
    && id != ""
    && (q.response.Some? ==> ValidateQuoteResponse(c, q.amount, q.currency, q.response.value).None?)
  }

  ghost predicate TransferOk(c: Crypto, quotes: map<string, QuoteRow>, id: string, t: TransferRow) {
    && t.identity.transferId == id && (t.state == Prepared || Terminal(t.state))
    && t.quoteId in quotes && quotes[t.quoteId].response == Some(Terms(t.identity.amount, t.identity.currency, t.ilpPacket, t.condition))
    && (t.state == Committed ==> c.condition(t.fulfilment) == t.condition)
  }

  ghost predicate OnePerQuote(transfers: map<string, TransferRow>) {
    forall i, j :: i in transfers && j in transfers && transfers[i].quoteId == transfers[j].quoteId ==> i == j
  }

  ghost predicate TablesOk(c: Crypto, t: Tables) {
    && (forall q :: q in t.quotes ==> QuoteOk(c, q, t.quotes[q]))
    && (forall id :: id in t.transfers ==> TransferOk(c, t.quotes, id, t.transfers[id]))
    && OnePerQuote(t.transfers)
  }

  /** The transfer carries its quote's recorded response, and the quote has no transfer yet. */
  ghost predicate FromResponse(t: Tables, tr: Transfer) {
    && tr.quoteId in t.quotes
    && t.quotes[tr.quoteId].response == Some(Terms(tr.identity.amount, tr.identity.currency, tr.ilpPacket, tr.condition))
    && forall id :: id in t.transfers ==> t.transfers[id].quoteId != tr.quoteId
  }

  lemma RequestKeepsTables(c: Crypto, t: Tables, q: Quote, body: string)
    requires TablesOk(c, t)
    ensures TablesOk(c, CreateQuote(c, t, q, body).0)
  {
  }

  lemma ResponseKeepsTables(c: Crypto, t: Tables, quoteId: string, terms: Terms, body: string)
    requires TablesOk(c, t)
    ensures TablesOk(c, ApplyQuoteCallback(c, t, quoteId, terms, body).0)
  {
  }

  lemma PreparationKeepsTables(c: Crypto, t: Tables, tr: Transfer, body: string)
    requires TablesOk(c, t) && FromResponse(t, tr)
    ensures TablesOk(c, CreateTransfer(c, t, tr, body).0)
  {
  }

  lemma ConclusionKeepsTables(c: Crypto, t: Tables, cb: Callback, body: string)
    requires TablesOk(c, t)
    ensures TablesOk(c, ApplyTransferCallback(c, t, cb, body).0)
  {
  }

  /** The store as it is written: one transaction per call, rows read before they are updated. */
  class OutboundStore {
    const crypto: Crypto
    var quotes: map<string, QuoteRow>
    var transfers: map<string, TransferRow>

    constructor (crypto: Crypto)
      ensures Snapshot() == Tables(map[], map[])
    {
      this.crypto := crypto;
      quotes, transfers := map[], map[];
    }

    function Snapshot(): Tables
      reads this
    {
      Tables(quotes, transfers)
    }

    method RecordQuote(q: Quote, body: string) returns (outcome: Outcome)
      modifies this
      ensures (Snapshot(), outcome) == CreateQuote(crypto, old(Snapshot()), q, body)
      ensures TablesOk(crypto, old(Snapshot())) ==> TablesOk(crypto, Snapshot())
      ensures transfers == old(transfers) && forall id :: id in old(quotes) ==> id in quotes && quotes[id] == old(quotes[id])
      ensures outcome == Recorded <==>
                "" !in {q.quoteId, q.payerFsp, q.payeeFsp, q.amount, q.currency} && q.quoteId !in old(quotes)
      ensures outcome == Duplicate <==>
                && "" !in {q.quoteId, q.payerFsp, q.payeeFsp, q.amount, q.currency}
                && q.quoteId in old(quotes) && old(quotes)[q.quoteId].requestHash == crypto.digest(body)
      ensures outcome == Recorded ==> q.quoteId !in old(quotes) && quotes == old(quotes)[q.quoteId := quotes[q.quoteId]]
                                      && quotes[q.quoteId].response.None? && quotes[q.quoteId].requestHash == crypto.digest(body)
                                      && quotes[q.quoteId].payerFsp == q.payerFsp && quotes[q.quoteId].payeeFsp == q.payeeFsp
                                      && quotes[q.quoteId].amount == q.amount && quotes[q.quoteId].currency == q.currency
    {
      if TablesOk(crypto, Snapshot()) { RequestKeepsTables(crypto, Snapshot(), q, body); }
      if q.quoteId == "" || q.payerFsp == "" || q.payeeFsp == "" || q.amount == "" || q.currency == "" {
        return Rejected(MissingIdentity);
      }
      var hash := crypto.digest(body);
      if q.quoteId !in quotes {
        quotes := quotes[q.quoteId := QuoteRow(q.payerFsp, q.payeeFsp, q.amount, q.currency, hash, None, "")];
        return Recorded;
      }
      if quotes[q.quoteId].requestHash != hash {
        return Rejected(IdentityChange);
      }
      return Duplicate;
    }

    method ReceiveQuote(quoteId: string, terms: Terms, body: string) returns (outcome: Outcome)
      modifies this
      ensures (Snapshot(), outcome) == ApplyQuoteCallback(crypto, old(Snapshot()), quoteId, terms, body)
      ensures TablesOk(crypto, old(Snapshot())) ==> TablesOk(crypto, Snapshot())
      ensures transfers == old(transfers) && quotes.Keys == old(quotes.Keys)
      ensures outcome == Recorded <==>
                && quoteId != "" && quoteId in old(quotes) && old(quotes)[quoteId].response.None?
                && "" !in {terms.amount, terms.currency, terms.ilpPacket, terms.condition} && crypto.wellFormed(terms.condition)
                && terms.amount == old(quotes)[quoteId].amount && terms.currency == old(quotes)[quoteId].currency
      ensures outcome == Duplicate <==>
                && quoteId != "" && quoteId in old(quotes) && old(quotes)[quoteId].response.Some?
                && old(quotes)[quoteId].callbackHash == crypto.digest(body)
      ensures outcome == Recorded ==> quotes[quoteId].callbackHash == crypto.digest(body)
      ensures forall id :: id in quotes && (id != quoteId || old(quotes[id]).response.Some?) ==> quotes[id] == old(quotes[id])
      ensures outcome == Recorded ==> quoteId in quotes && old(quotes[quoteId]).response.None? && quotes[quoteId].response == Some(terms)
                                      && terms.amount == old(quotes[quoteId]).amount && terms.currency == old(quotes[quoteId]).currency
    {
      if TablesOk(crypto, Snapshot()) { ResponseKeepsTables(crypto, Snapshot(), quoteId, terms, body); }
      if quoteId == "" {
        return Rejected(MissingIdentity);
      }
      var hash := crypto.digest(body);
      if quoteId !in quotes {
        return Rejected(UnknownQuote);
      }
      var q := quotes[quoteId];
      if q.response.Some? {
        return if q.callbackHash == hash then Duplicate else Rejected(ConflictingBody);
      }
      var e := ValidateQuoteResponse(crypto, q.amount, q.currency, terms);
      if e.Some? {
        return Rejected(e.value);
      }
      quotes := quotes[quoteId := q.(response := Some(terms), callbackHash := hash)];
      return Recorded;
    }

    method Prepare(tr: Transfer, body: string) returns (outcome: Outcome)
      modifies this
      ensures (Snapshot(), outcome) == CreateTransfer(crypto, old(Snapshot()), tr, body)
      ensures TablesOk(crypto, old(Snapshot())) && FromResponse(old(Snapshot()), tr) ==> TablesOk(crypto, Snapshot())
      ensures quotes == old(quotes) && forall id :: id in old(transfers) ==> id in transfers && transfers[id] == old(transfers[id])
      ensures var i := tr.identity;
              var complete := "" !in {i.transferId, i.payerFsp, i.payeeFsp, i.amount, i.currency, tr.quoteId, tr.ilpPacket, tr.condition}
                              && crypto.wellFormed(tr.condition);
              && (outcome == Recorded <==> complete && i.transferId !in old(transfers))
              && (outcome == Duplicate <==>
                    complete && i.transferId in old(transfers) && old(transfers)[i.transferId].requestHash == crypto.digest(body))
      ensures outcome == Recorded ==>
                var row := transfers[tr.identity.transferId];
                && row.identity == tr.identity && row.quoteId == tr.quoteId && row.ilpPacket == tr.ilpPacket
                && row.condition == tr.condition && row.requestHash == crypto.digest(body)
      ensures outcome == Recorded ==> tr.identity.transferId !in old(transfers) && transfers[tr.identity.transferId].state == Prepared
    {
      if TablesOk(crypto, Snapshot()) && FromResponse(Snapshot(), tr) { PreparationKeepsTables(crypto, Snapshot(), tr, body); }
      if !CompleteIdentity(tr.identity) || tr.quoteId == "" || tr.ilpPacket == "" || tr.condition == "" {
        return Rejected(MissingIdentity);
      }
      if !crypto.wellFormed(tr.condition) {
        return Rejected(MalformedCondition);
      }
      var id, hash := tr.identity.transferId, crypto.digest(body);
      if id !in transfers {
        transfers := transfers[id := TransferRow(tr.identity, tr.quoteId, tr.ilpPacket, tr.condition, hash, Prepared, "", "")];
        return Recorded;
      }
      return if transfers[id].requestHash != hash then Rejected(IdentityChange) else Duplicate;
    }

    method Finalize(cb: Callback, body: string) returns (outcome: Outcome)
      modifies this
      ensures (Snapshot(), outcome) == ApplyTransferCallback(crypto, old(Snapshot()), cb, body)
      ensures TablesOk(crypto, old(Snapshot())) ==> TablesOk(crypto, Snapshot())
      ensures quotes == old(quotes) && transfers.Keys == old(transfers.Keys)
      ensures var i := cb.identity;
              var known := "" !in {i.transferId, i.payerFsp, i.payeeFsp, i.amount, i.currency} && i.transferId in old(transfers);
              && (outcome == Recorded <==>
                    && known && old(transfers)[i.transferId].identity == i && old(transfers)[i.transferId].state == Prepared
                    && (|| cb.state == Aborted
                        || (cb.state == Committed && cb.fulfilment != ""
                            && crypto.wellFormed(old(transfers)[i.transferId].condition)
                            && crypto.condition(cb.fulfilment) == old(transfers)[i.transferId].condition)))
              && (outcome == Duplicate <==>
                    && known && Terminal(old(transfers)[i.transferId].state)
                    && old(transfers)[i.transferId].callbackHash == crypto.digest(body))
      ensures outcome == Recorded ==>
                transfers[cb.identity.transferId].state == cb.state && transfers[cb.identity.transferId].fulfilment == cb.fulfilment
                && transfers[cb.identity.transferId].callbackHash == crypto.digest(body)
      ensures forall id :: id in transfers && (id != cb.identity.transferId || Terminal(old(transfers[id]).state)) ==>
                             transfers[id] == old(transfers[id])
      ensures outcome == Recorded ==>
                var id := cb.identity.transferId;
                && id in transfers && old(transfers[id]).state == Prepared && Terminal(transfers[id].state)
                && transfers[id].identity == old(transfers[id]).identity == cb.identity
                && (transfers[id].state == Committed ==> crypto.condition(transfers[id].fulfilment) == old(transfers[id]).condition)
    {
      if TablesOk(crypto, Snapshot()) { ConclusionKeepsTables(crypto, Snapshot(), cb, body); }
      if !CompleteIdentity(cb.identity) {
        return Rejected(MissingIdentity);
      }
      var id, hash := cb.identity.transferId, crypto.digest(body);
      if id !in transfers {
        return Rejected(UnknownTransfer);
      }
      var row := transfers[id];
      if Terminal(row.state) {
        return if row.callbackHash == hash then Duplicate else Rejected(ConflictingBody);
      }
      var e := ValidateOutboundCallback(crypto, row.identity, row.state, row.condition, cb);
      if e.Some? {
        return Rejected(e.value);
      }
      transfers := transfers[id := row.(state := cb.state, fulfilment := cb.fulfilment, callbackHash := hash)];
      return Recorded;
    }
  }

  // ---- runs ----

  /** A handler that has just recorded a fresh quote response and is about to initiate the transfer. */
  datatype Handoff = Handoff(quoteId: string, terms: Terms)

  datatype World = World(tables: Tables, handoffs: seq<Handoff>)

  datatype Step =
    | Request(q: Quote, body: string)
    | Respond(quoteId: string, terms: Terms, body: string)
    | Initiate(k: nat, transferId: string, payerFsp: string, payeeFsp: string, body: string)
    | Crash(k: nat)
    | Conclude(cb: Callback, body: string)

  predicate Enabled(w: World, s: Step) {
    match s
    case Initiate(k, _, _, _, _) => k < |w.handoffs|
    case Crash(k) => k < |w.handoffs|
    case _ => true
  }

  function Without(hs: seq<Handoff>, k: nat): seq<Handoff>
    requires k < |hs|
  {
    hs[..k] + hs[k + 1..]
  }

  /** The transfer a hand-off initiates: the response's terms verbatim. */
  function Initiated(h: Handoff, transferId: string, payerFsp: string, payeeFsp: string): Transfer {
    Transfer(Identity(transferId, payerFsp, payeeFsp, h.terms.amount, h.terms.currency), h.quoteId, h.terms.ilpPacket, h.terms.condition)
  }

  function Apply(c: Crypto, w: World, s: Step): World
    requires Enabled(w, s)
  {
    match s
    case Request(q, body) => w.(tables := CreateQuote(c, w.tables, q, body).0)
    case Respond(quoteId, terms, body) =>
      var (tables, outcome) := ApplyQuoteCallback(c, w.tables, quoteId, terms, body);
      World(tables, if outcome == Recorded then w.handoffs + [Handoff(quoteId, terms)] else w.handoffs)
    case Initiate(k, transferId, payerFsp, payeeFsp, body) =>
      World(CreateTransfer(c, w.tables, Initiated(w.handoffs[k], transferId, payerFsp, payeeFsp), body).0, Without(w.handoffs, k))
    case Crash(k) => w.(handoffs := Without(w.handoffs, k))
    case Conclude(cb, body) => w.(tables := ApplyTransferCallback(c, w.tables, cb, body).0)
  }

  ghost predicate Moves(c: Crypto, w: World, w': World) {
    exists s :: Enabled(w, s) && Apply(c, w, s) == w'
  }

  ghost predicate Run(c: Crypto, ws: seq<World>) {
    && ws != [] && ws[0] == World(Tables(map[], map[]), [])
    && forall i :: 0 <= i < |ws| - 1 ==> Moves(c, ws[i], ws[i + 1])
  }

  // ---- the invariant ----

  ghost predicate HandoffsOk(w: World) {
    && (forall k :: 0 <= k < |w.handoffs| ==>
          w.handoffs[k].quoteId in w.tables.quotes && w.tables.quotes[w.handoffs[k].quoteId].response == Some(w.handoffs[k].terms))
    && (forall j, k :: 0 <= j < k < |w.handoffs| ==> w.handoffs[j].quoteId != w.handoffs[k].quoteId)
    && (forall k, id :: 0 <= k < |w.handoffs| && id in w.tables.transfers ==> w.tables.transfers[id].quoteId != w.handoffs[k].quoteId)
  }

  ghost predicate Inv(c: Crypto, w: World) { TablesOk(c, w.tables) && HandoffsOk(w) }

  lemma RespondKeepsInv(c: Crypto, w: World, quoteId: string, terms: Terms, body: string)
    requires Inv(c, w)
    ensures Inv(c, Apply(c, w, Respond(quoteId, terms, body)))
  {
    var w' := Apply(c, w, Respond(quoteId, terms, body));
    ResponseKeepsTables(c, w.tables, quoteId, terms, body);
    if ApplyQuoteCallback(c, w.tables, quoteId, terms, body).1 == Recorded {
      assert w'.handoffs[..|w.handoffs|] == w.handoffs;
      forall k | 0 <= k < |w.handoffs| ensures w.handoffs[k].quoteId != quoteId {
        assert w.tables.quotes[w.handoffs[k].quoteId].response.Some?;
      }
      forall id | id in w.tables.transfers ensures w.tables.transfers[id].quoteId != quoteId {
        assert TransferOk(c, w.tables.quotes, id, w.tables.transfers[id]);
      }
    }
  }

  lemma DropKeepsHandoffs(w: World, k: nat)
    requires HandoffsOk(w) && k < |w.handoffs|
    ensures HandoffsOk(w.(handoffs := Without(w.handoffs, k)))
    ensures forall j :: 0 <= j < |Without(w.handoffs, k)| ==> Without(w.handoffs, k)[j].quoteId != w.handoffs[k].quoteId
  {
    var hs := Without(w.handoffs, k);
    assert forall j :: 0 <= j < |hs| ==> hs[j] == (if j < k then w.handoffs[j] else w.handoffs[j + 1]);
  }

  lemma InitiateKeepsInv(c: Crypto, w: World, k: nat, transferId: string, payerFsp: string, payeeFsp: string, body: string)
    requires Inv(c, w) && k < |w.handoffs|
    ensures Inv(c, Apply(c, w, Initiate(k, transferId, payerFsp, payeeFsp, body)))
  {
    var h := w.handoffs[k];
    DropKeepsHandoffs(w, k);
    assert FromResponse(w.tables, Initiated(h, transferId, payerFsp, payeeFsp));
    PreparationKeepsTables(c, w.tables, Initiated(h, transferId, payerFsp, payeeFsp), body);
  }

  lemma RequestKeepsInv(c: Crypto, w: World, q: Quote, body: string)
    requires Inv(c, w)
    ensures Inv(c, Apply(c, w, Request(q, body)))
  {
    RequestKeepsTables(c, w.tables, q, body);
  }

  lemma ConcludeKeepsInv(c: Crypto, w: World, cb: Callback, body: string)
    requires Inv(c, w)
    ensures Inv(c, Apply(c, w, Conclude(cb, body)))
  {
    ConclusionKeepsTables(c, w.tables, cb, body);
  }

  lemma StepKeepsInv(c: Crypto, w: World, w': World)
    requires Inv(c, w) && Moves(c, w, w')
    ensures Inv(c, w')
  {
    var s :| Enabled(w, s) && Apply(c, w, s) == w';
    match s
    case Request(q, body) => RequestKeepsInv(c, w, q, body);
    case Respond(quoteId, terms, body) => RespondKeepsInv(c, w, quoteId, terms, body);
    case Initiate(k, transferId, payerFsp, payeeFsp, body) => InitiateKeepsInv(c, w, k, transferId, payerFsp, payeeFsp, body);
    case Crash(k) => DropKeepsHandoffs(w, k);
    case Conclude(cb, body) => ConcludeKeepsInv(c, w, cb, body);
  }

  lemma {:induction false} RunKeepsInv(c: Crypto, ws: seq<World>, i: nat)
    requires Run(c, ws) && i < |ws|
    ensures Inv(c, ws[i])
  {
    if i > 0 {
      RunKeepsInv(c, ws, i - 1);
      StepKeepsInv(c, ws[i - 1], ws[i]);
    }
  }

  // ---- what every run guarantees ----

  /** A COMMITTED transfer carries a fulfilment whose condition is the one on its quote, and the exact
      amount and currency that were requested. */
  lemma CommittedIsFulfilled(c: Crypto, ws: seq<World>, i: nat, id: string)
    requires Run(c, ws) && i < |ws| && id in ws[i].tables.transfers && ws[i].tables.transfers[id].state == Committed
    ensures var t, quotes := ws[i].tables.transfers[id], ws[i].tables.quotes;
            && t.quoteId in quotes && quotes[t.quoteId].response.Some?
            && c.condition(t.fulfilment) == quotes[t.quoteId].response.value.condition
            && t.identity.amount == quotes[t.quoteId].amount && t.identity.currency == quotes[t.quoteId].currency
  {
    RunKeepsInv(c, ws, i);
    assert TransferOk(c, ws[i].tables.quotes, id, ws[i].tables.transfers[id]);
    var q := ws[i].tables.transfers[id].quoteId;
    assert QuoteOk(c, q, ws[i].tables.quotes[q]);
  }

  /** Each quote yields at most one transfer. */
  lemma OneTransferPerQuote(c: Crypto, ws: seq<World>, i: nat, id: string, other: string)
    requires Run(c, ws) && i < |ws| && id in ws[i].tables.transfers && other in ws[i].tables.transfers
    requires ws[i].tables.transfers[id].quoteId == ws[i].tables.transfers[other].quoteId
    ensures id == other
  {
    RunKeepsInv(c, ws, i);
  }

  /** How a transfer row may change: not at all, or from PREPARED to a terminal state, keeping its terms. */
  ghost predicate Advances(t: TransferRow, u: TransferRow) {
    t == u || (t.state == Prepared && u == t.(state := u.state, fulfilment := u.fulfilment, callbackHash := u.callbackHash))
  }

  /** How a quote row may change: not at all, or by receiving its response. */
  ghost predicate Answers(q: QuoteRow, r: QuoteRow) {
    q == r || (q.response.None? && r == q.(response := r.response, callbackHash := r.callbackHash))
  }

  lemma StepAdvances(c: Crypto, w: World, w': World)
    requires Moves(c, w, w')
    ensures forall id :: id in w.tables.transfers ==> id in w'.tables.transfers && Advances(w.tables.transfers[id], w'.tables.transfers[id])
    ensures forall q :: q in w.tables.quotes ==> q in w'.tables.quotes && Answers(w.tables.quotes[q], w'.tables.quotes[q])
  {
    var s :| Enabled(w, s) && Apply(c, w, s) == w';
  }

  /** Requests, responses and terminal transfers are never changed or removed. */
  lemma {:induction false} HistoryStands(c: Crypto, ws: seq<World>, i: nat, j: nat, id: string, q: string)
    requires Run(c, ws) && i <= j < |ws|
    ensures id in ws[i].tables.transfers ==>
              id in ws[j].tables.transfers && Advances(ws[i].tables.transfers[id], ws[j].tables.transfers[id])
    ensures q in ws[i].tables.quotes ==>
              q in ws[j].tables.quotes && Answers(ws[i].tables.quotes[q], ws[j].tables.quotes[q])
    decreases j - i
  {
    if i < j {
      HistoryStands(c, ws, i, j - 1, id, q);
      OneStepStands(c, ws[j - 1], ws[j], id, q);
      assert id in ws[i].tables.transfers ==> id in ws[j - 1].tables.transfers;
      assert q in ws[i].tables.quotes ==> q in ws[j - 1].tables.quotes;
    }
  }

  lemma OneStepStands(c: Crypto, w: World, w': World, id: string, q: string)
    requires Moves(c, w, w')
    ensures id in w.tables.transfers ==> id in w'.tables.transfers && Advances(w.tables.transfers[id], w'.tables.transfers[id])
    ensures q in w.tables.quotes ==> q in w'.tables.quotes && Answers(w.tables.quotes[q], w'.tables.quotes[q])
  {
    StepAdvances(c, w, w');
  }

  lemma TerminalForever(c: Crypto, ws: seq<World>, i: nat, j: nat, id: string)
    requires Run(c, ws) && i <= j < |ws| && id in ws[i].tables.transfers && Terminal(ws[i].tables.transfers[id].state)
    ensures id in ws[j].tables.transfers && ws[j].tables.transfers[id] == ws[i].tables.transfers[id]
  {
    HistoryStands(c, ws, i, j, id, "");
  }
}
