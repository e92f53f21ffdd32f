/** What happens to accepted callbacks and to quotes later in a run of MojaloopOutbound: replays at any
    time, and the quotes whose transfer is never created. */
module MojaloopLater {
  import opened Wrappers
  import opened Mojaloop
  import opened MojaloopOutbound

  // ---- replays ----

  /** Once a quote's response is recorded, any later response to it is a duplicate when its body is the
      recorded one and a conflict otherwise, whatever else happened since. */
  lemma LaterResponses(c: Crypto, ws: seq<World>, i: nat, j: nat, quoteId: string, terms: Terms, body: string, terms': Terms, body': string)
    requires Run(c, ws) && i < j < |ws| && ws[i + 1] == Apply(c, ws[i], Respond(quoteId, terms, body))
    requires ApplyQuoteCallback(c, ws[i].tables, quoteId, terms, body).1 == Recorded
    ensures ApplyQuoteCallback(c, ws[j].tables, quoteId, terms', body')
            == (ws[j].tables, if c.digest(body') == c.digest(body) then Duplicate else Rejected(ConflictingBody))
  {
    HistoryStands(c, ws, i + 1, j, "", quoteId);
    RunKeepsInv(c, ws, j);
    assert Answers(ws[i + 1].tables.quotes[quoteId], ws[j].tables.quotes[quoteId]);
    assert QuoteOk(c, quoteId, ws[j].tables.quotes[quoteId]);
  }

  /** Once a transfer is terminal, any later callback about it with a complete identity is a duplicate or a
      conflict in the same way. */
  lemma LaterConclusions(c: Crypto, ws: seq<World>, i: nat, j: nat, cb: Callback, body: string, cb': Callback, body': string)
    requires Run(c, ws) && i < j < |ws| && ws[i + 1] == Apply(c, ws[i], Conclude(cb, body))
    requires ApplyTransferCallback(c, ws[i].tables, cb, body).1 == Recorded
    requires CompleteIdentity(cb'.identity) && cb'.identity.transferId == cb.identity.transferId
    ensures ApplyTransferCallback(c, ws[j].tables, cb', body')
            == (ws[j].tables, if c.digest(body') == c.digest(body) then Duplicate else Rejected(ConflictingBody))
  {
    TerminalForever(c, ws, i + 1, j, cb.identity.transferId);
  }

  // ---- stranded quotes ----

  /** A quote is stranded when its response is recorded and the handler that would initiate its transfer
      is gone without having done so. */
  ghost predicate Stranded(w: World, q: string) {
    && q in w.tables.quotes && w.tables.quotes[q].response.Some?
    && (forall id :: id in w.tables.transfers ==> w.tables.transfers[id].quoteId != q)
    && (forall k :: 0 <= k < |w.handoffs| ==> w.handoffs[k].quoteId != q)
  }

  lemma StrandedKeepsOthers(w: World, q: string, k: nat)
    requires Stranded(w, q) && k < |w.handoffs|
    ensures w.handoffs[k].quoteId != q && forall j :: 0 <= j < |Without(w.handoffs, k)| ==> Without(w.handoffs, k)[j].quoteId != q
  {
    var hs := Without(w.handoffs, k);
    assert forall j :: 0 <= j < |hs| ==> hs[j] == (if j < k then w.handoffs[j] else w.handoffs[j + 1]);
  }

  lemma StrandedThroughResponse(c: Crypto, w: World, quoteId: string, terms: Terms, body: string, q: string)
    requires Stranded(w, q)
    ensures Stranded(Apply(c, w, Respond(quoteId, terms, body)), q)
  {
  }

  lemma StrandedThroughInitiation(c: Crypto, w: World, k: nat, transferId: string, payerFsp: string, payeeFsp: string, body: string, q: string)
    requires Stranded(w, q) && k < |w.handoffs|
    ensures Stranded(Apply(c, w, Initiate(k, transferId, payerFsp, payeeFsp, body)), q)
  {
    StrandedKeepsOthers(w, q, k);
  }

  lemma StrandedThroughConclusion(c: Crypto, w: World, cb: Callback, body: string, q: string)
    requires Stranded(w, q)
    ensures Stranded(Apply(c, w, Conclude(cb, body)), q)
  {
  }

  lemma StrandedStep(c: Crypto, w: World, w': World, q: string)
    requires Stranded(w, q) && Moves(c, w, w')
    ensures Stranded(w', q)
  {
    var s :| Enabled(w, s) && Apply(c, w, s) == w';
    match s
    case Request(_, _) =>
    case Respond(quoteId, terms, body) => StrandedThroughResponse(c, w, quoteId, terms, body, q);
    case Initiate(k, transferId, payerFsp, payeeFsp, body) =>
      StrandedThroughInitiation(c, w, k, transferId, payerFsp, payeeFsp, body, q);
    case Crash(k) => StrandedKeepsOthers(w, q, k);
    case Conclude(cb, body) => StrandedThroughConclusion(c, w, cb, body, q);
  }

  /** A stranded quote never gets a transfer: replays of its response are duplicates and initiate nothing. */
  lemma {:induction false} StrandedForever(c: Crypto, ws: seq<World>, i: nat, j: nat, q: string)
    requires Run(c, ws) && i <= j < |ws| && Stranded(ws[i], q)
    ensures Stranded(ws[j], q)
    decreases j - i
  {
    if i < j {
      StrandedForever(c, ws, i, j - 1, q);
      StrandedStep(c, ws[j - 1], ws[j], q);
    }
  }

  ghost predicate HasTransfer(w: World, q: string) {
    exists id :: id in w.tables.transfers && w.tables.transfers[id].quoteId == q
  }

  ghost predicate HasHandoff(w: World, q: string) {
    exists k :: 0 <= k < |w.handoffs| && w.handoffs[k].quoteId == q
  }

  ghost predicate CanStillTransfer(c: Crypto, ws: seq<World>, q: string) {
    exists us: seq<World> :: Run(c, us) && ws <= us && HasTransfer(us[|us| - 1], q)
  }

  lemma Extend(c: Crypto, ws: seq<World>, s: Step) returns (us: seq<World>)
    requires Run(c, ws) && Enabled(ws[|ws| - 1], s)
    ensures Run(c, us) && us == ws + [Apply(c, ws[|ws| - 1], s)]
  {
    us := ws + [Apply(c, ws[|ws| - 1], s)];
    forall i | 0 <= i < |us| - 1 ensures Moves(c, us[i], us[i + 1]) {
      if i < |ws| - 1 {
        assert Moves(c, ws[i], ws[i + 1]);
      }
    }
  }

  lemma {:induction false} FreshId(ids: set<string>) returns (unused: string)
    ensures unused != "" && forall x :: x in ids ==> |x| < |unused|
  {
    if ids == {} {
      unused := "x";
    } else {
      var x :| x in ids;
      var longer := FreshId(ids - {x});
      unused := if |x| < |longer| then longer else x + "x";
      forall y | y in ids ensures |y| < |unused| {
        assert y == x || y in ids - {x};
      }
    }
  }

  /** A live hand-off initiates the transfer: an unused transfer id and configured participants suffice. */
  lemma HandoffInitiates(c: Crypto, ws: seq<World>, q: string, payerFsp: string, payeeFsp: string)
    requires Run(c, ws) && HasHandoff(ws[|ws| - 1], q) && payerFsp != "" && payeeFsp != ""
    ensures CanStillTransfer(c, ws, q)
  {
    var w := ws[|ws| - 1];
    var k :| 0 <= k < |w.handoffs| && w.handoffs[k].quoteId == q;
    RunKeepsInv(c, ws, |ws| - 1);
    assert QuoteOk(c, q, w.tables.quotes[q]);
    var id := FreshId(w.tables.transfers.Keys);
    var us := Extend(c, ws, Initiate(k, id, payerFsp, payeeFsp, ""));
    var tr := Initiated(w.handoffs[k], id, payerFsp, payeeFsp);
    assert CreateTransfer(c, w.tables, tr, "").1 == Recorded;
    assert us[|us| - 1].tables.transfers[id].quoteId == q;
  }

  /** With participants configured, a quote whose response is recorded can have a transfer on some
      continuation if and only if it has one already or the handler that recorded the response is still
      about to initiate it. */
  lemma TransferPossibleExactly(c: Crypto, ws: seq<World>, q: string, payerFsp: string, payeeFsp: string)
    requires Run(c, ws) && q in ws[|ws| - 1].tables.quotes && ws[|ws| - 1].tables.quotes[q].response.Some?
    requires payerFsp != "" && payeeFsp != ""
    ensures CanStillTransfer(c, ws, q) <==> HasTransfer(ws[|ws| - 1], q) || HasHandoff(ws[|ws| - 1], q)
  {
    if HasTransfer(ws[|ws| - 1], q) {
      assert ws <= ws;
    } else if HasHandoff(ws[|ws| - 1], q) {
      HandoffInitiates(c, ws, q, payerFsp, payeeFsp);
    } else {
      forall us: seq<World> | Run(c, us) && ws <= us ensures !HasTransfer(us[|us| - 1], q) {
        StrandedForever(c, us, |ws| - 1, |us| - 1, q);
      }
    }
  }

  predicate CompleteQuote(q: Quote) {
    q.quoteId != "" && q.payerFsp != "" && q.payeeFsp != "" && q.amount != "" && q.currency != ""
  }

  /** Any quote can be stranded: its response is recorded and the handler stops before initiating. The same
      tables result when the commit of the response takes effect but is reported as failed. */
  lemma CrashStrands(c: Crypto, q: Quote, terms: Terms, body: string, answer: string) returns (ws: seq<World>)
    requires CompleteQuote(q) && ValidateQuoteResponse(c, q.amount, q.currency, terms).None?
    ensures Run(c, ws) && Stranded(ws[|ws| - 1], q.quoteId) && !CanStillTransfer(c, ws, q.quoteId)
  {
    ws := [World(Tables(map[], map[]), [])];
    ws := Extend(c, ws, Request(q, body));
    ws := Extend(c, ws, Respond(q.quoteId, terms, answer));
    assert ws[|ws| - 1].handoffs == [Handoff(q.quoteId, terms)];
    ws := Extend(c, ws, Crash(0));
    TransferPossibleExactly(c, ws, q.quoteId, "payer", "payee");
  }
}
