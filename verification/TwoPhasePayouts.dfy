/** Disbursement pairs: what a successful payout leaves in the ledger, and where every leg there comes from. */
module TwoPhasePayouts {
  import opened Wrappers
  import opened Intents
  import opened Ledger
  import opened TwoPhase
  import opened TwoPhaseSafety
  import opened TwoPhaseTheorems

  /** The fee leg between the NGN accounts, for the fee, on the NGN ledger. */
  predicate FeePaid(t: Transfer, i: PayoutInput) {
    && t.debit == i.ngnDebit && t.credit == i.ngnCredit && t.amount == i.feeMinor
    && t.ledger == i.ngnLedger && t.code == i.feeCode && t.kind.Single? && t.pendingId.None?
  }

  /** The cost leg between the USD accounts, for the cost, on the USD ledger. */
  predicate CostPaid(t: Transfer, i: PayoutInput) {
    && t.debit == i.usdDebit && t.credit == i.usdCredit && t.amount == i.costMinor
    && t.ledger == i.usdLedger && t.code == i.costCode && t.kind.Single? && t.pendingId.None?
  }

  predicate Paid(b: Books, i: PayoutInput) {
    var fee, cost := TransferId(FeeNs, i.applicationId), TransferId(CostNs, i.applicationId);
    && fee in b.transfers && FeePaid(b.transfers[fee], i)
    && cost in b.transfers && CostPaid(b.transfers[cost], i)
  }

  /** A payout that reports success is in the ledger, leg by leg. */
  lemma PaidIsPaid(cfg: Config, ws: seq<World>, ss: seq<Step>, k: nat, pid: nat)
    requires Behaviour(cfg, ws, ss) && k < |ws| && pid in ws[k].procs
    requires ws[k].procs[pid].Payout? && ws[k].procs[pid].step.Paid?
    ensures Paid(ws[k].db.books, ws[k].procs[pid].input)
  {
    InvAlways(cfg, ws, ss, k);
    assert ProcOk(cfg, ws[k].db, ws[k].procs[pid]);
  }

  /** Two payouts of one application that both report success paid the same two legs, which the ledger holds
      once: a retry with other amounts, accounts, ledgers or codes fails instead of paying again. */
  lemma DisbursedOnce(cfg: Config, ws: seq<World>, ss: seq<Step>, k: nat, a: nat, b: nat)
    requires Behaviour(cfg, ws, ss) && k < |ws| && a in ws[k].procs && b in ws[k].procs
    requires ws[k].procs[a].Payout? && ws[k].procs[a].step.Paid?
    requires ws[k].procs[b].Payout? && ws[k].procs[b].step.Paid?
    requires ws[k].procs[a].input.applicationId == ws[k].procs[b].input.applicationId
    ensures var i, j := ws[k].procs[a].input, ws[k].procs[b].input;
            && Paid(ws[k].db.books, i) && Paid(ws[k].db.books, j)
            && i.feeMinor == j.feeMinor && i.ngnDebit == j.ngnDebit && i.ngnCredit == j.ngnCredit
            && i.costMinor == j.costMinor && i.usdDebit == j.usdDebit && i.usdCredit == j.usdCredit
            && i.ngnLedger == j.ngnLedger && i.usdLedger == j.usdLedger && i.feeCode == j.feeCode && i.costCode == j.costCode
  {
    PaidIsPaid(cfg, ws, ss, k, a);
    PaidIsPaid(cfg, ws, ss, k, b);
  }

  // ---- where a leg comes from ----

  /** The checks that come before any write. */
  ghost predicate Checked(i: PayoutInput) {
    && i.applicationId != "" && i.rateConfirmed
    && i.ngnLedger > 0 && i.usdLedger > 0 && i.feeCode > 0 && i.costCode > 0
    && i.feeMinor > 0 && i.costMinor > 0 && i.costNgnEquivalent > 0
    && 0 !in {i.ngnDebit, i.ngnCredit, i.usdDebit, i.usdCredit}
    && i.ngnDebit != i.ngnCredit && i.usdDebit != i.usdCredit
  }

  predicate StartsPayout(s: Step, i: PayoutInput) { s.Start? && s.proc.Payout? && s.proc.input == i }

  lemma StartedChecked(cfg: Config, w: World, s: Step, w': World)
    requires Next(cfg, w, s, w') && s.Start? && s.proc.Payout? && !w'.procs[s.pid].step.Refused?
    ensures Checked(w'.procs[s.pid].input) && StartsPayout(s, w'.procs[s.pid].input)
  {
  }

  /** A payout that has not been refused was started with checked input; a refused one makes no call. */
  lemma {:induction false} PayoutStarted(cfg: Config, ws: seq<World>, ss: seq<Step>, k: nat, pid: nat) returns (j: nat)
    requires Behaviour(cfg, ws, ss) && k < |ws| && pid in ws[k].procs
    requires ws[k].procs[pid].Payout? && !ws[k].procs[pid].step.Refused?
    ensures j < k && StartsPayout(ss[j], ws[k].procs[pid].input) && Checked(ws[k].procs[pid].input)
  {
    var w, s, w' := ws[k - 1], ss[k - 1], ws[k];
    assert Next(cfg, w, s, w');
    if s.Start? && s.pid == pid {
      StartedChecked(cfg, w, s, w');
      j := k - 1;
    } else {
      j := PayoutStarted(cfg, ws, ss, k - 1, pid);
    }
  }

  /** Only a payout that is about to send enters a leg, and the leg is its own. */
  lemma LegIsSent(cfg: Config, w: World, s: Step, w': World, t: TransferId)
    requires Inv(cfg, w) && Next(cfg, w, s, w') && t !in w.db.books.transfers && t in w'.db.books.transfers
    requires t.ns in {FeeNs, CostNs}
    ensures s.Run? && w.procs[s.pid].Payout? && w.procs[s.pid].step.Send? && t.key == w.procs[s.pid].input.applicationId
    ensures t.ns.FeeNs? ==> FeePaid(w'.db.books.transfers[t], w.procs[s.pid].input)
    ensures t.ns.CostNs? ==> CostPaid(w'.db.books.transfers[t], w.procs[s.pid].input)
  {
    if SendsPair(w, s) {
      PairIsOwn(cfg, w.db, w.procs[s.pid], s.reply, w'.db, t);
    } else {
      OthersEnterNoLeg(cfg, w, s, w', t);
    }
  }

  predicate SendsPair(w: World, s: Step) {
    s.Run? && s.pid in w.procs && w.procs[s.pid].Payout? && w.procs[s.pid].step.Send?
  }

  lemma OthersEnterNoLeg(cfg: Config, w: World, s: Step, w': World, t: TransferId)
    requires Inv(cfg, w) && Next(cfg, w, s, w') && !SendsPair(w, s) && t.ns in {FeeNs, CostNs} && t !in w.db.books.transfers
    ensures t !in w'.db.books.transfers
  {
    if s.Run? && w.procs[s.pid].Work? {
      WorkEntersNoLeg(cfg, w.db, w.procs[s.pid], s.reply, w'.db, t);
    }
  }

  lemma WorkEntersNoLeg(cfg: Config, db: Db, p: Proc, r: Reply, db': Db, t: TransferId)
    requires ProcOk(cfg, db, p) && p.Work? && Exec(db, CallAt(p), r, db') && t.ns in {FeeNs, CostNs} && t !in db.books.transfers
    ensures t !in db'.books.transfers
  {
  }

  lemma PairIsOwn(cfg: Config, db: Db, p: Proc, r: Reply, db': Db, t: TransferId)
    requires DbOk(cfg, db) && p.Payout? && p.step.Send? && Exec(db, CallAt(p), r, db')
    requires t !in db.books.transfers && t in db'.books.transfers && t.ns in {FeeNs, CostNs}
    ensures t.key == p.input.applicationId
    ensures t.ns.FeeNs? ==> FeePaid(db'.books.transfers[t], p.input)
    ensures t.ns.CostNs? ==> CostPaid(db'.books.transfers[t], p.input)
  {
    PairEntered(cfg, db, FeeLeg(p.input), CostLeg(p.input), r, db');
  }

  lemma LegOneMore(cfg: Config, ws: seq<World>, ss: seq<Step>, k: nat, t: TransferId) returns (j: nat, i: PayoutInput)
    requires Behaviour(cfg, ws, ss) && 0 < k < |ws| && t in ws[k].db.books.transfers && t !in ws[k - 1].db.books.transfers
    requires t.ns in {FeeNs, CostNs}
    ensures j < k && StartsPayout(ss[j], i) && Checked(i) && t.key == i.applicationId
    ensures if t.ns.FeeNs? then FeePaid(ws[k].db.books.transfers[t], i) else CostPaid(ws[k].db.books.transfers[t], i)
  {
    InvAlways(cfg, ws, ss, k - 1);
    assert Next(cfg, ws[k - 1], ss[k - 1], ws[k]);
    LegIsSent(cfg, ws[k - 1], ss[k - 1], ws[k], t);
    i := ws[k - 1].procs[ss[k - 1].pid].input;
    j := PayoutStarted(cfg, ws, ss, k - 1, ss[k - 1].pid);
  }

  /** Every disbursement leg in the ledger was sent by a payout that had been started with checked input, and
      moves that input's amount between its accounts: input that fails a check enters nothing. */
  lemma {:induction false} LegIsChecked(cfg: Config, ws: seq<World>, ss: seq<Step>, k: nat, t: TransferId)
    returns (j: nat, i: PayoutInput)
    requires Behaviour(cfg, ws, ss) && k < |ws| && t in ws[k].db.books.transfers && t.ns in {FeeNs, CostNs}
    ensures j < k && StartsPayout(ss[j], i) && Checked(i) && t.key == i.applicationId
    ensures if t.ns.FeeNs? then FeePaid(ws[k].db.books.transfers[t], i) else CostPaid(ws[k].db.books.transfers[t], i)
  {
    assert k > 0;
    if t in ws[k - 1].db.books.transfers {
      TransfersImmutable(cfg, ws, ss, k - 1, k, t);
      j, i := LegIsChecked(cfg, ws, ss, k - 1, t);
    } else {
      j, i := LegOneMore(cfg, ws, ss, k, t);
    }
  }

  // ---- one payout alone ----

  /** A cluster that answers every create and refuses none but a resolution of nothing. */
  function Asked(b: Books, t: Transfer): (Books, Status) {
    if t.id in b.transfers then (b, Exists) else if Admissible(b, t) then (Insert(b, t), Created) else (b, Rejected)
  }

  function Batch(b: Books, t1: Transfer, t2: Transfer): (Books, Reply) {
    var (b1, s1) := Asked(b, t1);
    var (b2, s2) := Asked(b1, t2);
    (b2, Answers(s1, s2))
  }

  lemma BatchIsPossible(db: Db, t1: Transfer, t2: Transfer)
    ensures Exec(db, CreatePair(t1, t2), Batch(db.books, t1, t2).1, db.(books := Batch(db.books, t1, t2).0))
  {
  }

  /** One lookup, when the payout is at one. */
  function Looked(cfg: Config, b: Books, p: Proc): Proc {
    if p.Payout? && CallAt(p).Lookup? then
      var t := CallAt(p).transferId;
      Advance(cfg, p, if t in b.transfers then Found(b.transfers[t]) else Missing)
    else p
  }

  /** The ledger and the answer after a payout that nothing disturbs: the batch and at most two lookups. */
  function PayoutAlone(cfg: Config, b: Books, i: PayoutInput): (Books, Proc) {
    var p := BeginPayout(i);
    if p.step.Refused? then (b, p)
    else
      var (b', r) := Batch(b, FeeLeg(i), CostLeg(i));
      (b', Looked(cfg, b', Looked(cfg, b', Advance(cfg, p, r))))
  }

  predicate FeeFits(b: Books, i: PayoutInput) {
    var t := TransferId(FeeNs, i.applicationId);
    t in b.transfers ==> FeePaid(b.transfers[t], i)
  }

  predicate CostFits(b: Books, i: PayoutInput) {
    var t := TransferId(CostNs, i.applicationId);
    t in b.transfers ==> CostPaid(b.transfers[t], i)
  }

  /** Nothing but the two legs is new, and what was there stands. */
  predicate OnlyLegs(b: Books, b': Books, i: PayoutInput) {
    var legs := {TransferId(FeeNs, i.applicationId), TransferId(CostNs, i.applicationId)};
    && b'.transfers.Keys == b.transfers.Keys + legs && b'.closed == b.closed
    && forall t :: t in b.transfers ==> b'.transfers[t] == b.transfers[t]
  }

  lemma BatchEnters(b: Books, i: PayoutInput)
    ensures var b' := Batch(b, FeeLeg(i), CostLeg(i)).0;
            && OnlyLegs(b, b', i)
            && (FeeLeg(i).id !in b.transfers ==> FeePaid(b'.transfers[FeeLeg(i).id], i))
            && (CostLeg(i).id !in b.transfers ==> CostPaid(b'.transfers[CostLeg(i).id], i))
    ensures Batch(b, FeeLeg(i), CostLeg(i)).1
            == Answers(if FeeLeg(i).id in b.transfers then Exists else Created, if CostLeg(i).id in b.transfers then Exists else Created)
  {
  }

  lemma FeeSameContent(b: Books, i: PayoutInput)
    requires BooksOk(b) && FeeLeg(i).id in b.transfers
    ensures SameContent(b.transfers[FeeLeg(i).id], FeeLeg(i)) <==> FeePaid(b.transfers[FeeLeg(i).id], i)
  {
    assert WellFormed(b.transfers[FeeLeg(i).id]);
  }

  lemma CostSameContent(b: Books, i: PayoutInput)
    requires BooksOk(b) && CostLeg(i).id in b.transfers
    ensures SameContent(b.transfers[CostLeg(i).id], CostLeg(i)) <==> CostPaid(b.transfers[CostLeg(i).id], i)
  {
    assert WellFormed(b.transfers[CostLeg(i).id]);
  }

  lemma LooksAnswer(cfg: Config, b: Books, i: PayoutInput, fee: bool, cost: bool)
    requires FeeLeg(i).id in b.transfers && CostLeg(i).id in b.transfers
    ensures var r := Answers(if fee then Exists else Created, if cost then Exists else Created);
            var q := Looked(cfg, b, Looked(cfg, b, Advance(cfg, Payout(i, Send), r)));
            q == Payout(i, if (fee ==> SameContent(b.transfers[FeeLeg(i).id], FeeLeg(i)))
                              && (cost ==> SameContent(b.transfers[CostLeg(i).id], CostLeg(i))) then PayoutPc.Paid else Refused)
  {
  }

  /** Input that fails a check enters nothing and is refused. Otherwise each leg whose id is free is entered,
      and the payout succeeds exactly when the legs that were there before are its own: a retry succeeds and
      enters nothing, and a conflict on one leg is refused although the other leg may just have been entered. */
  lemma PayoutAnswers(cfg: Config, b: Books, i: PayoutInput)
    requires BooksOk(b)
    ensures var (end, p) := PayoutAlone(cfg, b, i);
            && p.Payout?
            && (!Checked(i) ==> end == b && p.step.Refused?)
            && (Checked(i) ==> OnlyLegs(b, end, i))
            && (Checked(i) && FeeFits(b, i) && CostFits(b, i) ==> p.step.Paid? && Paid(end, i))
            && (Checked(i) && !(FeeFits(b, i) && CostFits(b, i)) ==> p.step.Refused?)
  {
    if FeeLeg(i).id in b.transfers {
      FeeSameContent(b, i);
    }
    if CostLeg(i).id in b.transfers {
      CostSameContent(b, i);
    }
    BatchEnters(b, i);
    if Checked(i) {
      LooksAnswer(cfg, PayoutAlone(cfg, b, i).0, i, FeeLeg(i).id in b.transfers, CostLeg(i).id in b.transfers);
    }
  }
}
