/** The transfer ledger as this system's environment: deterministic ids, two-phase transfers and the
    books they are entered in (internal/ledger/ledger.go, deterministicID in orchestrator.go).

    What is assumed of the cluster is exactly what Creates and Expires say: an id names at most one
    transfer for ever, a pending transfer is closed at most once (by a post, by a void or by
    expiry), and a post moves the whole amount of its pending transfer. The last point is an
    assumption because Post sends no amount (ledger.go:86). */
module Ledger {
  import opened Wrappers
  import Text

  datatype Namespace = PendingNs | PostNs | VoidNs | FeeNs | CostNs

  /** A deterministic transfer id, named by what is hashed to obtain it. Equating an id with its
      preimage is the no-collision assumption on the truncated digest. */
  datatype TransferId = TransferId(ns: Namespace, key: string)

  function Label(ns: Namespace): string {
    match ns
    case PendingNs => "pending"
    case PostNs => "post"
    case VoidNs => "void"
    case FeeNs => "cvff-fee-ngn"
    case CostNs => "cvff-cost-usd"
  }

  function Preimage(id: TransferId): string {
    Label(id.ns) + [':'] + id.key
  }

  /** Two ids share a preimage only when namespace and key agree, whatever text the key is. */
  lemma PreimageInjective(a: TransferId, b: TransferId)
    requires Preimage(a) == Preimage(b)
    ensures a == b
  {
    Text.JoinInjective(Label(a.ns), a.key, Label(b.ns), b.key, ':');
    assert Label(PendingNs)[1] == 'e' && Label(PostNs)[1] == 'o' && Label(VoidNs)[0] == 'v';
    assert Label(FeeNs)[5] == 'f' && Label(CostNs)[5] == 'c';
  }

  datatype Kind = Pending | PostPending | VoidPending | Single

  /** Account number 0 is the cluster's "no account". */
  datatype Transfer = Transfer(
    id: TransferId, debit: nat, credit: nat, amount: nat,
    pendingId: Option<TransferId>, ledger: nat, code: nat, kind: Kind)

  datatype Closure = Expired | ClosedBy(id: TransferId)

  datatype Books = Books(
    transfers: map<TransferId, Transfer>,
    closed: map<TransferId, Closure>,
    debits: map<nat, nat>,
    credits: map<nat, nat>)

  datatype Status = Created | Exists | Rejected

  function Balance(m: map<nat, nat>, account: nat): nat {
    if account in m then m[account] else 0
  }

  function Credit(m: map<nat, nat>, account: nat, amount: nat): map<nat, nat> {
    m[account := Balance(m, account) + amount]
  }

  predicate Resolves(t: Transfer) { t.kind.PostPending? || t.kind.VoidPending? }

  /** Transfers that move money for good. */
  predicate Moves(t: Transfer) { t.kind.PostPending? || t.kind.Single? }

  predicate Admissible(b: Books, t: Transfer) {
    && t.id !in b.transfers
    && (Resolves(t) ==>
          && t.pendingId.Some?
          && t.pendingId.value in b.transfers
          && b.transfers[t.pendingId.value].kind == Pending
          && t.pendingId.value !in b.closed)
  }

  /** What the cluster keeps of a request: a post or void takes over the pending transfer's
      accounts and amount. */
  function Stored(b: Books, t: Transfer): Transfer
    requires Admissible(b, t)
  {
    if Resolves(t) then
      var p := b.transfers[t.pendingId.value];
      t.(debit := p.debit, credit := p.credit, amount := p.amount)
    else t
  }

  function Insert(b: Books, t: Transfer): Books
    requires Admissible(b, t)
  {
    var s := Stored(b, t);
    Books(
      b.transfers[t.id := s],
      if Resolves(t) then b.closed[t.pendingId.value := ClosedBy(t.id)] else b.closed,
      if Moves(t) then Credit(b.debits, s.debit, s.amount) else b.debits,
      if Moves(t) then Credit(b.credits, s.credit, s.amount) else b.credits)
  }

  /** The cluster's answers to one create request. It may reject for reasons of its own. */
  predicate Creates(b: Books, t: Transfer, s: Status, b': Books) {
    match s
    case Created => Admissible(b, t) && b' == Insert(b, t)
    case Exists => t.id in b.transfers && b' == b
    case Rejected => b' == b
  }

  /** A request whose reply was lost: it took effect or it did not. */
  predicate CreatesUnseen(b: Books, t: Transfer, b': Books) {
    b' == b || (Admissible(b, t) && b' == Insert(b, t))
  }

  predicate Expires(b: Books, id: TransferId, b': Books) {
    && id in b.transfers && b.transfers[id].kind == Pending && id !in b.closed
    && b' == b.(closed := b.closed[id := Expired])
  }

  /** The comparison that tells an idempotent retry from a conflict (verifyExistingTransfer). */
  predicate SameContent(existing: Transfer, attempted: Transfer) {
    && existing.debit == attempted.debit
    && existing.credit == attempted.credit
    && existing.amount == attempted.amount
    && existing.pendingId == attempted.pendingId
    && existing.ledger == attempted.ledger
    && existing.code == attempted.code
  }

  /** The argument checks made before a transfer is sent (validateTransfer). */
  predicate ValidTransfer(debit: nat, credit: nat, amount: nat) {
    debit != 0 && credit != 0 && debit != credit && amount != 0
  }

  function ReserveTransfer(key: string, debit: nat, credit: nat, amount: nat, ledger: nat, code: nat): Transfer {
    Transfer(TransferId(PendingNs, key), debit, credit, amount, None, ledger, code, Pending)
  }

  function PostTransfer(key: string, ledger: nat, code: nat): Transfer {
    Transfer(TransferId(PostNs, key), 0, 0, 0, Some(TransferId(PendingNs, key)), ledger, code, PostPending)
  }

  function VoidTransfer(key: string, ledger: nat, code: nat): Transfer {
    Transfer(TransferId(VoidNs, key), 0, 0, 0, Some(TransferId(PendingNs, key)), ledger, code, VoidPending)
  }

  // ---- what the books keep, whatever is entered ----

  /** Ids are keys, closures and resolving transfers point at each other, and each namespace holds
      its own kind of transfer. */
  ghost predicate BooksOk(b: Books) {
    && (forall t :: t in b.transfers ==> b.transfers[t].id == t && WellFormed(b.transfers[t]))
    && (forall t :: t in b.transfers && Resolves(b.transfers[t]) ==> ResolvesItsPending(b, t))
    && (forall p :: p in b.closed ==> ClosureOk(b, p))
  }

  predicate WellFormed(t: Transfer) {
    match t.id.ns
    case PendingNs => t.kind.Pending? && t.debit != 0 && t.credit != 0 && t.amount != 0
    case PostNs => t.kind.PostPending? && t.pendingId == Some(TransferId(PendingNs, t.id.key))
    case VoidNs => t.kind.VoidPending? && t.pendingId == Some(TransferId(PendingNs, t.id.key))
    case FeeNs => t.kind.Single?
    case CostNs => t.kind.Single?
  }

  predicate ResolvesItsPending(b: Books, t: TransferId)
    requires t in b.transfers
  {
    var p := TransferId(PendingNs, t.key);
    && p in b.transfers && p in b.closed && b.closed[p] == ClosedBy(t)
    && b.transfers[t].debit == b.transfers[p].debit
    && b.transfers[t].credit == b.transfers[p].credit
    && b.transfers[t].amount == b.transfers[p].amount
  }

  predicate ClosureOk(b: Books, p: TransferId)
    requires p in b.closed
  {
    && p in b.transfers && b.transfers[p].kind.Pending?
    && (b.closed[p].ClosedBy? ==>
          && b.closed[p].id in b.transfers
          && b.transfers[b.closed[p].id].pendingId == Some(p)
          && Resolves(b.transfers[b.closed[p].id]))
  }

  lemma InsertKeepsBooks(b: Books, t: Transfer)
    requires BooksOk(b) && Admissible(b, t) && WellFormed(t)
    ensures BooksOk(Insert(b, t))
  {
    var b' := Insert(b, t);
    forall x | x in b'.transfers && Resolves(b'.transfers[x]) ensures ResolvesItsPending(b', x) {
      if x != t.id {
        assert ResolvesItsPending(b, x);
      }
    }
    forall p | p in b'.closed ensures ClosureOk(b', p) {
      if p in b.closed {
        assert ClosureOk(b, p);
      }
    }
  }

  lemma ExpiryKeepsBooks(b: Books, id: TransferId, b': Books)
    requires BooksOk(b) && Expires(b, id, b')
    ensures BooksOk(b')
  {
    forall x | x in b'.transfers && Resolves(b'.transfers[x]) ensures ResolvesItsPending(b', x) {
      assert ResolvesItsPending(b, x);
    }
    forall p | p in b'.closed ensures ClosureOk(b', p) {
      if p != id {
        assert ClosureOk(b, p);
      }
    }
  }

  /** A pending transfer is posted or voided, never both, and then is itself in the books. */
  lemma PostExcludesVoid(b: Books, key: string)
    requires BooksOk(b)
    ensures !(TransferId(PostNs, key) in b.transfers && TransferId(VoidNs, key) in b.transfers)
    ensures TransferId(PostNs, key) in b.transfers || TransferId(VoidNs, key) in b.transfers
            ==> TransferId(PendingNs, key) in b.transfers
  {
    var po, vo := TransferId(PostNs, key), TransferId(VoidNs, key);
    assert po in b.transfers ==> ResolvesItsPending(b, po);
    assert vo in b.transfers ==> ResolvesItsPending(b, vo);
  }

  /** A retried Reserve is recognised exactly when the stored reservation is the one attempted; a
      Post or Void answered "exists" never is, because the request carries zeros where the books
      carry the pending transfer's accounts and amount. */
  lemma ReplayRecognition(b: Books, key: string, debit: nat, credit: nat, amount: nat, ledger: nat, code: nat)
    requires BooksOk(b)
    ensures TransferId(PendingNs, key) in b.transfers && b.transfers[TransferId(PendingNs, key)].pendingId == None ==>
              (SameContent(b.transfers[TransferId(PendingNs, key)],
                           ReserveTransfer(key, debit, credit, amount, ledger, code))
               <==> b.transfers[TransferId(PendingNs, key)] == ReserveTransfer(key, debit, credit, amount, ledger, code))
    ensures TransferId(PostNs, key) in b.transfers ==>
              !SameContent(b.transfers[TransferId(PostNs, key)], PostTransfer(key, ledger, code))
    ensures TransferId(VoidNs, key) in b.transfers ==>
              !SameContent(b.transfers[TransferId(VoidNs, key)], VoidTransfer(key, ledger, code))
  {
    var po, vo := TransferId(PostNs, key), TransferId(VoidNs, key);
    assert po in b.transfers ==> ResolvesItsPending(b, po);
    assert vo in b.transfers ==> ResolvesItsPending(b, vo);
  }

  // ---- balances ----

  datatype Side = Debits | Credits | Everywhere

  /** What one transfer adds to one side of one account; Everywhere ignores the account. */
  function Share(t: Transfer, side: Side, account: nat): nat {
    if !Moves(t) then 0
    else match side
      case Debits => if t.debit == account then t.amount else 0
      case Credits => if t.credit == account then t.amount else 0
      case Everywhere => t.amount
  }

  ghost function Total(m: map<TransferId, Transfer>, side: Side, account: nat): nat
    decreases |m|
  {
    if m == map[] then 0
    else
      var k :| k in m;
      Share(m[k], side, account) + Total(m - {k}, side, account)
  }

  lemma {:induction false} TotalRemove(m: map<TransferId, Transfer>, k: TransferId, side: Side, account: nat)
    requires k in m
    ensures Total(m, side, account) == Share(m[k], side, account) + Total(m - {k}, side, account)
    decreases |m|
  {
    var p :| p in m && Total(m, side, account) == Share(m[p], side, account) + Total(m - {p}, side, account);
    if p != k {
      TotalRemove(m - {p}, k, side, account);
      TotalRemove(m - {k}, p, side, account);
      assert m - {p} - {k} == m - {k} - {p};
    }
  }

  lemma TotalInsert(m: map<TransferId, Transfer>, k: TransferId, t: Transfer, side: Side, account: nat)
    requires k !in m
    ensures Total(m[k := t], side, account) == Total(m, side, account) + Share(t, side, account)
  {
    TotalRemove(m[k := t], k, side, account);
    assert m[k := t] - {k} == m;
  }

  ghost function SumBalances(m: map<nat, nat>): nat
    decreases |m|
  {
    if m == map[] then 0
    else
      var k :| k in m;
      m[k] + SumBalances(m - {k})
  }

  lemma {:induction false} SumBalancesRemove(m: map<nat, nat>, k: nat)
    requires k in m
    ensures SumBalances(m) == m[k] + SumBalances(m - {k})
    decreases |m|
  {
    var p :| p in m && SumBalances(m) == m[p] + SumBalances(m - {p});
    if p != k {
      SumBalancesRemove(m - {p}, k);
      SumBalancesRemove(m - {k}, p);
      assert m - {p} - {k} == m - {k} - {p};
    }
  }

  lemma CreditAddsToSum(m: map<nat, nat>, account: nat, amount: nat)
    ensures SumBalances(Credit(m, account, amount)) == SumBalances(m) + amount
  {
    var m' := Credit(m, account, amount);
    SumBalancesRemove(m', account);
    assert m' - {account} == m - {account};
    if account in m {
      SumBalancesRemove(m, account);
    } else {
      assert m - {account} == m;
    }
  }

  /** Every account's posted balance is the sum of the posted transfers that name it, and both
      sides of the books add up to the money posted. */
  ghost predicate Balanced(b: Books) {
    && (forall a: nat :: Balance(b.debits, a) == Total(b.transfers, Debits, a))
    && (forall a: nat :: Balance(b.credits, a) == Total(b.transfers, Credits, a))
    && SumBalances(b.debits) == SumBalances(b.credits) == Total(b.transfers, Everywhere, 0)
  }

  lemma InsertKeepsBalance(b: Books, t: Transfer)
    requires Balanced(b) && Admissible(b, t)
    ensures Balanced(Insert(b, t))
  {
    var b', s := Insert(b, t), Stored(b, t);
    forall a: nat
      ensures Balance(b'.debits, a) == Total(b'.transfers, Debits, a)
      ensures Balance(b'.credits, a) == Total(b'.transfers, Credits, a)
    {
      TotalInsert(b.transfers, t.id, s, Debits, a);
      TotalInsert(b.transfers, t.id, s, Credits, a);
    }
    TotalInsert(b.transfers, t.id, s, Everywhere, 0);
    if Moves(t) {
      CreditAddsToSum(b.debits, s.debit, s.amount);
      CreditAddsToSum(b.credits, s.credit, s.amount);
    }
  }
}
