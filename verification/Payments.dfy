/**
 Payment rows, the credit ledger, and what each billing transaction does when it runs alone.

 The statements below are the bodies of the SQL statements of the payment and ledger repositories. `Atomic`
 composes them into the whole-transaction specification that the interleaved machine of `PaymentRuns` and the
 repository class of `PaymentStore` are proved against.
 */
module Payments {
  import opened Base

  const PAYPAL := "paypal"
  const REF_REFUND := "refund"

  datatype Status = Pending | Completed | Failed | Refunded

  /** A billing_payments row; captureId is the paypal_capture_id of its metadata. */
  datatype Payment = Payment(
    customer: string,
    gateway: string,
    gatewayId: Option<string>,
    amount: int,
    status: Status,
    captureId: Option<string>)

  datatype TxType = Credit | Debit

  /** A billing_transactions row. The amount of a debit is stored positive. */
  datatype Entry = Entry(
    customer: string,
    kind: TxType,
    amount: int,
    balanceAfter: int,
    refType: Option<string>,
    refId: Option<string>,
    key: Option<string>)

  /** The committed tables: payments by id, customer balances, and the ledger in commit order. */
  datatype Db = Db(payments: map<string, Payment>, balances: map<string, int>, ledger: seq<Entry>)

  /** The ledger half of a transaction. */
  datatype Posting = Posting(
    customer: string,
    kind: TxType,
    amount: int,
    refType: Option<string>,
    refId: Option<string>,
    key: Option<string>)

  datatype Request =
      // CompleteWithGatewayPaymentIDAndCredit
    | Complete(pid: string, gateway: string, gatewayId: string, customer: string, amount: int, key: string)
      // CompletePayPalCaptureAndCredit
    | Capture(pid: string, orderId: string, captureId: string, customer: string, amount: int, key: string)
      // MarkRefundedAndDebit
    | Refund(pid: string, customer: string, amount: int, key: string)
      // CreditAccount and DebitAccount of the ledger repository
    | Post(posting: Posting)
      // Create
    | Create(pid: string, row: Payment)

  predicate IsClaim(r: Request) {
    r.Complete? || r.Capture?
  }

  predicate TouchesPayment(r: Request) {
    IsClaim(r) || r.Refund?
  }

  function PostingOf(r: Request): Posting
    requires !r.Create?
  {
    match r
    case Complete(_, _, _, c, a, k) => Posting(c, Credit, a, None, None, Some(k))
    case Capture(_, _, _, c, a, k) => Posting(c, Credit, a, None, None, Some(k))
    case Refund(p, c, a, k) => Posting(c, Debit, a, Some(REF_REFUND), Some(p), Some(k))
    case Post(p) => p
  }

  // ----- statements on the payments table -----

  /** canClaimLocalPayment: the row found by id and gateway may be completed with this gateway id. */
  predicate CanClaimLocal(p: Payment, gatewayId: string) {
    && !(p.status == Completed && p.gatewayId != Some(gatewayId))
    && p.status != Refunded
    && p.status != Failed
  }

  /** canClaimPayPalCapture: the same question for a capture of a PayPal order. */
  predicate CanClaimCapture(p: Payment, orderId: string, captureId: string) {
    && p.gatewayId == Some(orderId)
    && if p.status == Completed then p.captureId == Some(captureId)
       else p.status != Refunded && p.status != Failed && (p.captureId.None? || p.captureId == Some(captureId))
  }

  predicate HasOtherGateway(payments: map<string, Payment>, pid: string, gateway: string, gatewayId: string) {
    exists id | id in payments :: id != pid && payments[id].gateway == gateway && payments[id].gatewayId == Some(gatewayId)
  }

  predicate HasOtherCapture(payments: map<string, Payment>, pid: string, captureId: string) {
    exists id | id in payments :: id != pid && payments[id].gateway == PAYPAL && payments[id].captureId == Some(captureId)
  }

  /** The WHERE clause by which the request finds its payment row. */
  predicate RowFound(payments: map<string, Payment>, r: Request)
    requires TouchesPayment(r)
  {
    && r.pid in payments
    && match r
       case Complete(_, g, _, _, _, _) => payments[r.pid].gateway == g
       case Capture(_, _, _, _, _, _) => payments[r.pid].gateway == PAYPAL
       case Refund(_, c, _, _) => payments[r.pid].customer == c
  }

  /** Whether the row, once found, admits the request. A refund does not look at the old status. */
  predicate CanClaim(p: Payment, r: Request)
    requires TouchesPayment(r)
  {
    match r
    case Complete(_, _, gid, _, _, _) => CanClaimLocal(p, gid)
    case Capture(_, o, c, _, _, _) => CanClaimCapture(p, o, c)
    case Refund(_, _, _, _) => true
  }

  predicate HasOther(payments: map<string, Payment>, r: Request)
    requires TouchesPayment(r)
  {
    match r
    case Complete(p, g, gid, _, _, _) => HasOtherGateway(payments, p, g, gid)
    case Capture(p, _, c, _, _, _) => HasOtherCapture(payments, p, c)
    case Refund(_, _, _, _) => false
  }

  /** The row that the request's UPDATE writes. */
  function Mark(p: Payment, r: Request): Payment
    requires TouchesPayment(r)
  {
    match r
    case Complete(_, _, gid, _, _, _) => p.(status := Completed, gatewayId := Some(gid))
    case Capture(_, o, c, _, _, _) => p.(status := Completed, gatewayId := Some(o), captureId := Some(c))
    case Refund(_, _, _, _) => p.(status := Refunded)
  }

  // ----- statements on the ledger -----

  predicate HasKey(e: Entry, customer: string, key: string) {
    e.customer == customer && e.key == Some(key)
  }

  /** findByIdempotencyKey: the first row of the customer with the key. */
  function FindKey(ledger: seq<Entry>, customer: string, key: string): (r: Option<Entry>)
    ensures r.Some? ==> r.value in ledger && HasKey(r.value, customer, key)
    ensures r.None? ==> forall e :: e in ledger ==> !HasKey(e, customer, key)
  {
    if ledger == [] then None
    else if HasKey(ledger[0], customer, key) then Some(ledger[0])
    else FindKey(ledger[1..], customer, key)
  }

  predicate Matches(e: Entry, p: Posting) {
    e.kind == p.kind && e.amount == p.amount && e.refType == p.refType && e.refId == p.refId
  }

  datatype Lookup = Fresh | Existing | Conflict

  /** findMatchingIdempotencyKey; a posting without a key is never looked up. */
  function LookUp(ledger: seq<Entry>, p: Posting): Lookup {
    if p.key.None? then Fresh
    else match FindKey(ledger, p.customer, p.key.value)
      case None => Fresh
      case Some(e) => if Matches(e, p) then Existing else Conflict
  }

  function Delta(p: Posting): int {
    if p.kind == Credit then p.amount else Wrap(-p.amount)
  }

  function EntryFor(p: Posting, balance: int): Entry {
    Entry(p.customer, p.kind, p.amount, balance, p.refType, p.refId, p.key)
  }

  /** lockAndUpdateBalance followed by insertTransaction. */
  function Append(db: Db, p: Posting): Db
    requires p.customer in db.balances
  {
    var balance := Wrap(db.balances[p.customer] + Delta(p));
    db.(balances := db.balances[p.customer := balance], ledger := db.ledger + [EntryFor(p, balance)])
  }

  // ----- whole transactions -----

  datatype Error = NotFound | KeyConflict | DuplicateId

  /** What a transaction running alone reports: a commit with its new tables, a duplicate that is refused
      without an error, an earlier posting returned again, or an error. Only Commit changes the tables. */
  datatype Verdict = Commit(db: Db) | NotClaimed | Replayed | Fault(error: Error)

  function PostAlone(db: Db, p: Posting): Verdict {
    match LookUp(db.ledger, p)
    case Conflict => Fault(KeyConflict)
    case Existing => Commit(db)
    case Fresh => if p.customer in db.balances then Commit(Append(db, p)) else Fault(NotFound)
  }

  function Atomic(db: Db, r: Request): Verdict {
    if r.Create? then
      if r.pid in db.payments then Fault(DuplicateId) else Commit(db.(payments := db.payments[r.pid := r.row]))
    else if r.Post? then
      if LookUp(db.ledger, r.posting) == Existing then Replayed else PostAlone(db, r.posting)
    else if !RowFound(db.payments, r) then Fault(NotFound)
    else if !CanClaim(db.payments[r.pid], r) || HasOther(db.payments, r) then NotClaimed
    else PostAlone(db.(payments := db.payments[r.pid := Mark(db.payments[r.pid], r)]), PostingOf(r))
  }

  /** The tables after the requests commit one after another, each running alone; None if one would not commit. */
  function Replay(db: Db, rs: seq<Request>): Option<Db> {
    if rs == [] then Some(db)
    else match Replay(db, rs[..|rs| - 1])
      case None => None
      case Some(mid) =>
        var v := Atomic(mid, rs[|rs| - 1]);
        if v.Commit? then Some(v.db) else None
  }

  /** A key lookup depends only on the first row that has the key: an append can only answer a fresh key. */
  lemma {:induction false} FindKeyAppend(ledger: seq<Entry>, e: Entry, customer: string, key: string)
    ensures FindKey(ledger + [e], customer, key) ==
            if FindKey(ledger, customer, key).Some? then FindKey(ledger, customer, key)
            else if HasKey(e, customer, key) then Some(e) else None
  {
    if ledger == [] {
      assert ledger + [e] == [e];
    } else {
      assert (ledger + [e])[1..] == ledger[1..] + [e];
      FindKeyAppend(ledger[1..], e, customer, key);
    }
  }

  lemma ReplayOne(db: Db, rs: seq<Request>, r: Request)
    requires Replay(db, rs).Some?
    ensures var v := Atomic(Replay(db, rs).value, r);
            Replay(db, rs + [r]) == if v.Commit? then Some(v.db) else None
  {
    assert (rs + [r])[..|rs|] == rs;
  }

  /** A keyed posting that succeeded is found by its key. */
  lemma PostedIsFound(db: Db, p: Posting)
    requires p.key.Some? && PostAlone(db, p).Commit?
    ensures LookUp(PostAlone(db, p).db.ledger, p) == Existing
  {
    if LookUp(db.ledger, p) == Fresh {
      FindKeyAppend(db.ledger, PostAlone(db, p).db.ledger[|db.ledger|], p.customer, p.key.value);
    }
  }

  /** Delivering a committed request again changes nothing and succeeds again. */
  lemma RedeliveryIsNoOp(db: Db, r: Request)
    requires !r.Create? && PostingOf(r).key.Some? && Atomic(db, r).Commit?
    ensures var after := Atomic(db, r).db;
            Atomic(after, r) == if r.Post? then Replayed else Commit(after)
  {
    var after := Atomic(db, r).db;
    if r.Post? {
      PostedIsFound(db, r.posting);
    } else {
      var marked := db.payments[r.pid := Mark(db.payments[r.pid], r)];
      PostedIsFound(db.(payments := marked), PostingOf(r));
      assert after.payments == marked && marked[r.pid := Mark(marked[r.pid], r)] == marked;
    }
  }

  predicate Holder(p: Payment, gateway: string, gatewayId: string) {
    p.gateway == gateway && p.gatewayId == Some(gatewayId)
  }
}
