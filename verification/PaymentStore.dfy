/**
 The repository methods themselves, executed one transaction at a time. Each statement changes the tables in place; an
 early return rolls the transaction back. The database may fail any statement: `faults` says which.
 */
module PaymentStore {
  import opened Base
  import opened Payments
  import opened PaymentVerdicts

  datatype Stmt = BeginTx | LockId | SelectRow | SelectOther | UpdateRow | FindRow | SelectBalance | UpdateBalance | InsertRow | CommitTx

  datatype Failure = Database | Missing | Mismatch

  /** (claimed, error) of the Go methods: an error, or whether the payment was claimed. */
  datatype Result = Claimed(yes: bool) | Err(why: Failure)

  /** The result that a fault-free call reports for each verdict of the specification. */
  function Reported(v: Verdict): Result {
    match v
    case Commit(_) => Claimed(true)
    case NotClaimed => Claimed(false)
    case Replayed => Claimed(true)
    case Fault(KeyConflict) => Err(Mismatch)
    case Fault(_) => Err(Missing)
  }

  /** The row admits the claim. */
  ghost predicate OpenToClaim(payments: map<string, Payment>, r: Request)
    requires IsClaim(r)
  {
    if r.Complete? then OpenToCompletion(payments, r) else OpenToCapture(payments, r)
  }

  function ClaimedRow(p: Payment, r: Request): Payment
    requires IsClaim(r)
  {
    if r.Complete? then p.(status := Completed, gatewayId := Some(r.gatewayId)) else p.(status := Completed, captureId := Some(r.captureId))
  }

  lemma ClaimExactly(payments: map<string, Payment>, r: Request)
    requires IsClaim(r)
    ensures OpenToClaim(payments, r) <==> RowFound(payments, r) && CanClaim(payments[r.pid], r) && !HasOther(payments, r)
    ensures OpenToClaim(payments, r) ==> Mark(payments[r.pid], r) == ClaimedRow(payments[r.pid], r)
  {
  }

  class BillingStore {
    var payments: map<string, Payment>
    var balances: map<string, int>
    var ledger: seq<Entry>

    constructor (payments: map<string, Payment>, balances: map<string, int>, ledger: seq<Entry>)
      ensures Tables() == Db(payments, balances, ledger)
    {
      this.payments, this.balances, this.ledger := payments, balances, ledger;
    }

    ghost function Tables(): Db
      reads this
    {
      Db(payments, balances, ledger)
    }

    method RollBack(db: Db)
      modifies this
      ensures Tables() == db
    {
      payments, balances, ledger := db.payments, db.balances, db.ledger;
    }

    /** claimGatewayPaymentTx and claimPayPalCaptureTx. */
    method ClaimTx(r: Request, faults: set<Stmt>) returns (res: Result)
      requires IsClaim(r)
      modifies `payments
      ensures res == Claimed(true) ==>
                && OpenToClaim(old(payments), r) && payments == old(payments)[r.pid := ClaimedRow(old(payments[r.pid]), r)]
                && {LockId, SelectRow, SelectOther, UpdateRow} !! faults
      ensures res != Claimed(true) ==> payments == old(payments)
      ensures faults == {} ==>
                res == if !RowFound(old(payments), r) then Err(Missing) else Claimed(OpenToClaim(old(payments), r))
    {
      ClaimExactly(payments, r);
      if LockId in faults || SelectRow in faults {
        return Err(Database);
      }
      if !RowFound(payments, r) {
        return Err(Missing);
      }
      if !CanClaim(payments[r.pid], r) {
        return Claimed(false);
      }
      if SelectOther in faults {
        return Err(Database);
      }
      if HasOther(payments, r) {
        return Claimed(false);
      }
      if UpdateRow in faults {
        return Err(Database);
      }
      payments := payments[r.pid := Mark(payments[r.pid], r)];
      return Claimed(true);
    }

    /** creditAccountTx and debitAccountTx. A failure may leave the balance written but no row; the caller rolls back. */
    method PostTx(p: Posting, faults: set<Stmt>) returns (res: Result, existing: bool)
      modifies `balances, `ledger
      ensures res == Claimed(true) ==>
                && existing == (LookUp(old(ledger), p) == Existing)
                && PostAlone(old(Tables()), p) == Commit(old(Tables()).(balances := balances, ledger := ledger))
                && (p.key.Some? ==> FindRow !in faults)
                && (!existing ==>
                      && Moved(old(Tables()), Tables(), p.customer, p.kind, p.amount, p.refType, p.refId, p.key)
                      && {SelectBalance, UpdateBalance, InsertRow} !! faults)
      ensures p.key.Some? && res == Claimed(true) ==>
                existing == Booked(old(ledger), p.customer, p.key.value, p.kind, p.amount, p.refType, p.refId)
      ensures faults == {} ==> res == Reported(PostAlone(old(Tables()), p))
      ensures res != Claimed(false)
    {
      if p.key.Some? {
        LookUpExactly(ledger, p);
      }
      if p.customer in balances {
        AppendMoves(Db(payments, balances, ledger), p);
      }
      existing := false;
      if p.key.Some? {
        if FindRow in faults {
          return Err(Database), false;
        }
        match FindKey(ledger, p.customer, p.key.value)
        case Some(e) =>
          if Matches(e, p) {
            return Claimed(true), true;
          }
          return Err(Mismatch), false;
        case None =>
      }
      if SelectBalance in faults {
        return Err(Database), false;
      }
      if p.customer !in balances {
        return Err(Missing), false;
      }
      var balance := Wrap(balances[p.customer] + Delta(p));
      if UpdateBalance in faults {
        return Err(Database), false;
      }
      balances := balances[p.customer := balance];
      if InsertRow in faults {
        return Err(Database), false;
      }
      ledger := ledger + [EntryFor(p, balance)];
      return Claimed(true), false;
    }

    /** CompleteWithGatewayPaymentIDAndCredit and CompletePayPalCaptureAndCredit: a claim that reports success has the
        whole effect of the specification, any other outcome has none, and without faults the report is the verdict. */
    method CompleteAndCredit(r: Request, faults: set<Stmt>) returns (res: Result)
      requires IsClaim(r)
      modifies this
      ensures res == Claimed(true) ==> Atomic(old(Tables()), r) == Commit(Tables())
      ensures res == Claimed(true) ==>
                && OpenToClaim(old(payments), r) && payments == old(payments)[r.pid := ClaimedRow(old(payments[r.pid]), r)]
                && MovedOnce(old(Tables()), Tables(), r.customer, Credit, r.amount, None, None, r.key)
                && {BeginTx, LockId, SelectRow, SelectOther, UpdateRow, FindRow, CommitTx} !! faults
                && (Unused(old(ledger), r.customer, r.key) ==> {SelectBalance, UpdateBalance, InsertRow} !! faults)
      ensures res != Claimed(true) ==> Tables() == old(Tables())
      ensures faults == {} ==> res == Reported(Atomic(old(Tables()), r))
      ensures faults == {} ==>
                (res == Claimed(true) <==>
                   OpenToClaim(old(payments), r) && KeyAllows(old(Tables()), r.customer, r.key, Credit, r.amount, None, None))
    {
      if r.Complete? {
        CompletionVerdict(Db(payments, balances, ledger), r);
      } else {
        CaptureVerdict(Db(payments, balances, ledger), r);
      }
      if BeginTx in faults {
        return Err(Database);
      }
      var saved := Db(payments, balances, ledger);
      res := ClaimTx(r, faults);
      if res != Claimed(true) {
        RollBack(saved);
        return;
      }
      var existing;
      res, existing := PostTx(PostingOf(r), faults);
      if res == Claimed(true) && CommitTx in faults {
        res := Err(Database);
      }
      if res != Claimed(true) {
        RollBack(saved);
      }
    }

    /** MarkRefundedAndDebit. */
    method MarkRefundedAndDebit(r: Request, faults: set<Stmt>) returns (res: Result)
      requires r.Refund?
      modifies this
      ensures res == Claimed(true) ==> Atomic(old(Tables()), r) == Commit(Tables())
      ensures res == Claimed(true) ==>
                && OpenToRefund(old(payments), r) && payments == old(payments)[r.pid := old(payments[r.pid]).(status := Refunded)]
                && MovedOnce(old(Tables()), Tables(), r.customer, Debit, r.amount, Some("refund"), Some(r.pid), r.key)
                && {BeginTx, UpdateRow, FindRow, CommitTx} !! faults
                && (Unused(old(ledger), r.customer, r.key) ==> {SelectBalance, UpdateBalance, InsertRow} !! faults)
      ensures res != Claimed(true) ==> Tables() == old(Tables())
      ensures faults == {} ==> res == Reported(Atomic(old(Tables()), r))
      ensures faults == {} ==>
                (res == Claimed(true) <==>
                   && OpenToRefund(old(payments), r)
                   && KeyAllows(old(Tables()), r.customer, r.key, Debit, r.amount, Some("refund"), Some(r.pid)))
    {
      RefundVerdict(Db(payments, balances, ledger), r);
      if BeginTx in faults || UpdateRow in faults {
        return Err(Database);
      }
      var saved := Db(payments, balances, ledger);
      if !RowFound(payments, r) {
        return Err(Missing);
      }
      payments := payments[r.pid := Mark(payments[r.pid], r)];
      var existing;
      res, existing := PostTx(PostingOf(r), faults);
      if res == Claimed(true) && CommitTx in faults {
        res := Err(Database);
      }
      if res != Claimed(true) {
        RollBack(saved);
      }
    }

    /** CreditAccount and DebitAccount: an earlier row with the key is returned and the transaction rolled back. */
    method PostAccount(p: Posting, faults: set<Stmt>) returns (res: Result)
      modifies this
      ensures res == Claimed(true) ==>
                match Atomic(old(Tables()), Post(p))
                case Commit(db) =>
                  && Tables() == db && payments == old(payments)
                  && Moved(old(Tables()), Tables(), p.customer, p.kind, p.amount, p.refType, p.refId, p.key)
                  && {BeginTx, SelectBalance, UpdateBalance, InsertRow, CommitTx} !! faults
                case Replayed =>
                  && Tables() == old(Tables()) && p.key.Some?
                  && Booked(old(ledger), p.customer, p.key.value, p.kind, p.amount, p.refType, p.refId)
                case _ => false
      ensures res != Claimed(true) ==> Tables() == old(Tables())
      ensures faults == {} ==> res == Reported(Atomic(old(Tables()), Post(p)))
      ensures faults == {} && p.key.Some? ==>
                (res == Err(Mismatch) <==>
                   && !Unused(old(ledger), p.customer, p.key.value)
                   && !Booked(old(ledger), p.customer, p.key.value, p.kind, p.amount, p.refType, p.refId))
    {
      PostVerdict(Db(payments, balances, ledger), p);
      if BeginTx in faults {
        return Err(Database);
      }
      var saved := Db(payments, balances, ledger);
      var existing;
      res, existing := PostTx(p, faults);
      if res == Claimed(true) && !existing && CommitTx in faults {
        res := Err(Database);
      }
      if res != Claimed(true) || existing {
        RollBack(saved);
      }
    }
  }
}
