/**
 What each whole transaction decides and does, read off the tables alone: which rows it accepts, when a key is free,
 repeated or in conflict, and the exact rows and balances it leaves.
 */
module PaymentVerdicts {
  import opened Base
  import opened Payments

  // ----- the state of a key -----

  ghost predicate Unused(ledger: seq<Entry>, customer: string, key: string) {
    forall e :: e in ledger ==> !(e.customer == customer && e.key == Some(key))
  }

  /** Row i is the first of the customer with the key. */
  ghost predicate FirstRow(ledger: seq<Entry>, customer: string, key: string, i: nat) {
    && i < |ledger| && ledger[i].customer == customer && ledger[i].key == Some(key)
    && forall j :: 0 <= j < i ==> !(ledger[j].customer == customer && ledger[j].key == Some(key))
  }

  /** The first row with the key records this movement. */
  ghost predicate Booked(ledger: seq<Entry>, customer: string, key: string,
                         kind: TxType, amount: int, refType: Option<string>, refId: Option<string>) {
    exists i: nat ::
      && FirstRow(ledger, customer, key, i)
      && ledger[i].kind == kind && ledger[i].amount == amount && ledger[i].refType == refType && ledger[i].refId == refId
  }

  lemma {:induction false} FoundRow(ledger: seq<Entry>, customer: string, key: string) returns (i: nat)
    ensures FindKey(ledger, customer, key).None? <==> Unused(ledger, customer, key)
    ensures !Unused(ledger, customer, key) ==>
              FirstRow(ledger, customer, key, i) && FindKey(ledger, customer, key) == Some(ledger[i])
  {
    i := 0;
    if ledger != [] && !(ledger[0].customer == customer && ledger[0].key == Some(key)) {
      var j := FoundRow(ledger[1..], customer, key);
      i := j + 1;
      assert forall e :: e in ledger <==> e == ledger[0] || e in ledger[1..];
      if !Unused(ledger, customer, key) {
        assert ledger[i] == ledger[1..][j];
        forall l | 0 <= l < i
          ensures !(ledger[l].customer == customer && ledger[l].key == Some(key))
        {
          assert l > 0 ==> ledger[l] == ledger[1..][l - 1];
        }
      }
    }
  }

  /** A lookup answers fresh, existing or conflict by the first row with the key, compared field by field. */
  lemma LookUpExactly(ledger: seq<Entry>, p: Posting)
    requires p.key.Some?
    ensures LookUp(ledger, p) == Fresh <==> Unused(ledger, p.customer, p.key.value)
    ensures LookUp(ledger, p) == Existing <==>
            Booked(ledger, p.customer, p.key.value, p.kind, p.amount, p.refType, p.refId)
  {
    var i := FoundRow(ledger, p.customer, p.key.value);
    forall j: nat | FirstRow(ledger, p.customer, p.key.value, j)
      ensures !Unused(ledger, p.customer, p.key.value) && i == j
    {
      assert ledger[j] in ledger;
    }
  }

  // ----- the movement -----

  /** One row is appended, and one balance set to the new row's balance_after: up by a credit, down by a debit. */
  ghost predicate Moved(before: Db, after: Db, customer: string, kind: TxType, amount: int,
                        refType: Option<string>, refId: Option<string>, key: Option<string>) {
    && customer in before.balances
    && var balance := Wrap(if kind == Credit then before.balances[customer] + amount else before.balances[customer] - amount);
    && after.balances == before.balances[customer := balance]
    && after.ledger == before.ledger + [Entry(customer, kind, amount, balance, refType, refId, key)]
  }

  /** A key that was used before moves nothing more. */
  ghost predicate MovedOnce(before: Db, after: Db, customer: string, kind: TxType, amount: int,
                            refType: Option<string>, refId: Option<string>, key: string) {
    if Unused(before.ledger, customer, key) then Moved(before, after, customer, kind, amount, refType, refId, Some(key))
    else after.balances == before.balances && after.ledger == before.ledger
  }

  ghost predicate KeyAllows(db: Db, customer: string, key: string,
                            kind: TxType, amount: int, refType: Option<string>, refId: Option<string>) {
    || (Unused(db.ledger, customer, key) && customer in db.balances)
    || Booked(db.ledger, customer, key, kind, amount, refType, refId)
  }

  lemma AppendMoves(db: Db, p: Posting)
    requires p.customer in db.balances
    ensures Moved(db, Append(db, p), p.customer, p.kind, p.amount, p.refType, p.refId, p.key)
    ensures Append(db, p).payments == db.payments
  {
    if p.kind == Debit {
      WrapAdd(-p.amount, db.balances[p.customer]);
    }
  }

  /** The ledger half of a keyed transaction. */
  lemma PostAloneExactly(db: Db, p: Posting)
    requires p.key.Some?
    ensures var v := PostAlone(db, p);
            && (v.Commit? <==> KeyAllows(db, p.customer, p.key.value, p.kind, p.amount, p.refType, p.refId))
            && (v == Fault(KeyConflict) <==>
                  && !Unused(db.ledger, p.customer, p.key.value)
                  && !Booked(db.ledger, p.customer, p.key.value, p.kind, p.amount, p.refType, p.refId))
            && (v == Fault(NotFound) <==> Unused(db.ledger, p.customer, p.key.value) && p.customer !in db.balances)
            && (v.Commit? ==>
                  && v.db.payments == db.payments
                  && MovedOnce(db, v.db, p.customer, p.kind, p.amount, p.refType, p.refId, p.key.value))
  {
    LookUpExactly(db.ledger, p);
    if p.customer in db.balances {
      AppendMoves(db, p);
    }
  }

  // ----- completions -----

  /** The payment is on the gateway, pending or already completed with this very id, and no other payment of the gateway
      has the id. */
  ghost predicate OpenToCompletion(payments: map<string, Payment>, r: Request)
    requires r.Complete?
  {
    && r.pid in payments
    && var p := payments[r.pid];
    && p.gateway == r.gateway
    && (p.status == Pending || (p.status == Completed && p.gatewayId == Some(r.gatewayId)))
    && forall id :: id in payments && payments[id].gateway == r.gateway && payments[id].gatewayId == Some(r.gatewayId) ==> id == r.pid
  }

  /** CompleteWithGatewayPaymentIDAndCredit: its verdict, and what it writes. */
  lemma CompletionVerdict(db: Db, r: Request)
    requires r.Complete?
    ensures var v, open := Atomic(db, r), OpenToCompletion(db.payments, r);
            && (v.Commit? <==> open && KeyAllows(db, r.customer, r.key, Credit, r.amount, None, None))
            && (v == NotClaimed <==> r.pid in db.payments && db.payments[r.pid].gateway == r.gateway && !open)
            && (v == Fault(KeyConflict) <==>
                  open && !Unused(db.ledger, r.customer, r.key) && !Booked(db.ledger, r.customer, r.key, Credit, r.amount, None, None))
            && (v.Commit? || v == NotClaimed || v == Fault(KeyConflict) || v == Fault(NotFound))
            && (v.Commit? ==>
                  && v.db.payments == db.payments[r.pid := db.payments[r.pid].(status := Completed, gatewayId := Some(r.gatewayId))]
                  && MovedOnce(db, v.db, r.customer, Credit, r.amount, None, None, r.key))
  {
    if OpenToCompletion(db.payments, r) {
      PostAloneExactly(db.(payments := db.payments[r.pid := Mark(db.payments[r.pid], r)]), PostingOf(r));
    }
  }

  // ----- captures -----

  /** The payment is the PayPal order, pending without another capture or already completed with this very one, and no
      other PayPal payment has the capture. */
  ghost predicate OpenToCapture(payments: map<string, Payment>, r: Request)
    requires r.Capture?
  {
    && r.pid in payments
    && var p := payments[r.pid];
    && p.gateway == "paypal" && p.gatewayId == Some(r.orderId)
    && ((p.status == Pending && p.captureId in {None, Some(r.captureId)}) || (p.status == Completed && p.captureId == Some(r.captureId)))
    && forall id :: id in payments && payments[id].gateway == "paypal" && payments[id].captureId == Some(r.captureId) ==> id == r.pid
  }

  /** CompletePayPalCaptureAndCredit: its verdict, and what it writes. */
  lemma CaptureVerdict(db: Db, r: Request)
    requires r.Capture?
    ensures var v, open := Atomic(db, r), OpenToCapture(db.payments, r);
            && (v.Commit? <==> open && KeyAllows(db, r.customer, r.key, Credit, r.amount, None, None))
            && (v == NotClaimed <==> r.pid in db.payments && db.payments[r.pid].gateway == "paypal" && !open)
            && (v == Fault(KeyConflict) <==>
                  open && !Unused(db.ledger, r.customer, r.key) && !Booked(db.ledger, r.customer, r.key, Credit, r.amount, None, None))
            && (v.Commit? || v == NotClaimed || v == Fault(KeyConflict) || v == Fault(NotFound))
            && (v.Commit? ==>
                  && v.db.payments == db.payments[r.pid := db.payments[r.pid].(status := Completed, captureId := Some(r.captureId))]
                  && MovedOnce(db, v.db, r.customer, Credit, r.amount, None, None, r.key))
  {
    if OpenToCapture(db.payments, r) {
      PostAloneExactly(db.(payments := db.payments[r.pid := Mark(db.payments[r.pid], r)]), PostingOf(r));
    }
  }

  // ----- refunds -----

  ghost predicate OpenToRefund(payments: map<string, Payment>, r: Request)
    requires r.Refund?
  {
    r.pid in payments && payments[r.pid].customer == r.customer
  }

  /** MarkRefundedAndDebit: its verdict, and what it writes. */
  lemma RefundVerdict(db: Db, r: Request)
    requires r.Refund?
    ensures var v, open := Atomic(db, r), OpenToRefund(db.payments, r);
            && (v.Commit? <==> open && KeyAllows(db, r.customer, r.key, Debit, r.amount, Some("refund"), Some(r.pid)))
            && (v == Fault(KeyConflict) <==>
                  && open && !Unused(db.ledger, r.customer, r.key)
                  && !Booked(db.ledger, r.customer, r.key, Debit, r.amount, Some("refund"), Some(r.pid)))
            && (v.Commit? || v == Fault(KeyConflict) || v == Fault(NotFound))
            && (v.Commit? ==>
                  && v.db.payments == db.payments[r.pid := db.payments[r.pid].(status := Refunded)]
                  && MovedOnce(db, v.db, r.customer, Debit, r.amount, Some("refund"), Some(r.pid), r.key))
  {
    if OpenToRefund(db.payments, r) {
      PostAloneExactly(db.(payments := db.payments[r.pid := Mark(db.payments[r.pid], r)]), PostingOf(r));
    }
  }

  // ----- postings and creations -----

  /** CreditAccount and DebitAccount: a used key returns the earlier row if that is the same movement in every field and
      is a conflict otherwise. */
  lemma PostVerdict(db: Db, p: Posting)
    ensures var v := Atomic(db, Post(p));
            && (p.key.Some? ==>
                  var unused, same := Unused(db.ledger, p.customer, p.key.value),
                                      Booked(db.ledger, p.customer, p.key.value, p.kind, p.amount, p.refType, p.refId);
                  && (v == Replayed <==> same)
                  && (v == Fault(KeyConflict) <==> !unused && !same)
                  && (v.Commit? <==> unused && p.customer in db.balances)
                  && (v == Fault(NotFound) <==> unused && p.customer !in db.balances))
            && (p.key.None? ==> if p.customer in db.balances then v.Commit? else v == Fault(NotFound))
            && (v.Commit? ==>
                  && v.db.payments == db.payments
                  && Moved(db, v.db, p.customer, p.kind, p.amount, p.refType, p.refId, p.key))
  {
    if p.key.Some? {
      LookUpExactly(db.ledger, p);
    }
    if p.customer in db.balances {
      AppendMoves(db, p);
    }
  }

  lemma CreateVerdict(db: Db, r: Request)
    requires r.Create?
    ensures Atomic(db, r) == if r.pid in db.payments then Fault(DuplicateId)
                             else Commit(Db(db.payments[r.pid := r.row], db.balances, db.ledger))
  {
  }
}
