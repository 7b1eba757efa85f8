/**
 Which payment holds an id in each state: a PayPal capture is recorded on one payment, and a payment of another gateway
 completes one payment.
 */
module PaymentHolders {
  import opened Payments
  import opened PaymentRuns
  import opened PaymentInvariant
  import opened PaymentSafety

  // ----- captures -----

  predicate CapturedPayPal(p: Payment) {
    p.gateway == PAYPAL && p.captureId.Some?
  }

  ghost predicate CapturesDistinct(payments: map<string, Payment>) {
    forall a, b :: a in payments && b in payments && a != b && CapturedPayPal(payments[a]) && CapturedPayPal(payments[b]) ==>
      payments[a].captureId != payments[b].captureId
  }

  lemma MarkKeepsDistinct(payments: map<string, Payment>, r: Request)
    requires CapturesDistinct(payments) && TouchesPayment(r) && RowFound(payments, r) && (r.Capture? ==> !HasOther(payments, r))
    ensures CapturesDistinct(payments[r.pid := Mark(payments[r.pid], r)])
  {
  }

  lemma StepCaptures(cfg: Config, s: State, t: nat, a: Action)
    requires Inv(cfg, s) && Enabled(cfg, s, t, a) && CapturesDistinct(s.db.payments)
    ensures CapturesDistinct(Do(cfg, s, t, a).db.payments)
  {
    var x := s.txns[t];
    assert StableAt(cfg, s, t);
    if a.CommitTx? {
      CommitMarks(s.db, x);
      if !x.req.Post? {
        assert ClaimStable(cfg, s.db, x);
        MarkKeepsDistinct(s.db.payments, x.req);
      }
    }
  }

  /** A capture id is on at most one PayPal payment at every point of every run. */
  lemma {:induction false} RunCaptures(cfg: Config, tr: seq<State>, i: nat)
    requires Run(cfg, tr) && i < |tr| && CapturesDistinct(tr[0].db.payments)
    ensures CapturesDistinct(tr[i].db.payments)
  {
    if i > 0 {
      RunCaptures(cfg, tr, i - 1);
      RunInv(cfg, tr, i - 1);
      var t, a := StepAt(cfg, tr, i - 1);
      StepCaptures(cfg, tr[i - 1], t, a);
    }
  }

  // ----- gateway payments -----

  predicate CompletedWith(p: Payment, gateway: string, gatewayId: string) {
    p.status == Completed && Holder(p, gateway, gatewayId)
  }

  /** No two completed payments of a gateway have the same gateway id. PayPal orders may have several captures. */
  ghost predicate CompletedDistinct(payments: map<string, Payment>) {
    forall a, b, id :: a in payments && b in payments && a != b && payments[a].gateway != PAYPAL ==>
      !(CompletedWith(payments[a], payments[a].gateway, id) && CompletedWith(payments[b], payments[a].gateway, id))
  }

  ghost predicate NoneCompleted(payments: map<string, Payment>, r: Request)
    requires r.Complete?
  {
    forall id :: id in payments && id != r.pid ==> !CompletedWith(payments[id], r.gateway, r.gatewayId)
  }

  /** Past its check, a claim finds no other payment completed with its gateway id. */
  ghost predicate Unrivalled(payments: map<string, Payment>, x: Txn) {
    x.req.Complete? && x.req.gateway != PAYPAL && (x.pc == Checked || PastMark(x)) ==> NoneCompleted(payments, x.req)
  }

  ghost predicate SettledInv(s: State) {
    CompletedDistinct(s.db.payments) && forall t :: t in s.txns ==> Unrivalled(s.db.payments, s.txns[t])
  }

  lemma AdvanceUnrivalled(cfg: Config, db: Db, x: Txn)
    requires Live(x) && Shaped(x) && x.pc != Ready && !x.req.Create? && Unrivalled(db.payments, x)
    ensures Unrivalled(db.payments, Advance(cfg, db, x))
  {
    if x.pc == RowHeld && x.req.Complete? && !HasOther(db.payments, x.req) {
      assert NoneCompleted(db.payments, x.req);
    }
  }

  lemma MarkUnrivalled(payments: map<string, Payment>, r: Request, y: Txn)
    requires TouchesPayment(r) && RowFound(payments, r) && !SameGatewayPayment(r, y.req) && Unrivalled(payments, y)
    ensures Unrivalled(payments[r.pid := Mark(payments[r.pid], r)], y)
  {
  }

  lemma CommitUnrivalled(cfg: Config, s: State, t: nat, u: nat)
    requires Inv(cfg, s) && Enabled(cfg, s, t, CommitTx) && u in s.txns && u != t && Unrivalled(s.db.payments, s.txns[u])
    ensures Unrivalled(Publish(s.db, s.txns[t]).payments, s.txns[u])
  {
    var x, y := s.txns[t], s.txns[u];
    assert StableAt(cfg, s, t);
    CommitMarks(s.db, x);
    if HoldsAdvisory(y) && TouchesPayment(x.req) {
      if HoldsAdvisory(x) {
        assert Apart(cfg, x, y);
        ClaimsApart(cfg, x, y);
      }
      MarkUnrivalled(s.db.payments, x.req, y);
    }
  }

  lemma MarkKeepsCompleted(payments: map<string, Payment>, r: Request)
    requires CompletedDistinct(payments) && TouchesPayment(r) && RowFound(payments, r)
    requires r.Complete? && r.gateway != PAYPAL ==> NoneCompleted(payments, r)
    ensures CompletedDistinct(payments[r.pid := Mark(payments[r.pid], r)])
  {
  }

  lemma StepCompletedDistinct(cfg: Config, s: State, t: nat, a: Action)
    requires Inv(cfg, s) && Enabled(cfg, s, t, a) && SettledInv(s)
    ensures CompletedDistinct(Do(cfg, s, t, a).db.payments)
  {
    var x := s.txns[t];
    assert StableAt(cfg, s, t);
    if a.CommitTx? {
      CommitMarks(s.db, x);
      if !x.req.Post? {
        assert Unrivalled(s.db.payments, x);
        MarkKeepsCompleted(s.db.payments, x.req);
      }
    }
  }

  lemma StepUnrivalled(cfg: Config, s: State, t: nat, a: Action, u: nat)
    requires Inv(cfg, s) && Enabled(cfg, s, t, a) && SettledInv(s) && u in s.txns
    ensures Unrivalled(Do(cfg, s, t, a).db.payments, Do(cfg, s, t, a).txns[u])
  {
    assert Unrivalled(s.db.payments, s.txns[u]);
    if u == t {
      if a.Statement? {
        AdvanceUnrivalled(cfg, s.db, s.txns[t]);
      }
    } else if a.CommitTx? {
      CommitUnrivalled(cfg, s, t, u);
    }
  }

  lemma StepSettled(cfg: Config, s: State, t: nat, a: Action)
    requires Inv(cfg, s) && Enabled(cfg, s, t, a) && SettledInv(s)
    ensures SettledInv(Do(cfg, s, t, a))
  {
    StepCompletedDistinct(cfg, s, t, a);
    SameRequests(cfg, s, t, a);
    forall u | u in s.txns
      ensures Unrivalled(Do(cfg, s, t, a).db.payments, Do(cfg, s, t, a).txns[u])
    {
      StepUnrivalled(cfg, s, t, a, u);
    }
  }

  /** At most one completed payment has a gateway id at every point of every run, with any hash, index or reservation. */
  lemma {:induction false} RunCompletedDistinct(cfg: Config, tr: seq<State>, i: nat)
    requires Run(cfg, tr) && i < |tr| && CompletedDistinct(tr[0].db.payments)
    ensures SettledInv(tr[i])
  {
    if i > 0 {
      RunCompletedDistinct(cfg, tr, i - 1);
      RunInv(cfg, tr, i - 1);
      var t, a := StepAt(cfg, tr, i - 1);
      StepSettled(cfg, tr[i - 1], t, a);
    }
  }
}
