/**
 The claims of callers that compare an event with the payment row before they settle it: every committed claim credits
 the customer and the amount of its payment.
 */
module PaymentRows {
  import opened Payments
  import opened PaymentRuns
  import opened PaymentInvariant
  import opened PaymentSafety

  /** The claim is for the customer and the amount of the row. */
  predicate Fits(r: Request, p: Payment)
    requires IsClaim(r)
  {
    r.customer == p.customer && r.amount == p.amount
  }

  ghost predicate FitsRows(payments: map<string, Payment>, r: Request)
    requires IsClaim(r)
  {
    r.pid in payments ==> Fits(r, payments[r.pid])
  }

  /** Every claim fits the row it names, whether that row exists or is yet to be created. */
  ghost predicate Validated(payments: map<string, Payment>, rs: map<nat, Request>) {
    && (forall t :: t in rs && IsClaim(rs[t]) ==> FitsRows(payments, rs[t]))
    && (forall t, u :: t in rs && u in rs && IsClaim(rs[t]) && rs[u].Create? && rs[u].pid == rs[t].pid ==> Fits(rs[t], rs[u].row))
  }

  lemma FitsEvolved(before: map<string, Payment>, after: map<string, Payment>, r: Request)
    requires TableEvolves(before, after) && IsClaim(r) && FitsRows(before, r)
    requires r.pid in after ==> r.pid in before
    ensures FitsRows(after, r)
  {
  }

  /** A step adds no row but the one it creates. */
  lemma StepAdds(cfg: Config, s: State, t: nat, a: Action)
    requires Inv(cfg, s) && Enabled(cfg, s, t, a)
    ensures var before, after := s.db.payments, Do(cfg, s, t, a).db.payments;
            if a.Insert? then s.txns[t].req.Create? && after == before[s.txns[t].req.pid := s.txns[t].req.row]
            else after.Keys == before.Keys
  {
    assert StableAt(cfg, s, t);
    if a.CommitTx? {
      CommitMarks(s.db, s.txns[t]);
    }
  }

  lemma StepValidated(cfg: Config, s: State, t: nat, a: Action)
    requires Inv(cfg, s) && Enabled(cfg, s, t, a) && Validated(s.db.payments, Requests(s))
    ensures Validated(Do(cfg, s, t, a).db.payments, Requests(s))
  {
    var rs, after := Requests(s), Do(cfg, s, t, a).db.payments;
    StepEvolves(cfg, s, t, a);
    StepAdds(cfg, s, t, a);
    forall u | u in rs && IsClaim(rs[u])
      ensures FitsRows(after, rs[u])
    {
      if a.Insert? && rs[t].pid == rs[u].pid {
        assert Fits(rs[u], rs[t].row);
      } else {
        FitsEvolved(s.db.payments, after, rs[u]);
      }
    }
  }

  lemma {:induction false} RunValidated(cfg: Config, tr: seq<State>, i: nat)
    requires Run(cfg, tr) && i < |tr| && Validated(tr[0].db.payments, Requests(tr[0]))
    ensures Validated(tr[i].db.payments, Requests(tr[0]))
  {
    if i > 0 {
      RunValidated(cfg, tr, i - 1);
      RunInv(cfg, tr, i - 1);
      RequestsFixed(cfg, tr, i - 1);
      var t, a := StepAt(cfg, tr, i - 1);
      StepValidated(cfg, tr[i - 1], t, a);
    }
  }
}
