/**
 What happens to payment rows over whole runs: how a row may change, that a committed request stays recorded on its row,
 and that a gateway payment or a PayPal capture settles one local payment.
 */
module PaymentSafety {
  import opened Base
  import opened Payments
  import opened PaymentRuns
  import opened PaymentInvariant
  import opened PaymentRefinement

  // ----- how a row may change -----

  /** Customer, gateway and amount are fixed. A row that left Pending keeps its gateway id and capture id and never
      returns; a refunded or failed row can only become refunded. A recorded capture id never changes, and recording
      one leaves the stored order id alone. */
  predicate Evolves(p: Payment, q: Payment) {
    && q.customer == p.customer && q.gateway == p.gateway && q.amount == p.amount
    && (p.status != Pending ==> q.status != Pending && q.gatewayId == p.gatewayId && q.captureId == p.captureId)
    && (p.status == Refunded || p.status == Failed ==> q == p || q == p.(status := Refunded))
    && (q.status == Pending ==> q == p)
    && (p.captureId.Some? ==> q.captureId == p.captureId)
    && (q.captureId != p.captureId ==> q.gatewayId == p.gatewayId)
  }

  lemma EvolvesAlong(p: Payment, q: Payment, r: Payment)
    requires Evolves(p, q) && Evolves(q, r)
    ensures Evolves(p, r)
  {
  }

  lemma MarkEvolves(p: Payment, r: Request)
    requires TouchesPayment(r) && CanClaim(p, r)
    ensures Evolves(p, Mark(p, r))
  {
  }

  ghost predicate TableEvolves(before: map<string, Payment>, after: map<string, Payment>) {
    forall id :: id in before ==> id in after && Evolves(before[id], after[id])
  }

  /** On the payments table a commit is one marked row. */
  lemma CommitMarks(db: Db, x: Txn)
    requires Live(x) && x.pc == Ready && RowsStable(db, x)
    ensures if x.req.Post? then Publish(db, x).payments == db.payments
            else
              && RowFound(db.payments, x.req) && CanClaim(db.payments[x.req.pid], x.req)
              && Publish(db, x).payments == db.payments[x.req.pid := Mark(db.payments[x.req.pid], x.req)]
  {
  }

  lemma StepEvolves(cfg: Config, s: State, t: nat, a: Action)
    requires Inv(cfg, s) && Enabled(cfg, s, t, a)
    ensures TableEvolves(s.db.payments, Do(cfg, s, t, a).db.payments)
  {
    var x := s.txns[t];
    assert StableAt(cfg, s, t);
    if a.CommitTx? {
      CommitMarks(s.db, x);
      if !x.req.Post? {
        MarkEvolves(s.db.payments[x.req.pid], x.req);
      }
    }
  }

  lemma EvolvesAt(cfg: Config, tr: seq<State>, i: nat)
    requires Run(cfg, tr) && i + 1 < |tr|
    ensures TableEvolves(tr[i].db.payments, tr[i + 1].db.payments)
  {
    RunInv(cfg, tr, i);
    var t, a := StepAt(cfg, tr, i);
    StepEvolves(cfg, tr[i], t, a);
  }

  /** Between any two points of a run every row evolves. */
  lemma {:induction false} RunEvolves(cfg: Config, tr: seq<State>, i: nat, j: nat)
    requires Run(cfg, tr) && i <= j < |tr|
    ensures TableEvolves(tr[i].db.payments, tr[j].db.payments)
  {
    if i < j {
      RunEvolves(cfg, tr, i, j - 1);
      EvolvesAt(cfg, tr, j - 1);
      ComposeEvolution(tr[i].db.payments, tr[j - 1].db.payments, tr[j].db.payments);
    }
  }

  lemma ComposeEvolution(a: map<string, Payment>, b: map<string, Payment>, c: map<string, Payment>)
    requires TableEvolves(a, b) && TableEvolves(b, c)
    ensures TableEvolves(a, c)
  {
    forall id | id in a
      ensures id in c && Evolves(a[id], c[id])
    {
      EvolvesAlong(a[id], b[id], c[id]);
    }
  }

  // ----- a committed request stays recorded -----

  /** The row still shows that the request committed. */
  predicate Recorded(payments: map<string, Payment>, r: Request) {
    r.Post? || (r.pid in payments && RecordedRow(payments[r.pid], r))
  }

  predicate RecordedRow(p: Payment, r: Request)
    requires !r.Post?
  {
    match r
    case Complete(_, g, gid, _, _, _) => p.gateway == g && p.gatewayId == Some(gid) && (p.status == Completed || p.status == Refunded)
    case Capture(_, o, c, _, _, _) =>
      && p.gateway == PAYPAL && p.gatewayId == Some(o) && p.captureId == Some(c)
      && (p.status == Completed || p.status == Refunded)
    case Refund(_, _, _, _) => p.status == Refunded
    case Create(_, row) => Evolves(row, p)
  }

  lemma RecordedEvolves(p: Payment, q: Payment, r: Request)
    requires !r.Post? && RecordedRow(p, r) && Evolves(p, q)
    requires q.status != Failed || p.status == Failed
    ensures RecordedRow(q, r)
  {
  }

  /** Nothing in the machine turns a row Failed. */
  ghost predicate NoNewFailures(before: map<string, Payment>, after: map<string, Payment>) {
    forall id :: id in before && id in after && after[id].status == Failed ==> before[id].status == Failed
  }

  ghost predicate AllRecorded(s: State) {
    forall i :: 0 <= i < |s.log| ==> Recorded(s.db.payments, s.log[i])
  }

  lemma RecordedStays(before: map<string, Payment>, after: map<string, Payment>, r: Request)
    requires TableEvolves(before, after) && NoNewFailures(before, after) && Recorded(before, r)
    ensures Recorded(after, r)
  {
    if !r.Post? {
      RecordedEvolves(before[r.pid], after[r.pid], r);
    }
  }

  lemma StepNoNewFailures(cfg: Config, s: State, t: nat, a: Action)
    requires Inv(cfg, s) && Enabled(cfg, s, t, a)
    ensures NoNewFailures(s.db.payments, Do(cfg, s, t, a).db.payments)
  {
    assert StableAt(cfg, s, t);
    if a.CommitTx? {
      CommitMarks(s.db, s.txns[t]);
    }
  }

  lemma CommitRecords(cfg: Config, s: State, t: nat, a: Action)
    requires Inv(cfg, s) && Enabled(cfg, s, t, a) && (a.CommitTx? || a.Insert?)
    ensures Recorded(Do(cfg, s, t, a).db.payments, s.txns[t].req)
  {
    assert StableAt(cfg, s, t);
    if a.CommitTx? {
      CommitMarks(s.db, s.txns[t]);
    }
  }

  lemma StepRecorded(cfg: Config, s: State, t: nat, a: Action)
    requires Inv(cfg, s) && Enabled(cfg, s, t, a) && AllRecorded(s)
    ensures AllRecorded(Do(cfg, s, t, a))
  {
    var s' := Do(cfg, s, t, a);
    StepEvolves(cfg, s, t, a);
    StepNoNewFailures(cfg, s, t, a);
    StepCommitted(cfg, s, t, a);
    forall i | 0 <= i < |s'.log|
      ensures Recorded(s'.db.payments, s'.log[i])
    {
      if i < |s.log| {
        RecordedStays(s.db.payments, s'.db.payments, s.log[i]);
      } else {
        CommitRecords(cfg, s, t, a);
      }
    }
  }

  /** A completed payment keeps the gateway id or capture id it was completed with, also after a refund. */
  lemma {:induction false} RunRecorded(cfg: Config, tr: seq<State>, i: nat)
    requires Run(cfg, tr) && i < |tr|
    ensures AllRecorded(tr[i])
  {
    if i > 0 {
      RunRecorded(cfg, tr, i - 1);
      RunInv(cfg, tr, i - 1);
      var t, a := StepAt(cfg, tr, i - 1);
      StepRecorded(cfg, tr[i - 1], t, a);
    }
  }

  // ----- one gateway payment settles one local payment -----

  ghost predicate ClaimedOnce(log: seq<Request>) {
    forall i, j :: 0 <= i < |log| && 0 <= j < |log| && SameGatewayPayment(log[i], log[j]) ==> log[i].pid == log[j].pid
  }

  /** Past its check, a claim is the only one of its gateway payment, apart from earlier ones of the same row. */
  ghost predicate Claimant(log: seq<Request>, x: Txn) {
    IsClaim(x.req) && (x.pc == Checked || PastMark(x)) ==>
      forall i :: 0 <= i < |log| && SameGatewayPayment(log[i], x.req) ==> log[i].pid == x.req.pid
  }

  ghost predicate ClaimsInv(s: State) {
    AllRecorded(s) && ClaimedOnce(s.log) && forall t :: t in s.txns ==> Claimant(s.log, s.txns[t])
  }

  /** The check finds every earlier claim of the id on another row. */
  lemma CheckedIsClaimant(s: State, r: Request, i: nat)
    requires AllRecorded(s) && IsClaim(r) && !HasOther(s.db.payments, r)
    requires i < |s.log| && SameGatewayPayment(s.log[i], r)
    ensures s.log[i].pid == r.pid
  {
    assert Recorded(s.db.payments, s.log[i]);
  }

  lemma CommitKeepsClaimant(cfg: Config, s: State, t: nat, u: nat)
    requires Inv(cfg, s) && Enabled(cfg, s, t, CommitTx)
    requires u in s.txns && u != t && Claimant(s.log, s.txns[u])
    ensures Claimant(s.log + [s.txns[t].req], s.txns[u])
  {
    var x, y := s.txns[t], s.txns[u];
    if HoldsAdvisory(x) && HoldsAdvisory(y) {
      assert Apart(cfg, x, y);
      ClaimsApart(cfg, x, y);
    }
  }

  lemma StatementKeepsClaimant(cfg: Config, s: State, t: nat)
    requires Enabled(cfg, s, t, Statement) && AllRecorded(s) && Claimant(s.log, s.txns[t])
    ensures Claimant(s.log, Advance(cfg, s.db, s.txns[t]))
  {
    var x := s.txns[t];
    if x.pc == RowHeld && !HasOther(s.db.payments, x.req) {
      forall i | 0 <= i < |s.log| && SameGatewayPayment(s.log[i], x.req)
        ensures s.log[i].pid == x.req.pid
      {
        CheckedIsClaimant(s, x.req, i);
      }
    }
  }

  lemma StepClaimants(cfg: Config, s: State, t: nat, a: Action, u: nat)
    requires Inv(cfg, s) && Enabled(cfg, s, t, a) && ClaimsInv(s) && u in s.txns
    ensures Claimant(Do(cfg, s, t, a).log, Do(cfg, s, t, a).txns[u])
  {
    if u == t {
      if a.Statement? {
        StatementKeepsClaimant(cfg, s, t);
      }
    } else if a.CommitTx? {
      CommitKeepsClaimant(cfg, s, t, u);
    }
  }

  lemma StepClaimedOnce(cfg: Config, s: State, t: nat, a: Action)
    requires Enabled(cfg, s, t, a) && ClaimedOnce(s.log) && Claimant(s.log, s.txns[t])
    ensures ClaimedOnce(Do(cfg, s, t, a).log)
  {
    StepCommitted(cfg, s, t, a);
  }

  lemma StepClaims(cfg: Config, s: State, t: nat, a: Action)
    requires Inv(cfg, s) && Enabled(cfg, s, t, a) && ClaimsInv(s)
    ensures ClaimsInv(Do(cfg, s, t, a))
  {
    StepRecorded(cfg, s, t, a);
    SameRequests(cfg, s, t, a);
    StepClaimedOnce(cfg, s, t, a);
    forall u | u in s.txns
      ensures Claimant(Do(cfg, s, t, a).log, Do(cfg, s, t, a).txns[u])
    {
      StepClaimants(cfg, s, t, a, u);
    }
  }

  lemma {:induction false} RunClaims(cfg: Config, tr: seq<State>, i: nat)
    requires Run(cfg, tr) && i < |tr|
    ensures ClaimsInv(tr[i])
  {
    if i > 0 {
      RunClaims(cfg, tr, i - 1);
      RunInv(cfg, tr, i - 1);
      var t, a := StepAt(cfg, tr, i - 1);
      StepClaims(cfg, tr[i - 1], t, a);
    }
  }

  /** Over any whole run, with any hash, a gateway payment or a capture completes at most one local payment, and that
      payment still shows the id at every later point. */
  lemma RunSettlesOnce(cfg: Config, tr: seq<State>, i: nat, q: Request, r: Request)
    requires Run(cfg, tr) && i < |tr| && q in tr[i].log && r in tr[i].log && SameGatewayPayment(q, r)
    ensures q.pid == r.pid
    ensures Recorded(tr[i].db.payments, q)
  {
    RunClaims(cfg, tr, i);
  }
}
