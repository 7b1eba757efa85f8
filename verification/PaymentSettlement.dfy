/**
 Completion and credit are one event: exactly when a payment claimed during a run has exactly one credit in the ledger.
 */
module PaymentSettlement {
  import opened Base
  import opened Payments
  import opened PaymentRuns
  import opened PaymentInvariant
  import opened PaymentRefinement
  import opened PaymentLedger
  import opened PaymentSafety
  import opened PaymentRows

  // ----- a committed request has its row -----

  ghost predicate Posted(ledger: seq<Entry>, r: Request) {
    !r.Create? && PostingOf(r).key.Some? ==> LookUp(ledger, PostingOf(r)) == Existing
  }

  /** The index exists, or the requests that carry the key of r share their target. */
  ghost predicate Guarded(cfg: Config, rs: map<nat, Request>, r: Request) {
    cfg.index || (!r.Create? && PostingOf(r).key.Some? ==> OwnedKey(rs, PostingOf(r).customer, PostingOf(r).key.value))
  }

  ghost predicate AllPosted(cfg: Config, s: State) {
    forall i :: 0 <= i < |s.log| && Guarded(cfg, Requests(s), s.log[i]) ==> Posted(s.db.ledger, s.log[i])
  }

  lemma PostedStays(ledger: seq<Entry>, e: Entry, r: Request)
    requires Posted(ledger, r)
    ensures Posted(ledger + [e], r)
  {
    if !r.Create? && PostingOf(r).key.Some? {
      FindKeyAppend(ledger, e, PostingOf(r).customer, PostingOf(r).key.value);
    }
  }

  lemma CommitPosts(cfg: Config, s: State, t: nat)
    requires Inv(cfg, s) && Enabled(cfg, s, t, CommitTx) && Guarded(cfg, Requests(s), s.txns[t].req)
    ensures Posted(Publish(s.db, s.txns[t]).ledger, s.txns[t].req)
  {
    var x := s.txns[t];
    assert StableAt(cfg, s, t);
    assert KeyStable(cfg, OwnedAt(Requests(s), t), s.db, x);
    var p := PostingOf(x.req);
    if x.buf.entry.Some? && p.key.Some? {
      assert Carries(Requests(s)[t], p.customer, p.key.value);
      FindKeyAppend(s.db.ledger, x.buf.entry.value, p.customer, p.key.value);
    }
  }

  lemma StepPosted(cfg: Config, s: State, t: nat, a: Action)
    requires Inv(cfg, s) && Enabled(cfg, s, t, a) && AllPosted(cfg, s)
    ensures AllPosted(cfg, Do(cfg, s, t, a))
  {
    var s' := Do(cfg, s, t, a);
    StepCommitted(cfg, s, t, a);
    SameRequests(cfg, s, t, a);
    forall i | 0 <= i < |s'.log| && Guarded(cfg, Requests(s'), s'.log[i])
      ensures Posted(s'.db.ledger, s'.log[i])
    {
      if i < |s.log| {
        if a.CommitTx? && s.txns[t].buf.entry.Some? {
          PostedStays(s.db.ledger, s.txns[t].buf.entry.value, s.log[i]);
        }
      } else if a.CommitTx? {
        CommitPosts(cfg, s, t);
      }
    }
  }

  /** Every committed keyed request whose key is guarded has its matching row ever after. */
  lemma {:induction false} RunPosted(cfg: Config, tr: seq<State>, i: nat)
    requires Run(cfg, tr) && i < |tr|
    ensures AllPosted(cfg, tr[i])
  {
    if i > 0 {
      RunPosted(cfg, tr, i - 1);
      RunInv(cfg, tr, i - 1);
      var t, a := StepAt(cfg, tr, i - 1);
      StepPosted(cfg, tr[i - 1], t, a);
    }
  }

  // ----- a completed payment was claimed, and a ledger row was committed -----

  predicate ClaimedIn(log: seq<Request>, id: string) {
    exists j :: 0 <= j < |log| && IsClaim(log[j]) && log[j].pid == id
  }

  ghost predicate CompletedIsClaimed(first: Db, s: State) {
    forall id :: id in s.db.payments && s.db.payments[id].status == Completed ==>
      (id in first.payments && first.payments[id].status == Completed) || ClaimedIn(s.log, id)
  }

  lemma ClaimedGrows(log: seq<Request>, r: Request, id: string)
    requires ClaimedIn(log, id) || (IsClaim(r) && r.pid == id)
    ensures ClaimedIn(log + [r], id)
  {
    if ClaimedIn(log, id) {
      var j :| 0 <= j < |log| && IsClaim(log[j]) && log[j].pid == id;
      assert (log + [r])[j] == log[j];
    } else {
      assert (log + [r])[|log|] == r;
    }
  }

  lemma StepCompleted(cfg: Config, first: Db, s: State, t: nat, a: Action)
    requires Inv(cfg, s) && Enabled(cfg, s, t, a) && CompletedIsClaimed(first, s)
    ensures CompletedIsClaimed(first, Do(cfg, s, t, a))
  {
    var x, s' := s.txns[t], Do(cfg, s, t, a);
    assert StableAt(cfg, s, t);
    if a.CommitTx? || a.Insert? {
      if a.CommitTx? {
        CommitMarks(s.db, x);
      }
      forall id | id in s'.db.payments && s'.db.payments[id].status == Completed
        ensures (id in first.payments && first.payments[id].status == Completed) || ClaimedIn(s'.log, id)
      {
        if ClaimedIn(s.log, id) || (IsClaim(x.req) && x.req.pid == id) {
          ClaimedGrows(s.log, x.req, id);
        }
      }
    }
  }

  lemma {:induction false} RunCompleted(cfg: Config, tr: seq<State>, i: nat)
    requires Run(cfg, tr) && i < |tr|
    ensures CompletedIsClaimed(tr[0].db, tr[i])
  {
    if i > 0 {
      RunCompleted(cfg, tr, i - 1);
      RunInv(cfg, tr, i - 1);
      var t, a := StepAt(cfg, tr, i - 1);
      StepCompleted(cfg, tr[0].db, tr[i - 1], t, a);
    }
  }

  predicate WrittenBy(e: Entry, r: Request) {
    !r.Create? && e == EntryFor(PostingOf(r), e.balanceAfter)
  }

  /** The rows are those of the requests at the given places of the log, in commit order; every other request is a
      creation or carries a key. */
  ghost predicate WrittenAt(log: seq<Request>, rows: seq<Entry>, places: seq<int>) {
    && |places| == |rows|
    && (forall k, l :: 0 <= k < l < |places| ==> places[k] < places[l])
    && (forall k :: 0 <= k < |rows| ==> 0 <= places[k] < |log| && WrittenBy(rows[k], log[places[k]]))
    && (forall j :: 0 <= j < |log| && j !in places ==> RowlessRequest(log[j]))
  }

  predicate RowlessRequest(r: Request) {
    r.Create? || PostingOf(r).key.Some?
  }

  ghost predicate RowsWritten(log: seq<Request>, rows: seq<Entry>) {
    exists places :: WrittenAt(log, rows, places)
  }

  ghost predicate RowsCommitted(first: Db, s: State) {
    first.ledger <= s.db.ledger && RowsWritten(s.log, s.db.ledger[|first.ledger|..])
  }

  lemma WrittenRow(log: seq<Request>, rows: seq<Entry>, r: Request, e: Entry)
    requires RowsWritten(log, rows) && WrittenBy(e, r)
    ensures RowsWritten(log + [r], rows + [e])
  {
    var places :| WrittenAt(log, rows, places);
    var log', rows', places' := log + [r], rows + [e], places + [|log|];
    forall j | 0 <= j < |log'| && j !in places'
      ensures RowlessRequest(log'[j])
    {
      assert places'[|places|] == |log| && forall k :: 0 <= k < |places| ==> places'[k] == places[k];
    }
    assert WrittenAt(log', rows', places');
  }

  lemma WrittenRowless(log: seq<Request>, rows: seq<Entry>, r: Request)
    requires RowsWritten(log, rows) && RowlessRequest(r)
    ensures RowsWritten(log + [r], rows)
  {
    var places :| WrittenAt(log, rows, places);
    assert WrittenAt(log + [r], rows, places);
  }

  lemma StepRowsCommitted(cfg: Config, first: Db, s: State, t: nat, a: Action)
    requires Inv(cfg, s) && Enabled(cfg, s, t, a) && RowsCommitted(first, s)
    ensures RowsCommitted(first, Do(cfg, s, t, a))
  {
    var x, rows := s.txns[t], s.db.ledger[|first.ledger|..];
    assert StableAt(cfg, s, t);
    if a.CommitTx? && x.buf.entry.Some? {
      var e := x.buf.entry.value;
      assert Publish(s.db, x).ledger[|first.ledger|..] == rows + [e];
      WrittenRow(s.log, rows, x.req, e);
    } else if a.CommitTx? || a.Insert? {
      WrittenRowless(s.log, rows, x.req);
    }
  }

  /** No half is left behind: the new ledger rows are those of distinct committed requests in commit order, every
      committed request without a row of its own is a creation or carries a key, and the payment of every committed
      claim or refund shows it. */
  lemma {:induction false} RunRowsCommitted(cfg: Config, tr: seq<State>, i: nat)
    requires Run(cfg, tr) && i < |tr|
    ensures RowsCommitted(tr[0].db, tr[i]) && AllRecorded(tr[i])
  {
    RunRecorded(cfg, tr, i);
    if i == 0 {
      assert WrittenAt([], tr[0].db.ledger[|tr[0].db.ledger|..], []);
    } else {
      RunRowsCommitted(cfg, tr, i - 1);
      RunInv(cfg, tr, i - 1);
      var t, a := StepAt(cfg, tr, i - 1);
      StepRowsCommitted(cfg, tr[0].db, tr[i - 1], t, a);
    }
  }

  // ----- all or nothing -----

  /** The row credits the claim's amount to the claim's customer under the claim's key. */
  predicate CreditOf(e: Entry, r: Request) {
    IsClaim(r) && e.customer == r.customer && e.kind == Credit && e.amount == r.amount && e.key == Some(r.key)
  }

  /** Row k of the ledger is the credit of a committed claim of the payment. */
  ghost predicate Settles(s: State, id: string, k: nat) {
    k < |s.db.ledger| && exists r :: r in s.log && CreditOf(s.db.ledger[k], r) && r.pid == id
  }

  lemma CommittedRequest(cfg: Config, tr: seq<State>, i: nat, r: Request) returns (t: nat)
    requires Run(cfg, tr) && i < |tr| && r in tr[i].log
    ensures t in Requests(tr[0]) && Requests(tr[0])[t] == r
  {
    LogIsCommitted(cfg, tr, i);
    RequestsFixed(cfg, tr, i);
    assert LoggedBy(tr[i], r);
    t :| t in Committed(tr[i]) && Requests(tr[i])[t] == r;
  }

  /** A committed claim has its credit in the ledger. */
  lemma CreditExists(cfg: Config, tr: seq<State>, i: nat, q: Request) returns (k: nat)
    requires Run(cfg, tr) && i < |tr| && q in tr[i].log && IsClaim(q) && Guarded(cfg, Requests(tr[0]), q)
    ensures k < |tr[i].db.ledger| && CreditOf(tr[i].db.ledger[k], q)
  {
    RunPosted(cfg, tr, i);
    RequestsFixed(cfg, tr, i);
    var ledger := tr[i].db.ledger;
    assert Posted(ledger, q);
    var e := FindKey(ledger, q.customer, q.key).value;
    k :| 0 <= k < |ledger| && ledger[k] == e;
  }

  /** A guarded key has one row. */
  lemma OneRow(cfg: Config, tr: seq<State>, i: nat, q: Request, k: nat, l: nat)
    requires Run(cfg, tr) && i < |tr| && IsClaim(q) && Guarded(cfg, Requests(tr[0]), q)
    requires KeyUnique(tr[0].db.ledger, q.customer, q.key)
    requires k < |tr[i].db.ledger| && HasKey(tr[i].db.ledger[k], q.customer, q.key)
    requires l < |tr[i].db.ledger| && HasKey(tr[i].db.ledger[l], q.customer, q.key)
    ensures k == l
  {
    RunKeyUnique(cfg, tr, i, q.customer, q.key);
  }

  predicate ClaimOf(r: Request, id: string) {
    IsClaim(r) && r.pid == id
  }

  /** The committed claims of the payment carry one customer and one key. */
  ghost predicate OneDelivery(log: seq<Request>, id: string) {
    forall q, r :: q in log && r in log && ClaimOf(q, id) && ClaimOf(r, id) ==> q.customer == r.customer && q.key == r.key
  }

  ghost predicate OneCredit(s: State, id: string) {
    exists k: nat :: OnlySettles(s, id, k)
  }

  ghost predicate OnlySettles(s: State, id: string, k: nat) {
    Settles(s, id, k) && forall l: nat :: Settles(s, id, l) ==> l == k
  }

  /** The keys of the payment's claims are guarded, and new or unique in the ledger that the run started with. */
  ghost predicate ClaimsGuarded(cfg: Config, s: State, id: string) {
    forall t :: t in Requests(s) && ClaimOf(Requests(s)[t], id) ==>
      Guarded(cfg, Requests(s), Requests(s)[t]) && KeyUnique(s.db.ledger, Requests(s)[t].customer, Requests(s)[t].key)
  }

  lemma ClaimGuarded(cfg: Config, tr: seq<State>, i: nat, id: string, q: Request)
    requires Run(cfg, tr) && i < |tr| && ClaimsGuarded(cfg, tr[0], id) && q in tr[i].log && ClaimOf(q, id)
    ensures Guarded(cfg, Requests(tr[0]), q) && KeyUnique(tr[0].db.ledger, q.customer, q.key)
  {
    var t := CommittedRequest(cfg, tr, i, q);
  }

  lemma OneDeliveryOneCredit(cfg: Config, tr: seq<State>, i: nat, id: string)
    requires Run(cfg, tr) && i < |tr| && ClaimsGuarded(cfg, tr[0], id) && ClaimedIn(tr[i].log, id) && OneDelivery(tr[i].log, id)
    ensures OneCredit(tr[i], id)
  {
    var s := tr[i];
    var j :| 0 <= j < |s.log| && ClaimOf(s.log[j], id);
    var q := s.log[j];
    ClaimGuarded(cfg, tr, i, id, q);
    var k := CreditExists(cfg, tr, i, q);
    forall l: nat | Settles(s, id, l)
      ensures l == k
    {
      var r :| r in s.log && CreditOf(s.db.ledger[l], r) && r.pid == id;
      assert ClaimOf(q, id) && ClaimOf(r, id);
      OneRow(cfg, tr, i, q, k, l);
    }
    assert OnlySettles(s, id, k);
  }

  lemma OneCreditOneDelivery(cfg: Config, tr: seq<State>, i: nat, id: string)
    requires Run(cfg, tr) && i < |tr| && ClaimsGuarded(cfg, tr[0], id) && OneCredit(tr[i], id)
    ensures OneDelivery(tr[i].log, id)
  {
    var s := tr[i];
    forall q, r | q in s.log && r in s.log && ClaimOf(q, id) && ClaimOf(r, id)
      ensures q.customer == r.customer && q.key == r.key
    {
      ClaimGuarded(cfg, tr, i, id, q);
      ClaimGuarded(cfg, tr, i, id, r);
      var k := CreditExists(cfg, tr, i, q);
      var l := CreditExists(cfg, tr, i, r);
      assert Settles(s, id, k) && Settles(s, id, l);
    }
  }

  /** All or nothing: a payment claimed during the run has exactly one credit row if and only if its committed claims carry
      one customer and one key. */
  lemma OneCreditExactly(cfg: Config, tr: seq<State>, i: nat, id: string)
    requires Run(cfg, tr) && i < |tr| && ClaimsGuarded(cfg, tr[0], id) && ClaimedIn(tr[i].log, id)
    ensures OneCredit(tr[i], id) <==> OneDelivery(tr[i].log, id)
  {
    if OneDelivery(tr[i].log, id) {
      OneDeliveryOneCredit(cfg, tr, i, id);
    }
    if OneCredit(tr[i], id) {
      OneCreditOneDelivery(cfg, tr, i, id);
    }
  }

  predicate CreditsPayment(e: Entry, p: Payment) {
    e.kind == Credit && e.customer == p.customer && e.amount == p.amount
  }

  /** With validated claims every credit of a payment is of the payment's own amount, to the payment's own customer. */
  lemma SettlingFits(cfg: Config, tr: seq<State>, i: nat, id: string, k: nat)
    requires Run(cfg, tr) && i < |tr| && Validated(tr[0].db.payments, Requests(tr[0])) && Settles(tr[i], id, k)
    ensures id in tr[i].db.payments && CreditsPayment(tr[i].db.ledger[k], tr[i].db.payments[id])
  {
    var r :| r in tr[i].log && CreditOf(tr[i].db.ledger[k], r) && r.pid == id;
    var t := CommittedRequest(cfg, tr, i, r);
    RunRecorded(cfg, tr, i);
    assert Recorded(tr[i].db.payments, r);
    RunValidated(cfg, tr, i);
    assert FitsRows(tr[i].db.payments, r);
  }

  // ----- callers that repeat a delivery unchanged -----

  /** Deliveries of one gateway payment to one local payment carry one customer and one key, and the generic path is
      not used for PayPal. */
  ghost predicate Redelivered(s: State) {
    && (forall t, u :: t in Requests(s) && u in Requests(s) ==> SameDelivery(Requests(s)[t], Requests(s)[u]))
    && (forall t :: t in Requests(s) && Requests(s)[t].Complete? ==> Requests(s)[t].gateway != PAYPAL)
  }

  predicate SameDelivery(q: Request, r: Request) {
    SameGatewayPayment(q, r) && q.pid == r.pid ==> q.customer == r.customer && q.key == r.key
  }

  /** Two committed claims of one payment are deliveries of the same gateway payment. */
  lemma OneGatewayPayment(cfg: Config, tr: seq<State>, i: nat, q: Request, r: Request)
    requires Run(cfg, tr) && i < |tr| && q in tr[i].log && r in tr[i].log && IsClaim(q) && IsClaim(r) && q.pid == r.pid
    requires (q.Complete? ==> q.gateway != PAYPAL) && (r.Complete? ==> r.gateway != PAYPAL)
    ensures SameGatewayPayment(q, r)
  {
    RunRecorded(cfg, tr, i);
    assert Recorded(tr[i].db.payments, q) && Recorded(tr[i].db.payments, r);
  }

  lemma RedeliveredAlike(cfg: Config, tr: seq<State>, i: nat, id: string)
    requires Run(cfg, tr) && i < |tr| && Redelivered(tr[0])
    ensures OneDelivery(tr[i].log, id)
  {
    forall q, r | q in tr[i].log && r in tr[i].log && ClaimOf(q, id) && ClaimOf(r, id)
      ensures q.customer == r.customer && q.key == r.key
    {
      var t := CommittedRequest(cfg, tr, i, q);
      var u := CommittedRequest(cfg, tr, i, r);
      OneGatewayPayment(cfg, tr, i, q, r);
      assert SameDelivery(Requests(tr[0])[t], Requests(tr[0])[u]);
    }
  }

  /** A payment completed during a run of such callers has exactly one credit row; with validated claims it credits the
      payment's own amount to the payment's own customer. */
  lemma CompletedHasOneCredit(cfg: Config, tr: seq<State>, i: nat, id: string)
    requires Run(cfg, tr) && i < |tr| && ClaimsGuarded(cfg, tr[0], id) && Redelivered(tr[0])
    requires id in tr[i].db.payments && tr[i].db.payments[id].status == Completed
    requires id in tr[0].db.payments ==> tr[0].db.payments[id].status != Completed
    ensures exists k: nat ::
              && OnlySettles(tr[i], id, k)
              && (Validated(tr[0].db.payments, Requests(tr[0])) ==> CreditsPayment(tr[i].db.ledger[k], tr[i].db.payments[id]))
  {
    RunCompleted(cfg, tr, i);
    RedeliveredAlike(cfg, tr, i, id);
    OneDeliveryOneCredit(cfg, tr, i, id);
    var k: nat :| OnlySettles(tr[i], id, k);
    if Validated(tr[0].db.payments, Requests(tr[0])) {
      SettlingFits(cfg, tr, i, id, k);
    }
  }

  /** A credit row whose key is owned settles one payment. */
  lemma CreditSettlesOnePayment(cfg: Config, tr: seq<State>, i: nat, a: string, b: string, k: nat)
    requires Run(cfg, tr) && i < |tr| && Settles(tr[i], a, k) && Settles(tr[i], b, k)
    requires var e := tr[i].db.ledger[k];
             e.key.Some? ==> OwnedKey(Requests(tr[0]), e.customer, e.key.value)
    ensures a == b
  {
    var s := tr[i];
    var q :| q in s.log && CreditOf(s.db.ledger[k], q) && q.pid == a;
    var r :| r in s.log && CreditOf(s.db.ledger[k], r) && r.pid == b;
    var t := CommittedRequest(cfg, tr, i, q);
    var u := CommittedRequest(cfg, tr, i, r);
    assert SameKey(q, r);
    if t != u {
      assert OwnedAt(Requests(tr[0]), t);
      RunSettlesOnce(cfg, tr, i, q, r);
    }
  }
}
