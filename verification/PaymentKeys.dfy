/** The idempotency keys that the payment service derives satisfy what the repository's guarantees ask of its callers. */
module PaymentKeys {
  import opened Base
  import opened Payments
  import opened PaymentRuns
  import opened PaymentInvariant
  import opened PaymentLedger
  import opened PaymentSafety
  import opened PaymentRows
  import opened PaymentSettlement

  /** The key of a credit: by gateway payment, for PayPal by capture. */
  function CreditKey(r: Request): string
    requires IsClaim(r)
  {
    if r.Capture? then "paypal:capture:" + r.captureId
    else if r.gateway == "stripe" then "stripe:payment:" + r.gatewayId
    else if r.gateway == "btcpay" then "btcpay:invoice:" + r.gatewayId
    else "nowpayments:payment:" + r.gatewayId
  }

  /** A claim as the service makes it. */
  predicate FromService(r: Request)
    requires IsClaim(r)
  {
    && (r.Complete? ==> (r.gateway == "stripe" && r.gatewayId != "") || r.gateway == "btcpay" || r.gateway == "nowpayments")
    && r.key == CreditKey(r)
  }

  lemma PrefixCut(p: string, a: string, b: string)
    requires p + a == p + b
    ensures a == b
  {
    assert (p + a)[|p|..] == a && (p + b)[|p|..] == b;
  }

  /** Equal keys come from deliveries of one gateway payment, whichever gateways are involved. */
  lemma KeyNamesTarget(q: Request, r: Request)
    requires IsClaim(q) && IsClaim(r) && FromService(q) && FromService(r) && q.key == r.key
    ensures SameTarget(q, r)
  {
    assert q.key[0] == r.key[0];
    assert q.Capture? <==> q.key[0] == 'p';
    assert r.Capture? <==> r.key[0] == 'p';
    if q.Capture? {
      PrefixCut("paypal:capture:", q.captureId, r.captureId);
    } else {
      assert q.gateway == r.gateway;
      PrefixCut(if q.gateway == "stripe" then "stripe:payment:" else if q.gateway == "btcpay" then "btcpay:invoice:"
                else "nowpayments:payment:", q.gatewayId, r.gatewayId);
    }
  }

  /** The claims come from the service. Beside them run any refunds and postings that do not use a claim's key. */
  ghost predicate ServiceRun(s: State) {
    && (forall t :: t in Requests(s) && IsClaim(Requests(s)[t]) ==> FromService(Requests(s)[t]))
    && (forall t, u :: t in Requests(s) && u in Requests(s) ==> KeysApart(Requests(s)[t], Requests(s)[u]))
  }

  predicate KeysApart(q: Request, r: Request) {
    IsClaim(q) && !IsClaim(r) && !r.Create? ==> PostingOf(r).key != Some(q.key)
  }

  /** The key of an hourly charge. */
  function HourlyKey(vm: string, hour: string): string {
    "hourly:" + vm + ":" + hour
  }

  /** Hourly charges never use a claim's key. */
  lemma HourlyKeysApart(q: Request, r: Request, vm: string, hour: string)
    requires IsClaim(q) && FromService(q) && r.Post? && r.posting.key == Some(HourlyKey(vm, hour))
    ensures KeysApart(q, r)
  {
    assert HourlyKey(vm, hour)[0] == 'h';
    assert q.key[0] == (if q.Capture? then 'p' else if q.gateway == "stripe" then 's' else if q.gateway == "btcpay" then 'b' else 'n');
  }

  /** The key of every claim is owned, whatever keys refunds and postings repeat. */
  lemma ServiceKeysOwned(s: State, t: nat)
    requires ServiceRun(s) && t in Requests(s) && IsClaim(Requests(s)[t])
    ensures OwnedKey(Requests(s), Requests(s)[t].customer, Requests(s)[t].key)
  {
    var rs, q := Requests(s), Requests(s)[t];
    forall u, v | u in rs && v in rs && Carries(rs[u], q.customer, q.key) && SameKey(rs[u], rs[v])
      ensures SameTarget(rs[u], rs[v])
    {
      assert KeysApart(q, rs[u]) && KeysApart(q, rs[v]);
      KeyNamesTarget(rs[u], rs[v]);
    }
  }

  lemma ServiceGuarded(cfg: Config, tr: seq<State>, i: nat, q: Request)
    requires Run(cfg, tr) && i < |tr| && ServiceRun(tr[0]) && q in tr[i].log && IsClaim(q)
    ensures FromService(q) && Guarded(cfg, Requests(tr[0]), q)
  {
    var t := CommittedRequest(cfg, tr, i, q);
    ServiceKeysOwned(tr[0], t);
  }

  /** Committed deliveries of one gateway payment are for one payment, customer and amount, under one key. */
  lemma OneCustomer(cfg: Config, tr: seq<State>, i: nat, q: Request, r: Request)
    requires Run(cfg, tr) && i < |tr| && ServiceRun(tr[0]) && Validated(tr[0].db.payments, Requests(tr[0]))
    requires q in tr[i].log && r in tr[i].log && SameGatewayPayment(q, r)
    ensures q.pid == r.pid && q.customer == r.customer && q.amount == r.amount && q.key == r.key
  {
    RunSettlesOnce(cfg, tr, i, q, r);
    RunValidated(cfg, tr, i);
    var t := CommittedRequest(cfg, tr, i, q);
    var u := CommittedRequest(cfg, tr, i, r);
    assert FitsRows(tr[i].db.payments, q) && FitsRows(tr[i].db.payments, r);
  }

  /** Row k credits the gateway payment of q, and no other row does: neither one that credits another committed delivery
      of it, nor any row written under its key during the run, whoever its customer is. */
  ghost predicate OnlyCredit(first: Db, s: State, q: Request, k: nat)
    requires IsClaim(q)
  {
    && k < |s.db.ledger| && CreditOf(s.db.ledger[k], q)
    && (forall r, l :: r in s.log && SameGatewayPayment(q, r) && 0 <= l < |s.db.ledger| && CreditOf(s.db.ledger[l], r) ==> l == k)
    && (forall l :: |first.ledger| <= l < |s.db.ledger| && s.db.ledger[l].key == Some(q.key) ==> l == k)
  }

  /** The committed request that wrote a new row. */
  lemma WriterOf(cfg: Config, tr: seq<State>, i: nat, l: nat) returns (r: Request)
    requires Run(cfg, tr) && i < |tr| && |tr[0].db.ledger| <= l < |tr[i].db.ledger|
    ensures r in tr[i].log && WrittenBy(tr[i].db.ledger[l], r)
  {
    RunRowsCommitted(cfg, tr, i);
    var rows := tr[i].db.ledger[|tr[0].db.ledger|..];
    var places :| WrittenAt(tr[i].log, rows, places);
    assert tr[i].db.ledger[l] == rows[l - |tr[0].db.ledger|];
    r := tr[i].log[places[l - |tr[0].db.ledger|]];
  }

  /** A new row under the key of a committed claim credits that claim's customer. */
  lemma KeyCredits(cfg: Config, tr: seq<State>, i: nat, q: Request, l: nat)
    requires Run(cfg, tr) && i < |tr| && ServiceRun(tr[0]) && Validated(tr[0].db.payments, Requests(tr[0]))
    requires q in tr[i].log && IsClaim(q)
    requires |tr[0].db.ledger| <= l < |tr[i].db.ledger| && tr[i].db.ledger[l].key == Some(q.key)
    ensures HasKey(tr[i].db.ledger[l], q.customer, q.key)
  {
    var r := WriterOf(cfg, tr, i, l);
    var t := CommittedRequest(cfg, tr, i, q);
    var u := CommittedRequest(cfg, tr, i, r);
    assert KeysApart(Requests(tr[0])[t], Requests(tr[0])[u]);
    KeyNamesTarget(q, r);
    OneCustomer(cfg, tr, i, q, r);
  }

  /** Once a delivery of a gateway payment commits, exactly one row credits that gateway payment, however many deliveries
      run at once, whatever refunds, hourly charges and other postings run beside them, with or without the unique index. */
  lemma ServiceCreditsOnce(cfg: Config, tr: seq<State>, i: nat, q: Request)
    requires Run(cfg, tr) && i < |tr| && ServiceRun(tr[0]) && Validated(tr[0].db.payments, Requests(tr[0]))
    requires q in tr[i].log && IsClaim(q) && KeyUnique(tr[0].db.ledger, q.customer, q.key)
    ensures exists k: nat :: OnlyCredit(tr[0].db, tr[i], q, k)
  {
    var ledger := tr[i].db.ledger;
    ServiceGuarded(cfg, tr, i, q);
    var k := CreditExists(cfg, tr, i, q);
    forall r, l | r in tr[i].log && SameGatewayPayment(q, r) && 0 <= l < |ledger| && CreditOf(ledger[l], r)
      ensures l == k
    {
      OneCustomer(cfg, tr, i, q, r);
      OneRow(cfg, tr, i, q, k, l);
    }
    forall l | |tr[0].db.ledger| <= l < |ledger| && ledger[l].key == Some(q.key)
      ensures l == k
    {
      KeyCredits(cfg, tr, i, q, l);
      OneRow(cfg, tr, i, q, k, l);
    }
    assert OnlyCredit(tr[0].db, tr[i], q, k);
  }

  /** In such a run every payment that was claimed has exactly one credit row, of its own amount to its own customer, also
      after a refund. */
  lemma ServiceSettlesOnce(cfg: Config, tr: seq<State>, i: nat, id: string)
    requires Run(cfg, tr) && i < |tr| && ServiceRun(tr[0]) && Validated(tr[0].db.payments, Requests(tr[0]))
    requires KeysUnique(tr[0].db.ledger) && ClaimedIn(tr[i].log, id)
    ensures exists k: nat ::
              OnlySettles(tr[i], id, k) && id in tr[i].db.payments && CreditsPayment(tr[i].db.ledger[k], tr[i].db.payments[id])
  {
    forall t | t in Requests(tr[0]) && ClaimOf(Requests(tr[0])[t], id)
      ensures Guarded(cfg, Requests(tr[0]), Requests(tr[0])[t])
    {
      ServiceKeysOwned(tr[0], t);
    }
    forall q, r | q in tr[i].log && r in tr[i].log && ClaimOf(q, id) && ClaimOf(r, id)
      ensures q.customer == r.customer && q.key == r.key
    {
      ServiceGuarded(cfg, tr, i, q);
      ServiceGuarded(cfg, tr, i, r);
      OneGatewayPayment(cfg, tr, i, q, r);
      OneCustomer(cfg, tr, i, q, r);
    }
    OneDeliveryOneCredit(cfg, tr, i, id);
    var k: nat :| OnlySettles(tr[i], id, k);
    SettlingFits(cfg, tr, i, id, k);
  }
}
