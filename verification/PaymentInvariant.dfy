/**
 The invariants that every step of the interleaved machine keeps: locks are exclusive, and what a transaction read
 under its locks still holds of the committed tables.
 */
module PaymentInvariant {
  import opened Base
  import opened Payments
  import opened PaymentRuns

  ghost predicate Exclusive(cfg: Config, s: State) {
    forall t, u, l :: t in s.txns && u in s.txns && Holds(cfg, s.txns[t], l) && Holds(cfg, s.txns[u], l) ==> t == u
  }

  /** What an unfinished transaction may rely on because of the rows it locked. */
  ghost predicate RowsStable(db: Db, x: Txn) {
    Live(x) ==>
      && Shaped(x)
      && (HoldsRow(x) ==> RowFound(db.payments, x.req) && CanClaim(db.payments[x.req.pid], x.req))
      && (x.buf.payment.Some? ==> x.buf.payment == Some(Mark(db.payments[x.req.pid], x.req)))
      && (HoldsCustomer(x) ==>
        && var p := PostingOf(x.req);
        && p.customer in db.balances
        && (x.pc.BalanceRead? ==> x.pc.seen == db.balances[p.customer])
        && (x.buf.balance.Some? ==> x.buf.balance == Some(Wrap(db.balances[p.customer] + Delta(p))))
        && (x.buf.entry.Some? ==> x.buf.entry == Some(EntryFor(p, x.buf.balance.value))))
      && (x.pc == Ready && x.buf.entry.None? ==> LookUp(db.ledger, PostingOf(x.req)) == Existing)
  }

  /** No other payment holds the id this claim is about to record. */
  ghost predicate ClaimStable(cfg: Config, db: Db, x: Txn) {
    IsClaim(x.req) && (x.pc == Checked || PastMark(x)) && (x.req.Complete? ==> cfg.reserve) ==> !HasOther(db.payments, x.req)
  }

  predicate SameGatewayPayment(q: Request, r: Request) {
    || (q.Complete? && r.Complete? && q.gateway == r.gateway && q.gatewayId == r.gatewayId)
    || (q.Capture? && r.Capture? && q.captureId == r.captureId)
  }

  /** The two requests are serialised by the same lock before either looks up its key: they complete the same gateway
      payment, record the same capture, or refund the same payment. */
  predicate SameTarget(q: Request, r: Request) {
    SameGatewayPayment(q, r) || (q.Refund? && r.Refund? && q.pid == r.pid)
  }

  predicate SameKey(q: Request, r: Request) {
    && !q.Create? && !r.Create?
    && PostingOf(q).key.Some?
    && PostingOf(q).key == PostingOf(r).key
    && PostingOf(q).customer == PostingOf(r).customer
  }

  ghost function Requests(s: State): map<nat, Request> {
    map t | t in s.txns :: s.txns[t].req
  }

  /** Every other request with the key of request t has the same target. */
  ghost predicate OwnedAt(rs: map<nat, Request>, t: nat) {
    forall u :: t in rs && u in rs && t != u && SameKey(rs[t], rs[u]) ==> SameTarget(rs[t], rs[u])
  }

  ghost predicate OwnedKeys(rs: map<nat, Request>) {
    forall t :: t in rs ==> OwnedAt(rs, t)
  }

  predicate Carries(r: Request, customer: string, key: string) {
    !r.Create? && PostingOf(r).customer == customer && PostingOf(r).key == Some(key)
  }

  /** The requests that carry the key share their target. */
  ghost predicate OwnedKey(rs: map<nat, Request>, customer: string, key: string) {
    forall t :: t in rs && Carries(rs[t], customer, key) ==> OwnedAt(rs, t)
  }

  /** Each idempotency key of a customer belongs to one gateway payment or one refunded payment. */
  ghost predicate KeyOwned(s: State) {
    OwnedKeys(Requests(s))
  }

  /** The key this transaction is about to insert is still absent from the ledger. */
  ghost predicate KeyStable(cfg: Config, owned: bool, db: Db, x: Txn) {
    PastLookup(x) && !x.req.Create? && (owned || (cfg.index && x.pc == Ready)) ==> LookUp(db.ledger, PostingOf(x.req)) == Fresh
  }

  ghost predicate Stable(cfg: Config, owned: bool, db: Db, x: Txn) {
    RowsStable(db, x) && ClaimStable(cfg, db, x) && KeyStable(cfg, owned, db, x)
  }

  ghost predicate StableAt(cfg: Config, s: State, t: nat)
    requires t in s.txns
  {
    Stable(cfg, OwnedAt(Requests(s), t), s.db, s.txns[t])
  }

  ghost predicate Inv(cfg: Config, s: State) {
    Exclusive(cfg, s) && forall t {:trigger StableAt(cfg, s, t)} :: t in s.txns ==> StableAt(cfg, s, t)
  }

  lemma InitialInv(cfg: Config, s: State)
    requires Initial(s)
    ensures Inv(cfg, s)
  {
  }

  // ----- one statement -----

  lemma AdvanceHolds(cfg: Config, db: Db, x: Txn, l: Lock)
    requires Live(x) && Shaped(x) && x.pc != Ready && !x.req.Create?
    requires Holds(cfg, Advance(cfg, db, x), l)
    ensures Holds(cfg, x, l) || Wanted(cfg, x) == Some(l)
  {
  }

  lemma AdvanceStable(cfg: Config, owned: bool, db: Db, x: Txn)
    requires Live(x) && x.pc != Ready && !x.req.Create?
    requires Stable(cfg, owned, db, x)
    ensures Advance(cfg, db, x).req == x.req && Stable(cfg, owned, db, Advance(cfg, db, x))
  {
  }

  // ----- a commit seen by another transaction -----

  /** x is at COMMIT, y is another unfinished transaction; they hold no lock in common. */
  ghost predicate Apart(cfg: Config, x: Txn, y: Txn) {
    forall l :: !(Holds(cfg, x, l) && Holds(cfg, y, l))
  }

  lemma CommitKeepsRows(cfg: Config, db: Db, x: Txn, y: Txn)
    requires Live(x) && x.pc == Ready && RowsStable(db, x) && Live(y) && RowsStable(db, y)
    requires Apart(cfg, x, y)
    ensures RowsStable(Publish(db, x), y)
  {
    if HoldsRow(y) && HoldsRow(x) {
      assert Holds(cfg, x, PaymentRow(x.req.pid));
      assert !Holds(cfg, y, PaymentRow(x.req.pid));
    }
    if HoldsCustomer(y) && HoldsCustomer(x) {
      assert Holds(cfg, x, CustomerRow(PostingOf(x.req).customer));
      assert !Holds(cfg, y, CustomerRow(PostingOf(x.req).customer));
    }
    if y.pc == Ready && y.buf.entry.None? && x.buf.entry.Some? {
      var p := PostingOf(y.req);
      FindKeyAppend(db.ledger, x.buf.entry.value, p.customer, p.key.value);
    }
  }

  lemma CommitKeepsClaim(cfg: Config, db: Db, x: Txn, y: Txn)
    requires Live(x) && x.pc == Ready && RowsStable(db, x)
    requires ClaimStable(cfg, db, y) && Apart(cfg, x, y)
    ensures ClaimStable(cfg, Publish(db, x), y)
  {
    if IsClaim(x.req) && IsClaim(y.req) && HoldsAdvisory(y) {
      var h := cfg.hash(AdvisoryName(x.req));
      assert Holds(cfg, x, Advisory(h));
      assert !Holds(cfg, y, Advisory(h));
    }
  }

  lemma CommitKeepsKey(cfg: Config, owned: bool, db: Db, x: Txn, y: Txn)
    requires Live(x) && x.pc == Ready && RowsStable(db, x) && Live(y) && Shaped(y)
    requires KeyStable(cfg, owned, db, y) && Apart(cfg, x, y)
    requires owned && SameKey(x.req, y.req) ==> SameTarget(x.req, y.req)
    ensures KeyStable(cfg, owned, Publish(db, x), y)
  {
    if x.buf.entry.Some? && PastLookup(y) && !y.req.Create? && PostingOf(y.req).key.Some? {
      var p := PostingOf(y.req);
      FindKeyAppend(db.ledger, x.buf.entry.value, p.customer, p.key.value);
      if SameKey(x.req, y.req) {
        SerialisedByLock(cfg, x, y);
        assert Holds(cfg, x, CustomerRow(p.customer));
      }
    }
  }

  /** Among claims of one gateway, and among captures, an advisory name names the gateway payment or capture. */
  lemma NameNamesPayment(q: Request, r: Request)
    requires (q.Complete? && r.Complete? && q.gateway == r.gateway) || (q.Capture? && r.Capture?)
    ensures AdvisoryName(q) == AdvisoryName(r) <==> SameGatewayPayment(q, r)
  {
    var prefix := if q.Complete? then q.gateway + ":" else "paypal_capture" + ":";
    var a, b := if q.Complete? then q.gatewayId else q.captureId, if r.Complete? then r.gatewayId else r.captureId;
    assert AdvisoryName(q)[|prefix|..] == a && AdvisoryName(r)[|prefix|..] == b;
  }

  /** Claims past their advisory lock are of different gateway payments, whatever the hash. */
  lemma ClaimsApart(cfg: Config, x: Txn, y: Txn)
    requires HoldsAdvisory(x) && HoldsAdvisory(y) && Apart(cfg, x, y)
    ensures !SameGatewayPayment(x.req, y.req)
  {
    if SameGatewayPayment(x.req, y.req) {
      var h := cfg.hash(AdvisoryName(x.req));
      assert Holds(cfg, x, Advisory(h)) && Holds(cfg, y, Advisory(h));
    }
  }

  /** Transactions on the same target share a lock from their first statement on. */
  lemma SerialisedByLock(cfg: Config, x: Txn, y: Txn)
    requires Live(x) && x.pc == Ready && Shaped(x) && Live(y) && Shaped(y) && PastLookup(y)
    requires Apart(cfg, x, y)
    ensures !SameTarget(x.req, y.req)
  {
    if IsClaim(x.req) && IsClaim(y.req) {
      ClaimsApart(cfg, x, y);
    } else if SameTarget(x.req, y.req) {
      assert Holds(cfg, x, PaymentRow(x.req.pid)) && Holds(cfg, y, PaymentRow(x.req.pid));
    }
  }

  lemma InsertKeeps(cfg: Config, s: State, r: Request, owned: bool, y: Txn)
    requires r.Create? && MayCreate(cfg, s, r)
    requires cfg.reserve ==> !Reserves(y, r)
    requires Stable(cfg, owned, s.db, y)
    ensures Stable(cfg, owned, s.db.(payments := s.db.payments[r.pid := r.row]), y)
  {
  }

  // ----- every step keeps the invariant -----

  lemma HolderAlone(cfg: Config, s: State, t: nat, a: Action, u: nat, l: Lock)
    requires Inv(cfg, s) && Enabled(cfg, s, t, a) && u in s.txns && u != t
    ensures !(Holds(cfg, Do(cfg, s, t, a).txns[t], l) && Holds(cfg, s.txns[u], l))
  {
    assert !Waits(cfg, s, t, u) || !a.Statement?;
    if a.Statement? && Holds(cfg, Advance(cfg, s.db, s.txns[t]), l) {
      AdvanceHolds(cfg, s.db, s.txns[t], l);
    }
  }

  lemma StepExclusive(cfg: Config, s: State, t: nat, a: Action)
    requires Inv(cfg, s) && Enabled(cfg, s, t, a)
    ensures Exclusive(cfg, Do(cfg, s, t, a))
  {
    forall u, l | u in s.txns && u != t
      ensures !(Holds(cfg, Do(cfg, s, t, a).txns[t], l) && Holds(cfg, s.txns[u], l))
    {
      HolderAlone(cfg, s, t, a, u, l);
    }
  }

  lemma SameRequests(cfg: Config, s: State, t: nat, a: Action)
    requires Enabled(cfg, s, t, a)
    ensures Requests(Do(cfg, s, t, a)) == Requests(s)
  {
  }

  lemma OthersStable(cfg: Config, s: State, t: nat, a: Action, u: nat)
    requires Inv(cfg, s) && Enabled(cfg, s, t, a) && u in s.txns && u != t
    ensures Stable(cfg, OwnedAt(Requests(s), u), Do(cfg, s, t, a).db, s.txns[u])
  {
    var x, y, owned := s.txns[t], s.txns[u], OwnedAt(Requests(s), u);
    assert StableAt(cfg, s, t) && StableAt(cfg, s, u);
    if a.CommitTx? {
      assert Apart(cfg, x, y);
      assert Requests(s)[t] == x.req && Requests(s)[u] == y.req;
      CommitKeepsClaim(cfg, s.db, x, y);
      if Live(y) {
        CommitKeepsRows(cfg, s.db, x, y);
        CommitKeepsKey(cfg, owned, s.db, x, y);
      }
    } else if a.Insert? {
      InsertKeeps(cfg, s, x.req, owned, y);
    }
  }

  lemma OwnStable(cfg: Config, s: State, t: nat, a: Action)
    requires Inv(cfg, s) && Enabled(cfg, s, t, a)
    ensures var s' := Do(cfg, s, t, a);
            Stable(cfg, OwnedAt(Requests(s), t), s'.db, s'.txns[t])
  {
    assert StableAt(cfg, s, t);
    if a.Statement? {
      AdvanceStable(cfg, OwnedAt(Requests(s), t), s.db, s.txns[t]);
    }
  }

  lemma StepInv(cfg: Config, s: State, t: nat, a: Action)
    requires Inv(cfg, s) && Enabled(cfg, s, t, a)
    ensures Inv(cfg, Do(cfg, s, t, a))
  {
    var s' := Do(cfg, s, t, a);
    StepExclusive(cfg, s, t, a);
    SameRequests(cfg, s, t, a);
    forall u | u in s'.txns
      ensures StableAt(cfg, s', u)
    {
      if u == t {
        OwnStable(cfg, s, t, a);
      } else {
        OthersStable(cfg, s, t, a, u);
      }
    }
  }

  /** Every state of every run satisfies the invariant. */
  lemma {:induction false} RunInv(cfg: Config, tr: seq<State>, i: nat)
    requires Run(cfg, tr) && i < |tr|
    ensures Inv(cfg, tr[i])
  {
    if i == 0 {
      InitialInv(cfg, tr[0]);
    } else {
      RunInv(cfg, tr, i - 1);
      var t, a := StepAt(cfg, tr, i - 1);
      StepInv(cfg, tr[i - 1], t, a);
    }
  }

  lemma {:induction false} RequestsFixed(cfg: Config, tr: seq<State>, i: nat)
    requires Run(cfg, tr) && i < |tr|
    ensures Requests(tr[i]) == Requests(tr[0])
  {
    if i > 0 {
      RequestsFixed(cfg, tr, i - 1);
      var t, a := StepAt(cfg, tr, i - 1);
      SameRequests(cfg, tr[i - 1], t, a);
    }
  }
}
