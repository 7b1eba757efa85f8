/**
 The interleaved execution of billing transactions under PostgreSQL's READ COMMITTED isolation.

 Each transaction executes one SQL statement per step: it reads the latest committed tables, keeps its writes in a
 private buffer, and holds every lock it took until it commits or rolls back. Any unfinished transaction may fail and
 roll back at any point. Statements that need a lock wait until no other transaction holds it.
 */
module PaymentRuns {
  import opened Base
  import opened Payments

  datatype Outcome = Done | Rejected | Repeated | Broken

  /** The next statement of a transaction. */
  datatype Pc =
    | Begun            // nothing executed yet
    | Locked           // advisory lock taken
    | RowHeld          // payment row selected FOR UPDATE and found claimable
    | Checked          // no other payment holds the gateway or capture id
    | Marked           // payment row updated; next is the idempotency lookup
    | Looked           // key not in the ledger; next is the customer row
    | BalanceRead(seen: int)
    | BalanceSet
    | Ready            // next is COMMIT
    | Finished(outcome: Outcome)

  /** Uncommitted writes of one transaction. */
  datatype Buffer = Buffer(payment: Option<Payment>, balance: Option<int>, entry: Option<Entry>)

  datatype Txn = Txn(req: Request, pc: Pc, buf: Buffer)

  datatype Lock = Advisory(hash: int) | PaymentRow(id: string) | CustomerRow(id: string)

  /** hash is the server's hashtext, about which nothing is assumed. index says whether the unique index on
      (customer_id, idempotency_key) exists. reserve says that rows are not created with a gateway id that another
      payment is being completed with at that moment. */
  datatype Config = Config(hash: string -> int, index: bool, reserve: bool)

  /** The committed tables, all transactions, and the committed requests in commit order. */
  datatype State = State(db: Db, txns: map<nat, Txn>, log: seq<Request>)

  const EMPTY := Buffer(None, None, None)

  predicate Live(x: Txn) {
    !x.pc.Finished?
  }

  // ----- locks -----

  function AdvisoryName(r: Request): string
    requires IsClaim(r)
  {
    if r.Complete? then r.gateway + ":" + r.gatewayId else "paypal_capture" + ":" + r.captureId
  }

  predicate HoldsAdvisory(x: Txn) {
    IsClaim(x.req) && Live(x) && x.pc != Begun
  }

  predicate HoldsRow(x: Txn) {
    TouchesPayment(x.req) && Live(x) && x.pc != Begun && x.pc != Locked
  }

  predicate HoldsCustomer(x: Txn) {
    !x.req.Create? && (x.pc.BalanceRead? || x.pc == BalanceSet || (x.pc == Ready && x.buf.entry.Some?))
  }

  predicate Holds(cfg: Config, x: Txn, l: Lock) {
    match l
    case Advisory(h) => HoldsAdvisory(x) && cfg.hash(AdvisoryName(x.req)) == h
    case PaymentRow(id) => HoldsRow(x) && x.req.pid == id
    case CustomerRow(id) => HoldsCustomer(x) && PostingOf(x.req).customer == id
  }

  /** The lock that the next statement waits for. */
  function Wanted(cfg: Config, x: Txn): Option<Lock> {
    if x.req.Create? then None
    else match x.pc
      case Begun => if IsClaim(x.req) then Some(Advisory(cfg.hash(AdvisoryName(x.req))))
                    else if x.req.Refund? then Some(PaymentRow(x.req.pid)) else None
      case Locked => if IsClaim(x.req) then Some(PaymentRow(x.req.pid)) else None
      case Looked => Some(CustomerRow(PostingOf(x.req).customer))
      case _ => None
  }

  predicate Waits(cfg: Config, s: State, t: nat, u: nat)
    requires t in s.txns && u in s.txns
  {
    t != u && Wanted(cfg, s.txns[t]).Some? && Holds(cfg, s.txns[u], Wanted(cfg, s.txns[t]).value)
  }

  predicate Free(cfg: Config, s: State, t: nat)
    requires t in s.txns
  {
    forall u | u in s.txns :: !Waits(cfg, s, t, u)
  }

  // ----- statements -----

  function Stop(x: Txn, o: Outcome): Txn {
    x.(pc := Finished(o))
  }

  function BeginOf(r: Request): Txn {
    Txn(r, if r.Post? then (if r.posting.key.Some? then Marked else Looked) else Begun, EMPTY)
  }

  predicate PastMark(x: Txn) {
    x.pc == Marked || PastLookup(x) || x.pc == Ready
  }

  predicate PastLookup(x: Txn) {
    x.pc == Looked || x.pc.BalanceRead? || x.pc == BalanceSet || (x.pc == Ready && x.buf.entry.Some?)
  }

  /** Which statements each kind of transaction executes, and what its buffer holds before each. */
  predicate Shaped(x: Txn) {
    && (x.req.Create? ==> x.pc == Begun)
    && (x.req.Post? ==> PastLookup(x) || x.pc == Marked)
    && (x.req.Refund? ==> x.pc == Begun || PastMark(x))
    && (x.buf.payment.Some? <==> TouchesPayment(x.req) && PastMark(x))
    && (x.buf.balance.Some? <==> x.pc == BalanceSet || x.buf.entry.Some?)
    && (x.buf.entry.Some? ==> x.pc == Ready)
  }

  /** One statement of a transaction that is not at its COMMIT. */
  function Advance(cfg: Config, db: Db, x: Txn): Txn
    requires Live(x) && Shaped(x) && x.pc != Ready && !x.req.Create?
  {
    var r := x.req;
    match x.pc
    case Begun =>
      if IsClaim(r) then x.(pc := Locked)
      else if RowFound(db.payments, r) then Marking(db, x)
      else Stop(x, Broken)
    case Locked =>
      if !RowFound(db.payments, r) then Stop(x, Broken)
      else if CanClaim(db.payments[r.pid], r) then x.(pc := RowHeld)
      else Stop(x, Rejected)
    case RowHeld =>
      if HasOther(db.payments, r) then Stop(x, Rejected) else x.(pc := Checked)
    case Checked =>
      if RowFound(db.payments, r) then Marking(db, x) else Stop(x, Broken)
    case Marked =>
      (match LookUp(db.ledger, PostingOf(r))
       case Conflict => Stop(x, Broken)
       case Existing => if r.Post? then Stop(x, Repeated) else x.(pc := Ready)
       case Fresh => x.(pc := Looked))
    case Looked =>
      var c := PostingOf(r).customer;
      if c in db.balances then x.(pc := BalanceRead(db.balances[c])) else Stop(x, Broken)
    case BalanceRead(seen) =>
      x.(pc := BalanceSet, buf := x.buf.(balance := Some(Wrap(seen + Delta(PostingOf(r))))))
    case BalanceSet =>
      if cfg.index && LookUp(db.ledger, PostingOf(r)) != Fresh then Stop(x, Broken)
      else x.(pc := Ready, buf := x.buf.(entry := Some(EntryFor(PostingOf(r), x.buf.balance.value))))
  }

  function Marking(db: Db, x: Txn): Txn
    requires TouchesPayment(x.req) && RowFound(db.payments, x.req)
  {
    x.(pc := Marked, buf := x.buf.(payment := Some(Mark(db.payments[x.req.pid], x.req))))
  }

  /** The tables once the buffer becomes visible. */
  function Publish(db: Db, x: Txn): Db
    requires Shaped(x)
  {
    Db(
      if x.buf.payment.Some? then db.payments[x.req.pid := x.buf.payment.value] else db.payments,
      if x.buf.balance.Some? then db.balances[PostingOf(x.req).customer := x.buf.balance.value] else db.balances,
      if x.buf.entry.Some? then db.ledger + [x.buf.entry.value] else db.ledger)
  }

  /** Rows are created pending and without a capture id, under an id nobody has; see Config for reserve. */
  predicate MayCreate(cfg: Config, s: State, r: Request)
    requires r.Create?
  {
    && r.pid !in s.db.payments
    && r.row.status == Pending
    && r.row.captureId == None
    && (cfg.reserve ==> forall u | u in s.txns :: !Reserves(s.txns[u], r))
  }

  /** Another payment is being completed with the created row's gateway id. */
  predicate Reserves(x: Txn, r: Request)
    requires r.Create?
  {
    Live(x) && x.req.Complete? && x.req.pid != r.pid && r.row.gateway == x.req.gateway && r.row.gatewayId == Some(x.req.gatewayId)
  }

  // ----- steps and runs -----

  datatype Action = Statement | CommitTx | Insert | RollBack

  predicate Enabled(cfg: Config, s: State, t: nat, a: Action) {
    && t in s.txns
    && var x := s.txns[t];
    && Live(x)
    && Shaped(x)
    && match a
       case Statement => x.pc != Ready && !x.req.Create? && Free(cfg, s, t)
       case CommitTx => x.pc == Ready
       case Insert => x.req.Create? && MayCreate(cfg, s, x.req)
       case RollBack => true
  }

  function Do(cfg: Config, s: State, t: nat, a: Action): State
    requires Enabled(cfg, s, t, a)
  {
    var x := s.txns[t];
    match a
    case Statement => s.(txns := s.txns[t := Advance(cfg, s.db, x)])
    case CommitTx => State(Publish(s.db, x), s.txns[t := Stop(x, Done)], s.log + [x.req])
    case Insert => State(s.db.(payments := s.db.payments[x.req.pid := x.req.row]), s.txns[t := Stop(x, Done)], s.log + [x.req])
    case RollBack => s.(txns := s.txns[t := Stop(x, Broken)])
  }

  ghost predicate Step(cfg: Config, s: State, s': State) {
    exists t: nat, a: Action :: Enabled(cfg, s, t, a) && s' == Do(cfg, s, t, a)
  }

  /** Any finite set of transactions, none of which has executed a statement, over any tables. */
  ghost predicate Initial(s: State) {
    && s.log == []
    && forall t :: t in s.txns ==> s.txns[t] == BeginOf(s.txns[t].req)
  }

  ghost predicate StepsAt(cfg: Config, tr: seq<State>, i: nat)
    requires i + 1 < |tr|
  {
    Step(cfg, tr[i], tr[i + 1])
  }

  ghost predicate Run(cfg: Config, tr: seq<State>) {
    && |tr| > 0
    && Initial(tr[0])
    && forall i: nat :: i + 1 < |tr| ==> StepsAt(cfg, tr, i)
  }

  /** The step a run took at a given point. */
  lemma StepAt(cfg: Config, tr: seq<State>, i: nat) returns (t: nat, a: Action)
    requires Run(cfg, tr) && i + 1 < |tr|
    ensures Enabled(cfg, tr[i], t, a) && tr[i + 1] == Do(cfg, tr[i], t, a)
  {
    assert StepsAt(cfg, tr, i);
    t, a :| Enabled(cfg, tr[i], t, a) && tr[i + 1] == Do(cfg, tr[i], t, a);
  }

  ghost function Last(tr: seq<State>): State
    requires |tr| > 0
  {
    tr[|tr| - 1]
  }

  /** A run goes on with any step that is enabled at its end. */
  lemma Extended(cfg: Config, tr: seq<State>, t: nat, a: Action) returns (tr': seq<State>)
    requires Run(cfg, tr) && Enabled(cfg, Last(tr), t, a)
    ensures Run(cfg, tr') && tr'[0] == tr[0] && Last(tr') == Do(cfg, Last(tr), t, a)
  {
    tr' := tr + [Do(cfg, Last(tr), t, a)];
    forall i: nat | i + 1 < |tr'|
      ensures StepsAt(cfg, tr', i)
    {
      if i + 1 < |tr| {
        assert StepsAt(cfg, tr, i);
      } else {
        assert Step(cfg, Last(tr), Do(cfg, Last(tr), t, a));
      }
    }
  }
}
