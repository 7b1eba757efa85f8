/**
 The converse of refinement: whatever the sequential specification can do, the interleaved machine can do. And what it can
 do for a payment that is claimed again under another key.
 */
module PaymentAlone {
  import opened Base
  import opened Payments
  import opened PaymentRuns
  import opened PaymentInvariant
  import opened PaymentProgress
  import opened PaymentSettlement

  // ----- one transaction that nobody disturbs -----

  /** The transaction has read nothing but the current tables. */
  ghost predicate OnTrack(db: Db, x: Txn) {
    && Live(x) && !x.req.Create? && RowsStable(db, x)
    && (PastLookup(x) ==> LookUp(db.ledger, PostingOf(x.req)) == Fresh)
  }

  ghost predicate Progresses(db: Db, x: Txn, y: Txn) {
    OnTrack(db, y) && y.req == x.req && StepsLeft(y.pc) < StepsLeft(x.pc)
  }

  lemma AdvancesToMark(cfg: Config, db: Db, x: Txn)
    requires OnTrack(db, x) && !PastMark(x) && Atomic(db, x.req).Commit?
    ensures Progresses(db, x, Advance(cfg, db, x))
  {
  }

  lemma AdvancesToCommit(cfg: Config, db: Db, x: Txn)
    requires OnTrack(db, x) && PastMark(x) && x.pc != Ready && Atomic(db, x.req).Commit?
    ensures Progresses(db, x, Advance(cfg, db, x))
  {
  }

  lemma PublishesAtomic(db: Db, x: Txn)
    requires OnTrack(db, x) && x.pc == Ready && Atomic(db, x.req).Commit?
    ensures Publish(db, x) == Atomic(db, x.req).db
  {
    if !x.req.Post? {
      assert db.payments[x.req.pid := Mark(db.payments[x.req.pid], x.req)] == Publish(db, x).payments;
    }
    if x.buf.entry.None? {
      assert Publish(db, x) == db.(payments := Publish(db, x).payments);
    }
  }

  predicate LocksNothing(x: Txn) {
    !HoldsAdvisory(x) && !HoldsRow(x) && !HoldsCustomer(x)
  }

  ghost predicate Undisturbed(s: State, t: nat) {
    t in s.txns && forall u :: u in s.txns && u != t ==> LocksNothing(s.txns[u])
  }

  lemma UndisturbedIsFree(cfg: Config, s: State, t: nat)
    requires Undisturbed(s, t)
    ensures Free(cfg, s, t)
  {
  }

  /** s' is s after transaction t committed on the tables of s. */
  ghost predicate CommittedAlone(s: State, s': State, t: nat) {
    && t in s.txns
    && Atomic(s.db, s.txns[t].req).Commit? && s'.db == Atomic(s.db, s.txns[t].req).db
    && s'.log == s.log + [s.txns[t].req]
    && exists x :: s'.txns == s.txns[t := x] && x.req == s.txns[t].req && x.pc == Finished(Done)
  }

  /** Undisturbed, a transaction that the specification commits runs to its commit. */
  lemma {:induction false} RunsAlone(cfg: Config, tr: seq<State>, t: nat) returns (tr': seq<State>)
    requires Run(cfg, tr) && Undisturbed(Last(tr), t)
    requires var s := Last(tr);
             OnTrack(s.db, s.txns[t]) && Atomic(s.db, s.txns[t].req).Commit?
    ensures Run(cfg, tr') && tr'[0] == tr[0] && CommittedAlone(Last(tr), Last(tr'), t)
    decreases StepsLeft(Last(tr).txns[t].pc)
  {
    var s := Last(tr);
    var x := s.txns[t];
    if x.pc == Ready {
      PublishesAtomic(s.db, x);
      tr' := Extended(cfg, tr, t, CommitTx);
      assert Last(tr').txns == s.txns[t := Stop(x, Done)];
    } else {
      UndisturbedIsFree(cfg, s, t);
      if PastMark(x) {
        AdvancesToCommit(cfg, s.db, x);
      } else {
        AdvancesToMark(cfg, s.db, x);
      }
      var mid := Extended(cfg, tr, t, Statement);
      tr' := RunsAlone(cfg, mid, t);
      SameCommit(s, Last(mid), Last(tr'), t);
    }
  }

  lemma SameCommit(s: State, mid: State, s': State, t: nat)
    requires t in s.txns && mid.db == s.db && mid.log == s.log
    requires exists y :: mid.txns == s.txns[t := y] && y.req == s.txns[t].req
    requires CommittedAlone(mid, s', t)
    ensures CommittedAlone(s, s', t)
  {
    var y :| mid.txns == s.txns[t := y] && y.req == s.txns[t].req;
    var x :| s'.txns == mid.txns[t := x] && x.req == y.req && x.pc == Finished(Done);
    assert s'.txns == s.txns[t := x];
  }

  // ----- a whole history -----

  /** Rows are created pending and without a capture id; with reservation, none under a gateway id that another request of
      the history completes a payment with. */
  ghost predicate Creatable(cfg: Config, rs: seq<Request>) {
    forall i, j :: 0 <= i < |rs| && 0 <= j < |rs| && rs[i].Create? ==>
      && rs[i].row.status == Pending && rs[i].row.captureId == None
      && (cfg.reserve ==> !Reserves(BeginOf(rs[j]), rs[i]))
  }

  /** The first n requests have committed, the others have not begun. */
  ghost predicate Reached(db: Db, rs: seq<Request>, n: nat, s: State) {
    && n <= |rs|
    && (forall i :: i in s.txns <==> 0 <= i < |rs|)
    && (forall i: nat :: i < |rs| ==> Waiting(s.txns[i], rs[i], i < n))
    && s.log == rs[..n]
    && Replay(db, rs[..n]) == Some(s.db)
  }

  predicate Waiting(x: Txn, r: Request, done: bool) {
    x.req == r && if done then x.pc == Finished(Done) else x == BeginOf(r)
  }

  lemma {:induction false} ReplayPrefix(db: Db, rs: seq<Request>, n: nat)
    requires Replay(db, rs).Some? && n <= |rs|
    ensures Replay(db, rs[..n]).Some?
  {
    if n == |rs| {
      assert rs[..n] == rs;
    } else {
      ReplayPrefix(db, rs[..|rs| - 1], n);
      assert rs[..|rs| - 1][..n] == rs[..n];
    }
  }

  lemma NextCommits(db: Db, rs: seq<Request>, n: nat, s: State)
    requires Replay(db, rs).Some? && Reached(db, rs, n, s) && n < |rs|
    ensures Atomic(s.db, rs[n]).Commit? && Replay(db, rs[..n + 1]) == Some(Atomic(s.db, rs[n]).db)
  {
    ReplayPrefix(db, rs, n + 1);
    assert rs[..n + 1] == rs[..n] + [rs[n]];
    ReplayOne(db, rs[..n], rs[n]);
  }

  lemma NextReached(db: Db, rs: seq<Request>, n: nat, s: State, s': State)
    requires Reached(db, rs, n, s) && n < |rs| && CommittedAlone(s, s', n)
    requires Replay(db, rs[..n + 1]) == Some(Atomic(s.db, rs[n]).db)
    ensures Reached(db, rs, n + 1, s')
  {
    assert rs[..n + 1] == rs[..n] + [rs[n]];
    assert Waiting(s.txns[n], rs[n], false);
  }

  lemma InsertsNext(cfg: Config, db: Db, rs: seq<Request>, n: nat, tr: seq<State>) returns (tr': seq<State>)
    requires Run(cfg, tr) && Reached(db, rs, n, Last(tr)) && n < |rs| && rs[n].Create? && Creatable(cfg, rs)
    requires Atomic(Last(tr).db, rs[n]).Commit?
    ensures Run(cfg, tr') && tr'[0] == tr[0] && CommittedAlone(Last(tr), Last(tr'), n)
  {
    var s := Last(tr);
    assert Waiting(s.txns[n], rs[n], false);
    forall u | u in s.txns
      ensures cfg.reserve ==> !Reserves(s.txns[u], rs[n])
    {
      assert Waiting(s.txns[u], rs[u], u < n);
    }
    tr' := Extended(cfg, tr, n, Insert);
    assert Last(tr').txns == s.txns[n := Stop(s.txns[n], Done)];
  }

  lemma CommitsNext(cfg: Config, db: Db, rs: seq<Request>, n: nat, tr: seq<State>) returns (tr': seq<State>)
    requires Run(cfg, tr) && Reached(db, rs, n, Last(tr)) && n < |rs| && !rs[n].Create?
    requires Atomic(Last(tr).db, rs[n]).Commit?
    ensures Run(cfg, tr') && tr'[0] == tr[0] && CommittedAlone(Last(tr), Last(tr'), n)
  {
    var s := Last(tr);
    assert Waiting(s.txns[n], rs[n], false);
    forall u | u in s.txns && u != n
      ensures LocksNothing(s.txns[u])
    {
      assert Waiting(s.txns[u], rs[u], u < n);
    }
    tr' := RunsAlone(cfg, tr, n);
  }

  lemma NothingBegun(cfg: Config, db: Db, rs: seq<Request>) returns (tr: seq<State>)
    ensures Run(cfg, tr) && tr[0].db == db && Reached(db, rs, 0, Last(tr))
  {
    tr := [State(db, map i: nat | i < |rs| :: BeginOf(rs[i]), [])];
    assert rs[..0] == [];
  }

  lemma {:induction false} ReachedBy(cfg: Config, db: Db, rs: seq<Request>, n: nat) returns (tr: seq<State>)
    requires Replay(db, rs).Some? && Creatable(cfg, rs) && n <= |rs|
    ensures Run(cfg, tr) && tr[0].db == db && Reached(db, rs, n, Last(tr))
  {
    if n == 0 {
      tr := NothingBegun(cfg, db, rs);
    } else {
      tr := ReachedBy(cfg, db, rs, n - 1);
      var s := Last(tr);
      NextCommits(db, rs, n - 1, s);
      if rs[n - 1].Create? {
        tr := InsertsNext(cfg, db, rs, n - 1, tr);
      } else {
        tr := CommitsNext(cfg, db, rs, n - 1, tr);
      }
      NextReached(db, rs, n - 1, s, Last(tr));
    }
  }

  /** Every history that the specification can replay is the commit log of a run, and ends with the same tables. */
  lemma ReplayIsRun(cfg: Config, db: Db, rs: seq<Request>) returns (tr: seq<State>)
    requires Replay(db, rs).Some? && Creatable(cfg, rs)
    ensures Run(cfg, tr) && tr[0].db == db && Last(tr).log == rs && Replay(db, rs) == Some(Last(tr).db)
  {
    tr := ReachedBy(cfg, db, rs, |rs|);
    assert rs[..|rs|] == rs;
  }

  // ----- a payment claimed under two keys -----

  /** The same claim under another key. */
  function Rekeyed(r: Request, key: string): Request
    requires IsClaim(r)
  {
    match r
    case Complete(p, g, id, c, a, _) => Complete(p, g, id, c, a, key)
    case Capture(p, o, id, c, a, _) => Capture(p, o, id, c, a, key)
  }

  /** The claim's key is unused, and it would commit. */
  ghost predicate FirstClaim(db: Db, r: Request) {
    IsClaim(r) && Atomic(db, r).Commit? && r.customer in db.balances && FindKey(db.ledger, r.customer, r.key).None?
  }

  /** A first claim appends its credit, after which the same claim under another unused key is a first claim again. */
  lemma FirstClaimCredits(db: Db, r: Request, key: string)
    requires FirstClaim(db, r) && key != r.key && FindKey(db.ledger, r.customer, key).None?
    ensures var mid := Atomic(db, r).db;
            && |mid.ledger| == |db.ledger| + 1 && db.ledger <= mid.ledger && CreditOf(mid.ledger[|db.ledger|], r)
            && FirstClaim(mid, Rekeyed(r, key))
  {
    var mid := Atomic(db, r).db;
    FindKeyAppend(db.ledger, mid.ledger[|db.ledger|], r.customer, key);
  }

  lemma CreditAppended(db: Db, r: Request)
    requires FirstClaim(db, r)
    ensures var after := Atomic(db, r).db;
            |after.ledger| == |db.ledger| + 1 && db.ledger <= after.ledger && CreditOf(after.ledger[|db.ledger|], r)
  {
  }

  /** Claimed again under an unused key, the payment is credited again. */
  lemma ClaimedAgain(db: Db, r: Request, key: string)
    requires FirstClaim(db, r) && key != r.key && FindKey(db.ledger, r.customer, key).None?
    ensures Replay(db, [r, Rekeyed(r, key)]).Some?
    ensures var ledger := Replay(db, [r, Rekeyed(r, key)]).value.ledger;
            |ledger| == |db.ledger| + 2 && CreditOf(ledger[|db.ledger|], r) && CreditOf(ledger[|db.ledger| + 1], Rekeyed(r, key))
  {
    var q, mid := Rekeyed(r, key), Atomic(db, r).db;
    FirstClaimCredits(db, r, key);
    CreditAppended(mid, q);
    assert [] + [r] == [r] && [r] + [q] == [r, q];
    ReplayOne(db, [], r);
    ReplayOne(db, [r], q);
  }

  /** Whatever the index and the hash, a claim of a payment that is delivered again under an unused key credits it twice. */
  lemma TwoKeysCreditTwice(cfg: Config, db: Db, r: Request, key: string) returns (tr: seq<State>)
    requires FirstClaim(db, r) && key != r.key && FindKey(db.ledger, r.customer, key).None?
    ensures Run(cfg, tr) && tr[0].db == db && Last(tr).log == [r, Rekeyed(r, key)]
    ensures Settles(Last(tr), r.pid, |db.ledger|) && Settles(Last(tr), r.pid, |db.ledger| + 1) && !OneCredit(Last(tr), r.pid)
  {
    ClaimedAgain(db, r, key);
    tr := ReplayIsRun(cfg, db, [r, Rekeyed(r, key)]);
    assert Last(tr).log[0] == r && Last(tr).log[1] == Rekeyed(r, key);
    assert Settles(Last(tr), r.pid, |db.ledger|) && Settles(Last(tr), r.pid, |db.ledger| + 1);
    NotOneCredit(Last(tr), r.pid, |db.ledger|, |db.ledger| + 1);
  }

  lemma NotOneCredit(s: State, id: string, k: nat, l: nat)
    requires Settles(s, id, k) && Settles(s, id, l) && k != l
    ensures !OneCredit(s, id)
  {
    forall m: nat | OnlySettles(s, id, m)
      ensures k == m && l == m
    {
    }
  }
}
