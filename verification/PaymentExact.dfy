/**
 Exactly when the interleaved machine refines the sequential specification for every set of requests. Plain postings
 look up their key before they take any lock, so they depend on the unique index; the check that no other payment holds
 a gateway id takes no lock on absent rows, so it depends on rows not being created under that id meanwhile.
 */
module PaymentExact {
  import opened Base
  import opened Payments
  import opened PaymentRuns
  import opened PaymentRefinement
  import opened PaymentLedger

  ghost predicate OnlyMoved(s: State, s': State, t: nat, x: Txn) {
    t in s.txns && s'.txns == s.txns[t := x]
  }

  /** The balance statements and the insert of a posting that nobody blocks. */
  lemma PostPrepared(cfg: Config, tr: seq<State>, t: nat, p: Posting) returns (tr': seq<State>)
    requires Run(cfg, tr) && (!cfg.index || LookUp(Last(tr).db.ledger, p) == Fresh)
    requires var s := Last(tr);
             && t in s.txns && s.txns[t] == Txn(Post(p), Looked, EMPTY) && p.customer in s.db.balances
             && forall u :: u in s.txns && u != t ==> !HoldsCustomer(s.txns[u])
    ensures Run(cfg, tr') && tr'[0] == tr[0] && Last(tr').db == Last(tr).db && Last(tr').log == Last(tr).log
    ensures var after := Wrap(Last(tr).db.balances[p.customer] + Delta(p));
            OnlyMoved(Last(tr), Last(tr'), t, Txn(Post(p), Ready, Buffer(None, Some(after), Some(EntryFor(p, after)))))
  {
    var balance := Last(tr).db.balances[p.customer];
    tr' := Extended(cfg, tr, t, Statement);
    assert OnlyMoved(Last(tr), Last(tr'), t, Txn(Post(p), BalanceRead(balance), EMPTY));
    tr' := Extended(cfg, tr', t, Statement);
    assert Last(tr').txns[t].pc == BalanceSet;
    tr' := Extended(cfg, tr', t, Statement);
  }

  lemma PostFrom(cfg: Config, tr: seq<State>, t: nat, p: Posting) returns (tr': seq<State>)
    requires Run(cfg, tr) && (!cfg.index || LookUp(Last(tr).db.ledger, p) == Fresh)
    requires var s := Last(tr);
             && t in s.txns && s.txns[t] == Txn(Post(p), Looked, EMPTY) && p.customer in s.db.balances
             && forall u :: u in s.txns && u != t ==> !HoldsCustomer(s.txns[u])
    ensures Run(cfg, tr') && tr'[0] == tr[0] && Last(tr').db == Append(Last(tr).db, p)
    ensures Last(tr').log == Last(tr).log + [Post(p)]
    ensures exists x :: OnlyMoved(Last(tr), Last(tr'), t, x) && x.pc == Finished(Done)
  {
    tr' := PostPrepared(cfg, tr, t, p);
    tr' := Extended(cfg, tr', t, CommitTx);
    assert OnlyMoved(Last(tr), Last(tr'), t, Last(tr').txns[t]);
  }

  /** The uniqueness of keys over runs of two deliveries of one keyed posting holds if and only if the index exists. */
  lemma PostsNeedIndex(cfg: Config, db: Db, p: Posting)
    requires p.key.Some? && p.customer in db.balances && LookUp(db.ledger, p) == Fresh && KeysUnique(db.ledger)
    ensures cfg.index <==> forall tr :: TwoDeliveries(cfg, tr, db, p) ==> KeysUnique(Last(tr).db.ledger)
  {
    if cfg.index {
      forall tr | TwoDeliveries(cfg, tr, db, p)
        ensures KeysUnique(Last(tr).db.ledger)
      {
        RunKeysUnique(cfg, tr, |tr| - 1);
      }
    } else {
      var tr := BothPosted(cfg, db, p);
      var rows := Last(tr).db.ledger;
      assert HasKey(rows[|db.ledger|], p.customer, p.key.value) && HasKey(rows[|db.ledger| + 1], p.customer, p.key.value);
      assert !KeyUnique(rows, p.customer, p.key.value);
    }
  }

  ghost predicate TwoDeliveries(cfg: Config, tr: seq<State>, db: Db, p: Posting) {
    Run(cfg, tr) && tr[0].db == db && tr[0].txns == map[0 := BeginOf(Post(p)), 1 := BeginOf(Post(p))]
  }

  /** Both deliveries have found the key absent. */
  lemma BothLooked(cfg: Config, db: Db, p: Posting) returns (tr: seq<State>)
    requires p.key.Some? && LookUp(db.ledger, p) == Fresh
    ensures TwoDeliveries(cfg, tr, db, p)
    ensures Last(tr) == State(db, map[0 := Txn(Post(p), Looked, EMPTY), 1 := Txn(Post(p), Looked, EMPTY)], [])
  {
    var x := BeginOf(Post(p));
    tr := [State(db, map[0 := x, 1 := x], [])];
    assert Initial(tr[0]);
    tr := Extended(cfg, tr, 0, Statement);
    tr := Extended(cfg, tr, 1, Statement);
    assert Last(tr).txns == map[0 := Txn(Post(p), Looked, EMPTY), 1 := Txn(Post(p), Looked, EMPTY)];
  }

  lemma BothPosted(cfg: Config, db: Db, p: Posting) returns (tr: seq<State>)
    requires p.key.Some? && p.customer in db.balances && LookUp(db.ledger, p) == Fresh && !cfg.index
    ensures TwoDeliveries(cfg, tr, db, p) && Last(tr).db == Append(Append(db, p), p) && Last(tr).log == [Post(p), Post(p)]
  {
    tr := BothLooked(cfg, db, p);
    tr := PostFrom(cfg, tr, 0, p);
    tr := PostFrom(cfg, tr, 1, p);
  }

  /** With the index, a delivery that looked up its key before the other one committed fails at the insert, although
      running alone at that moment it would return the other's row. */
  lemma OvertakenFails(cfg: Config, db: Db, p: Posting) returns (tr: seq<State>)
    requires p.key.Some? && p.customer in db.balances && LookUp(db.ledger, p) == Fresh && cfg.index
    ensures TwoDeliveries(cfg, tr, db, p) && Last(tr).db == Append(db, p) && Last(tr).log == [Post(p)]
    ensures 1 in Last(tr).txns && Last(tr).txns[1].pc == Finished(Broken)
    ensures Atomic(Last(tr).db, Post(p)) == Replayed
  {
    tr := BothLooked(cfg, db, p);
    tr := PostFrom(cfg, tr, 0, p);
    PostedIsFound(db, p);
    tr := InsertFails(cfg, tr, p);
  }

  lemma InsertFails(cfg: Config, tr: seq<State>, p: Posting) returns (tr': seq<State>)
    requires Run(cfg, tr) && cfg.index && LookUp(Last(tr).db.ledger, p) == Existing
    requires var s := Last(tr);
             && 1 in s.txns && s.txns[1] == Txn(Post(p), Looked, EMPTY) && p.customer in s.db.balances
             && forall u :: u in s.txns && u != 1 ==> !HoldsCustomer(s.txns[u])
    ensures Run(cfg, tr') && tr'[0] == tr[0] && Last(tr').db == Last(tr).db && Last(tr').log == Last(tr).log
    ensures 1 in Last(tr').txns && Last(tr').txns[1].pc == Finished(Broken)
  {
    var balance := Last(tr).db.balances[p.customer];
    tr' := Extended(cfg, tr, 1, Statement);
    assert OnlyMoved(Last(tr), Last(tr'), 1, Txn(Post(p), BalanceRead(balance), EMPTY));
    tr' := Extended(cfg, tr', 1, Statement);
    assert Last(tr').txns[1].pc == BalanceSet;
    tr' := Extended(cfg, tr', 1, Statement);
  }

  // ----- the created row -----

  const ROW := Payment("c", "stripe", None, 5, Pending, None)

  const CLAIM := Complete("p", "stripe", "x", "c", 5, "k")

  const RIVAL := Request.Create("q", ROW.(gatewayId := Some("x")))

  /** The end of the run holds these transactions and tables. */
  ghost predicate EndsWith(tr: seq<State>, db: Db, x: Txn, other: Txn, log: seq<Request>) {
    |tr| > 0 && Last(tr) == State(db, map[0 := x, 1 := other], log)
  }

  /** Beside a created row, which locks nothing, the other transaction executes its next statement. */
  lemma Executes(cfg: Config, tr: seq<State>, db: Db, x: Txn, other: Txn, log: seq<Request>) returns (tr': seq<State>)
    requires Run(cfg, tr) && EndsWith(tr, db, x, other, log) && other.req.Create?
    requires Live(x) && Shaped(x) && x.pc != Ready && !x.req.Create?
    ensures Run(cfg, tr') && tr'[0] == tr[0] && EndsWith(tr', db, Advance(cfg, db, x), other, log)
  {
    assert Free(cfg, Last(tr), 0);
    tr' := Extended(cfg, tr, 0, Statement);
    assert Last(tr').txns == map[0 := Advance(cfg, db, x), 1 := other];
  }

  const BEFORE := Db(map["p" := ROW], map["c" := 0], [])

  const AFTER := BEFORE.(payments := map["p" := ROW, "q" := RIVAL.row])

  /** A claim past its check, and a row with the same gateway id created behind its back. */
  lemma RivalCreated(cfg: Config) returns (tr: seq<State>)
    requires !cfg.reserve
    ensures Run(cfg, tr) && tr[0].db == BEFORE
    ensures EndsWith(tr, AFTER, Txn(CLAIM, Checked, EMPTY), Stop(BeginOf(RIVAL), Done), [RIVAL])
  {
    var other := BeginOf(RIVAL);
    tr := [State(BEFORE, map[0 := BeginOf(CLAIM), 1 := other], [])];
    assert Initial(tr[0]);
    tr := Executes(cfg, tr, BEFORE, Txn(CLAIM, Begun, EMPTY), other, []);
    tr := Executes(cfg, tr, BEFORE, Txn(CLAIM, Locked, EMPTY), other, []);
    tr := Executes(cfg, tr, BEFORE, Txn(CLAIM, RowHeld, EMPTY), other, []);
    tr := Inserts(cfg, tr);
  }

  lemma Inserts(cfg: Config, tr: seq<State>) returns (tr': seq<State>)
    requires !cfg.reserve && Run(cfg, tr) && EndsWith(tr, BEFORE, Txn(CLAIM, Checked, EMPTY), BeginOf(RIVAL), [])
    ensures Run(cfg, tr') && tr'[0] == tr[0]
    ensures EndsWith(tr', AFTER, Txn(CLAIM, Checked, EMPTY), Stop(BeginOf(RIVAL), Done), [RIVAL])
  {
    tr' := Extended(cfg, tr, 1, Insert);
    assert Last(tr').txns == map[0 := Txn(CLAIM, Checked, EMPTY), 1 := Stop(BeginOf(RIVAL), Done)];
    assert Last(tr').db == AFTER;
  }

  /** The claim then commits, although running alone it would have been refused. */
  lemma RivalIgnored(cfg: Config) returns (tr: seq<State>)
    requires !cfg.reserve
    ensures Run(cfg, tr) && tr[0].db == BEFORE && Last(tr).log == [RIVAL, CLAIM]
  {
    tr := RivalCreated(cfg);
    var other, row := Stop(BeginOf(RIVAL), Done), Some(Mark(ROW, CLAIM));
    tr := Executes(cfg, tr, AFTER, Txn(CLAIM, Checked, EMPTY), other, [RIVAL]);
    tr := Executes(cfg, tr, AFTER, Txn(CLAIM, Marked, Buffer(row, None, None)), other, [RIVAL]);
    tr := Executes(cfg, tr, AFTER, Txn(CLAIM, Looked, Buffer(row, None, None)), other, [RIVAL]);
    tr := Executes(cfg, tr, AFTER, Txn(CLAIM, BalanceRead(0), Buffer(row, None, None)), other, [RIVAL]);
    tr := Executes(cfg, tr, AFTER, Txn(CLAIM, BalanceSet, Buffer(row, Some(5), None)), other, [RIVAL]);
    tr := Extended(cfg, tr, 0, CommitTx);
  }

  lemma RivalReplay()
    ensures Replay(BEFORE, [RIVAL, CLAIM]) == None
  {
    assert [RIVAL, CLAIM][..1] == [RIVAL] && [RIVAL][..0] == [];
    assert BEFORE.payments["q" := RIVAL.row] == AFTER.payments;
    assert Replay(BEFORE, [RIVAL]) == Some(AFTER);
    assert "q" in AFTER.payments && HasOther(AFTER.payments, CLAIM);
  }

  // ----- the exact condition -----

  /** The tables at the end of the run are those of its committed requests, replayed one at a time. */
  ghost predicate Refines(tr: seq<State>)
    requires |tr| > 0
  {
    Replay(tr[0].db, Last(tr).log) == Some(Last(tr).db)
  }

  /** Every run over every set of requests refines the specification if and only if the index exists and created rows
      respect claims in progress. */
  lemma RefinesExactly(cfg: Config)
    ensures cfg.index && cfg.reserve <==> forall tr :: Run(cfg, tr) ==> Refines(tr)
  {
    if cfg.index && cfg.reserve {
      forall tr | Run(cfg, tr)
        ensures Refines(tr)
      {
        RunRefines(cfg, tr, |tr| - 1);
      }
    } else if !cfg.reserve {
      var tr := RivalIgnored(cfg);
      RivalReplay();
      assert !Refines(tr);
    } else {
      var p := Posting("c", Credit, 5, None, None, Some("k"));
      var tr := TwicePosted(cfg, p);
      assert !Refines(tr);
    }
  }

  lemma TwicePosted(cfg: Config, p: Posting) returns (tr: seq<State>)
    requires !cfg.index && p == Posting("c", Credit, 5, None, None, Some("k"))
    ensures Run(cfg, tr) && !Refines(tr)
  {
    var db := Db(map[], map["c" := 0], []);
    tr := BothPosted(cfg, db, p);
    assert [Post(p), Post(p)][..1] == [Post(p)] && [Post(p)][..0] == [];
    assert Replay(db, [Post(p)]) == Some(Append(db, p));
    RedeliveryIsNoOp(db, Post(p));
    assert Replay(db, [Post(p), Post(p)]) == None;
  }
}
