/**
 The interleaved machine refines the sequential specification: a transaction that commits has exactly the effect of
 running alone at its commit point, and one that gives up by itself reports what running alone would have reported,
 unless it is a posting that another delivery of its key overtook.
 */
module PaymentRefinement {
  import opened Base
  import opened Payments
  import opened PaymentRuns
  import opened PaymentInvariant

  /** A commit publishes what the whole request, running alone on the tables of that moment, would have written. */
  lemma CommitIsAtomic(cfg: Config, s: State, t: nat)
    requires Inv(cfg, s) && Enabled(cfg, s, t, CommitTx)
    requires s.txns[t].req.Complete? ==> cfg.reserve
    requires cfg.index || OwnedAt(Requests(s), t)
    ensures Atomic(s.db, s.txns[t].req) == Commit(Publish(s.db, s.txns[t]))
  {
    var x := s.txns[t];
    assert StableAt(cfg, s, t);
    assert ClaimStable(cfg, s.db, x) && KeyStable(cfg, OwnedAt(Requests(s), t), s.db, x);
    if !x.req.Post? {
      assert s.db.payments[x.req.pid := Mark(s.db.payments[x.req.pid], x.req)] == Publish(s.db, x).payments;
    }
    if x.buf.entry.None? {
      assert Publish(s.db, x) == s.db.(payments := Publish(s.db, x).payments);
    }
  }

  predicate Agrees(o: Outcome, v: Verdict) {
    match o
    case Done => v.Commit?
    case Rejected => v == NotClaimed
    case Repeated => v == Replayed
    case Broken => v.Fault?
  }

  /** The transaction found its key absent, and a row that matches it has been committed since. */
  predicate Overtaken(db: Db, x: Txn) {
    PastLookup(x) && !x.req.Create? && LookUp(db.ledger, PostingOf(x.req)) == Existing
  }

  /** A statement that ends the transaction reports the verdict of running alone on the tables of that moment if and only
      if the transaction was not overtaken: then the unique index makes it fail, where running alone it would have
      returned the earlier row. */
  lemma VerdictIsAtomic(cfg: Config, s: State, t: nat)
    requires Inv(cfg, s) && Enabled(cfg, s, t, Statement) && cfg.reserve
    requires Advance(cfg, s.db, s.txns[t]).pc.Finished?
    ensures Agrees(Advance(cfg, s.db, s.txns[t]).pc.outcome, Atomic(s.db, s.txns[t].req)) <==> !Overtaken(s.db, s.txns[t])
  {
    var x := s.txns[t];
    assert StableAt(cfg, s, t);
    assert ClaimStable(cfg, s.db, x) && RowsStable(s.db, x);
  }

  /** A claim or refund with an owned key is never overtaken. */
  lemma OwnedNotOvertaken(cfg: Config, s: State, t: nat)
    requires Inv(cfg, s) && t in s.txns && OwnedAt(Requests(s), t)
    ensures !Overtaken(s.db, s.txns[t])
  {
    assert StableAt(cfg, s, t);
    assert KeyStable(cfg, true, s.db, s.txns[t]);
  }

  lemma StepReplay(cfg: Config, first: Db, s: State, t: nat, a: Action)
    requires Inv(cfg, s) && Enabled(cfg, s, t, a)
    requires cfg.reserve && (cfg.index || KeyOwned(s))
    requires Replay(first, s.log) == Some(s.db)
    ensures Replay(first, Do(cfg, s, t, a).log) == Some(Do(cfg, s, t, a).db)
  {
    var r := s.txns[t].req;
    if a.CommitTx? {
      CommitIsAtomic(cfg, s, t);
      ReplayOne(first, s.log, r);
    } else if a.Insert? {
      ReplayOne(first, s.log, r);
    }
  }

  /** Refinement: at every point of every run the tables are those of the committed requests, replayed one at a time. */
  lemma {:induction false} RunRefines(cfg: Config, tr: seq<State>, i: nat)
    requires Run(cfg, tr) && i < |tr|
    requires cfg.reserve && (cfg.index || KeyOwned(tr[0]))
    ensures Replay(tr[0].db, tr[i].log) == Some(tr[i].db)
  {
    if i > 0 {
      RunRefines(cfg, tr, i - 1);
      RunInv(cfg, tr, i - 1);
      RequestsFixed(cfg, tr, i - 1);
      var t, a := StepAt(cfg, tr, i - 1);
      StepReplay(cfg, tr[0].db, tr[i - 1], t, a);
    }
  }

  ghost function Committed(s: State): set<nat> {
    set t | t in s.txns && s.txns[t].pc == Finished(Done)
  }

  /** The log names each committed transaction once, and nothing else. */
  ghost predicate Logged(s: State) {
    && |s.log| == |Committed(s)|
    && (forall t :: t in Committed(s) ==> Requests(s)[t] in s.log)
    && (forall r :: r in s.log ==> LoggedBy(s, r))
  }

  ghost predicate LoggedBy(s: State, r: Request) {
    exists t :: t in Committed(s) && Requests(s)[t] == r
  }

  lemma StepCommitted(cfg: Config, s: State, t: nat, a: Action)
    requires Enabled(cfg, s, t, a)
    ensures t !in Committed(s)
    ensures Committed(Do(cfg, s, t, a)) == if a.CommitTx? || a.Insert? then Committed(s) + {t} else Committed(s)
    ensures Do(cfg, s, t, a).log == if a.CommitTx? || a.Insert? then s.log + [s.txns[t].req] else s.log
  {
  }

  lemma LoggedGrows(s: State, s': State, t: nat, grew: bool)
    requires Logged(s) && t in s.txns && t !in Committed(s)
    requires Requests(s') == Requests(s)
    requires Committed(s') == if grew then Committed(s) + {t} else Committed(s)
    requires s'.log == if grew then s.log + [s.txns[t].req] else s.log
    ensures Logged(s')
  {
    forall r | r in s'.log
      ensures LoggedBy(s', r)
    {
      if r in s.log {
        assert LoggedBy(s, r);
        var u :| u in Committed(s) && Requests(s)[u] == r;
        assert u in Committed(s') && Requests(s')[u] == r;
      } else {
        assert t in Committed(s') && Requests(s')[t] == r;
      }
    }
  }

  lemma StepLogged(cfg: Config, s: State, t: nat, a: Action)
    requires Enabled(cfg, s, t, a) && Logged(s)
    ensures Logged(Do(cfg, s, t, a))
  {
    StepCommitted(cfg, s, t, a);
    SameRequests(cfg, s, t, a);
    LoggedGrows(s, Do(cfg, s, t, a), t, a.CommitTx? || a.Insert?);
  }

  lemma {:induction false} LogIsCommitted(cfg: Config, tr: seq<State>, i: nat)
    requires Run(cfg, tr) && i < |tr|
    ensures Logged(tr[i])
  {
    if i == 0 {
      assert Committed(tr[0]) == {};
    } else {
      LogIsCommitted(cfg, tr, i - 1);
      var t, a := StepAt(cfg, tr, i - 1);
      StepLogged(cfg, tr[i - 1], t, a);
    }
  }
}
