/**
 The ledger over whole runs: balances are conserved in every interleaving, and an idempotency key moves a balance at
 most once.
 */
module PaymentLedger {
  import opened Base
  import opened Payments
  import opened PaymentRuns
  import opened PaymentInvariant

  // ----- conservation -----

  function SignedAmount(kind: TxType, amount: int): int {
    if kind == Credit then amount else -amount
  }

  function Signed(e: Entry): int {
    SignedAmount(e.kind, e.amount)
  }

  /** What the rows of one customer add up to. */
  function SumFor(rows: seq<Entry>, customer: string): int {
    if rows == [] then 0
    else SumFor(rows[..|rows| - 1], customer) + (if rows[|rows| - 1].customer == customer then Signed(rows[|rows| - 1]) else 0)
  }

  /** Balances are stored in BIGINT columns. */
  ghost predicate Stored(db: Db) {
    forall c :: c in db.balances ==> -TWO_63 <= db.balances[c] < TWO_63
  }

  /** The balance that the opening balance and some rows make, in the arithmetic of int64. */
  ghost predicate RunningTotal(opening: map<string, int>, rows: seq<Entry>, customer: string, balance: int) {
    customer in opening && balance == Wrap(opening[customer] + SumFor(rows, customer))
  }

  ghost predicate BalancesRun(opening: map<string, int>, rows: seq<Entry>, balances: map<string, int>) {
    balances.Keys == opening.Keys && forall c :: c in balances ==> RunningTotal(opening, rows, c, balances[c])
  }

  ghost predicate RowsRun(opening: map<string, int>, rows: seq<Entry>) {
    forall i :: 0 <= i < |rows| ==> RunningTotal(opening, rows[..i + 1], rows[i].customer, rows[i].balanceAfter)
  }

  /** The ledger only grew; every balance is the opening balance plus the signed rows since; and every new row's
      balance_after is the running total up to and including that row. */
  ghost predicate Conserved(first: Db, db: Db) {
    && first.ledger <= db.ledger
    && BalancesRun(first.balances, db.ledger[|first.ledger|..], db.balances)
    && RowsRun(first.balances, db.ledger[|first.ledger|..])
  }

  lemma SumAppend(rows: seq<Entry>, e: Entry, customer: string)
    ensures SumFor(rows + [e], customer) == SumFor(rows, customer) + (if e.customer == customer then Signed(e) else 0)
  {
    assert (rows + [e])[..|rows|] == rows;
  }

  lemma SumPosted(rows: seq<Entry>, p: Posting, balance: int)
    ensures SumFor(rows + [EntryFor(p, balance)], p.customer) == SumFor(rows, p.customer) + SignedAmount(p.kind, p.amount)
  {
    SumAppend(rows, EntryFor(p, balance), p.customer);
  }

  lemma DeltaWraps(total: int, p: Posting)
    ensures Wrap(Wrap(total) + Delta(p)) == Wrap(total + SignedAmount(p.kind, p.amount))
  {
    WrapAdd(total, Delta(p));
    if p.kind == Debit {
      WrapAdd(-p.amount, total);
    }
  }

  lemma AppendBalances(opening: map<string, int>, rows: seq<Entry>, balances: map<string, int>, e: Entry)
    requires BalancesRun(opening, rows, balances)
    requires RunningTotal(opening, rows + [e], e.customer, e.balanceAfter)
    ensures BalancesRun(opening, rows + [e], balances[e.customer := e.balanceAfter])
  {
    forall c | c in balances && c != e.customer
      ensures RunningTotal(opening, rows + [e], c, balances[c])
    {
      assert RunningTotal(opening, rows, c, balances[c]);
      SumAppend(rows, e, c);
    }
  }

  lemma AppendRow(opening: map<string, int>, rows: seq<Entry>, e: Entry)
    requires RowsRun(opening, rows) && RunningTotal(opening, rows + [e], e.customer, e.balanceAfter)
    ensures RowsRun(opening, rows + [e])
  {
    var rows' := rows + [e];
    forall i | 0 <= i < |rows'|
      ensures RunningTotal(opening, rows'[..i + 1], rows'[i].customer, rows'[i].balanceAfter)
    {
      if i < |rows| {
        assert rows'[..i + 1] == rows[..i + 1];
      } else {
        assert rows'[..i + 1] == rows';
      }
    }
  }

  /** Appending a row with the right balance_after, and setting the balance to it, conserves. */
  lemma RowConserves(first: Db, db: Db, rows: seq<Entry>, e: Entry, db': Db)
    requires Conserved(first, db) && rows == db.ledger[|first.ledger|..]
    requires RunningTotal(first.balances, rows + [e], e.customer, e.balanceAfter)
    requires db'.balances == db.balances[e.customer := e.balanceAfter] && db'.ledger == db.ledger + [e]
    ensures Conserved(first, db')
  {
    AppendBalances(first.balances, rows, db.balances, e);
    AppendRow(first.balances, rows, e);
    assert db'.ledger[|first.ledger|..] == rows + [e];
  }

  /** Adding a posting's delta to a wrapped total is the wrapped total with the posted row added. */
  lemma PostedTotal(opening: map<string, int>, rows: seq<Entry>, p: Posting, balance: int)
    requires RunningTotal(opening, rows, p.customer, balance)
    ensures var after := Wrap(balance + Delta(p));
            RunningTotal(opening, rows + [EntryFor(p, after)], p.customer, after)
  {
    var after := Wrap(balance + Delta(p));
    DeltaWraps(opening[p.customer] + SumFor(rows, p.customer), p);
    SumPosted(rows, p, after);
  }

  lemma AppendConserves(first: Db, db: Db, p: Posting)
    requires Conserved(first, db) && p.customer in db.balances
    ensures Conserved(first, Append(db, p))
  {
    var rows := db.ledger[|first.ledger|..];
    assert RunningTotal(first.balances, rows, p.customer, db.balances[p.customer]);
    PostedTotal(first.balances, rows, p, db.balances[p.customer]);
    RowConserves(first, db, rows, EntryFor(p, Wrap(db.balances[p.customer] + Delta(p))), Append(db, p));
  }

  /** Outside the payments table, a commit does nothing or appends one posting to the tables of that moment. */
  lemma CommitAppends(db: Db, x: Txn)
    requires Live(x) && x.pc == Ready && RowsStable(db, x)
    ensures var db' := Publish(db, x);
            if x.buf.entry.Some? then
              PostingOf(x.req).customer in db.balances && db' == Append(db, PostingOf(x.req)).(payments := db'.payments)
            else db' == db.(payments := db'.payments)
  {
  }

  lemma ConservedElsewhere(first: Db, db: Db, payments: map<string, Payment>)
    requires Conserved(first, db)
    ensures Conserved(first, db.(payments := payments))
  {
  }

  lemma StepConserves(cfg: Config, first: Db, s: State, t: nat, a: Action)
    requires Inv(cfg, s) && Enabled(cfg, s, t, a) && Conserved(first, s.db)
    ensures Conserved(first, Do(cfg, s, t, a).db)
  {
    var x, db' := s.txns[t], Do(cfg, s, t, a).db;
    assert StableAt(cfg, s, t);
    if a.CommitTx? {
      CommitAppends(s.db, x);
      if x.buf.entry.Some? {
        AppendConserves(first, s.db, PostingOf(x.req));
        ConservedElsewhere(first, Append(s.db, PostingOf(x.req)), db'.payments);
      } else {
        ConservedElsewhere(first, s.db, db'.payments);
      }
    } else if a.Insert? {
      ConservedElsewhere(first, s.db, db'.payments);
    }
  }

  /** Conservation: whatever the hash, the index and the requests, in every committed state of every run. */
  lemma {:induction false} RunConserves(cfg: Config, tr: seq<State>, i: nat)
    requires Run(cfg, tr) && i < |tr| && Stored(tr[0].db)
    ensures Conserved(tr[0].db, tr[i].db)
  {
    if i > 0 {
      RunConserves(cfg, tr, i - 1);
      RunInv(cfg, tr, i - 1);
      var t, a := StepAt(cfg, tr, i - 1);
      StepConserves(cfg, tr[0].db, tr[i - 1], t, a);
    }
  }

  // ----- exactly once -----

  /** At most one row of the customer has the key. */
  ghost predicate KeyUnique(ledger: seq<Entry>, customer: string, key: string) {
    forall i, j :: 0 <= i < j < |ledger| ==> !(HasKey(ledger[i], customer, key) && HasKey(ledger[j], customer, key))
  }

  ghost predicate KeysUnique(ledger: seq<Entry>) {
    forall customer, key :: KeyUnique(ledger, customer, key)
  }

  /** What the rows of a customer that carry one key add up to. */
  function MovedBy(ledger: seq<Entry>, customer: string, key: string): int {
    if ledger == [] then 0
    else (if HasKey(ledger[0], customer, key) then Signed(ledger[0]) else 0) + MovedBy(ledger[1..], customer, key)
  }

  lemma {:induction false} AbsentMovesNothing(ledger: seq<Entry>, customer: string, key: string)
    requires forall e :: e in ledger ==> !HasKey(e, customer, key)
    ensures MovedBy(ledger, customer, key) == 0
  {
    if ledger != [] {
      assert !HasKey(ledger[0], customer, key);
      AbsentMovesNothing(ledger[1..], customer, key);
    }
  }

  /** A unique key moves the balance by the one row it finds, or not at all. */
  lemma {:induction false} KeyMovesOnce(ledger: seq<Entry>, customer: string, key: string)
    requires KeyUnique(ledger, customer, key)
    ensures MovedBy(ledger, customer, key) ==
            match FindKey(ledger, customer, key) case None => 0 case Some(e) => Signed(e)
  {
    if ledger != [] {
      if HasKey(ledger[0], customer, key) {
        forall e | e in ledger[1..]
          ensures !HasKey(e, customer, key)
        {
          var k :| 0 <= k < |ledger| - 1 && ledger[1..][k] == e;
          assert ledger[k + 1] == e;
        }
        AbsentMovesNothing(ledger[1..], customer, key);
      } else {
        KeyMovesOnce(ledger[1..], customer, key);
      }
    }
  }

  lemma FreshStaysUnique(ledger: seq<Entry>, p: Posting, balance: int, customer: string, key: string)
    requires KeyUnique(ledger, customer, key)
    requires p.customer == customer && p.key == Some(key) ==> LookUp(ledger, p) == Fresh
    ensures KeyUnique(ledger + [EntryFor(p, balance)], customer, key)
  {
    if p.customer == customer && p.key == Some(key) {
      forall i | 0 <= i < |ledger|
        ensures !HasKey(ledger[i], customer, key)
      {
        assert ledger[i] in ledger;
      }
    }
  }

  lemma {:induction false} MovedAppend(ledger: seq<Entry>, e: Entry, customer: string, key: string)
    ensures MovedBy(ledger + [e], customer, key) ==
            MovedBy(ledger, customer, key) + (if HasKey(e, customer, key) then Signed(e) else 0)
  {
    if ledger == [] {
      assert ledger + [e] == [e];
    } else {
      assert (ledger + [e])[1..] == ledger[1..] + [e];
      MovedAppend(ledger[1..], e, customer, key);
    }
  }

  /** However often a request was delivered before, once it commits its key has moved its customer by its amount, and
      no other key of anybody has moved. */
  lemma CommitMovesAmount(db: Db, r: Request, customer: string, key: string)
    requires !r.Create? && PostingOf(r).key.Some? && Atomic(db, r).Commit? && KeyUnique(db.ledger, customer, key)
    ensures var p, after := PostingOf(r), Atomic(db, r).db;
            && KeyUnique(after.ledger, customer, key)
            && MovedBy(after.ledger, customer, key) ==
               if p.customer == customer && p.key == Some(key) then SignedAmount(p.kind, p.amount)
               else MovedBy(db.ledger, customer, key)
  {
    var p := PostingOf(r);
    KeyMovesOnce(db.ledger, customer, key);
    if LookUp(db.ledger, p) == Fresh {
      var balance := Wrap(db.balances[p.customer] + Delta(p));
      assert Atomic(db, r).db.ledger == db.ledger + [EntryFor(p, balance)];
      FreshStaysUnique(db.ledger, p, balance, customer, key);
      MovedAppend(db.ledger, EntryFor(p, balance), customer, key);
    }
  }

  lemma StepKeyUnique(cfg: Config, s: State, t: nat, a: Action, customer: string, key: string)
    requires Inv(cfg, s) && Enabled(cfg, s, t, a) && KeyUnique(s.db.ledger, customer, key)
    requires cfg.index || OwnedKey(Requests(s), customer, key)
    ensures KeyUnique(Do(cfg, s, t, a).db.ledger, customer, key)
  {
    var x := s.txns[t];
    assert StableAt(cfg, s, t);
    if a.CommitTx? && x.buf.entry.Some? {
      assert KeyStable(cfg, OwnedAt(Requests(s), t), s.db, x);
      assert Carries(x.req, customer, key) && !cfg.index ==> OwnedAt(Requests(s), t);
      FreshStaysUnique(s.db.ledger, PostingOf(x.req), x.buf.balance.value, customer, key);
    }
  }

  /** A key stays unique over any run, given the index or only that the requests that carry this key share a target. */
  lemma {:induction false} RunKeyUnique(cfg: Config, tr: seq<State>, i: nat, customer: string, key: string)
    requires Run(cfg, tr) && i < |tr| && KeyUnique(tr[0].db.ledger, customer, key)
    requires cfg.index || OwnedKey(Requests(tr[0]), customer, key)
    ensures KeyUnique(tr[i].db.ledger, customer, key)
  {
    if i > 0 {
      RunKeyUnique(cfg, tr, i - 1, customer, key);
      RunInv(cfg, tr, i - 1);
      RequestsFixed(cfg, tr, i - 1);
      var t, a := StepAt(cfg, tr, i - 1);
      StepKeyUnique(cfg, tr[i - 1], t, a, customer, key);
    }
  }

  lemma RunKeysUnique(cfg: Config, tr: seq<State>, i: nat)
    requires Run(cfg, tr) && i < |tr| && KeysUnique(tr[0].db.ledger)
    requires cfg.index || KeyOwned(tr[0])
    ensures KeysUnique(tr[i].db.ledger)
  {
    forall customer, key
      ensures KeyUnique(tr[i].db.ledger, customer, key)
    {
      RunKeyUnique(cfg, tr, i, customer, key);
    }
  }

  /** Exactly once: for any number of deliveries of any requests, the key moves the balance of its customer at most once,
      whatever happens to other keys. */
  lemma RunMovesOnce(cfg: Config, tr: seq<State>, i: nat, customer: string, key: string)
    requires Run(cfg, tr) && i < |tr| && KeyUnique(tr[0].db.ledger, customer, key)
    requires cfg.index || OwnedKey(Requests(tr[0]), customer, key)
    ensures KeyUnique(tr[i].db.ledger, customer, key)
    ensures MovedBy(tr[i].db.ledger, customer, key) ==
            match FindKey(tr[i].db.ledger, customer, key) case None => 0 case Some(e) => Signed(e)
  {
    RunKeyUnique(cfg, tr, i, customer, key);
    KeyMovesOnce(tr[i].db.ledger, customer, key);
  }
}
