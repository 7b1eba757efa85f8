/** Concurrent invoice creations: the counter row stays locked until the transaction that drew from it ends. */
module InvoiceRuns {
  import opened Base
  import opened Invoices

  datatype Pc = Begun | Numbered(n: nat) | Inserted(n: nat) | Finished(done: bool)

  datatype Txn = Txn(inv: Invoice, pc: Pc)

  datatype State = State(books: Books, txns: map<nat, Txn>)

  predicate HoldsCounter(x: Txn) {
    x.pc.Numbered? || x.pc.Inserted?
  }

  datatype Action = Statement | CommitTx | RollBack

  predicate Enabled(s: State, t: nat, a: Action) {
    && t in s.txns
    && !s.txns[t].pc.Finished?
    && match a
       case Statement => s.txns[t].pc == Begun ==> forall u | u in s.txns :: !HoldsCounter(s.txns[u])
       case CommitTx => s.txns[t].pc.Inserted?
       case RollBack => true
  }

  /** Validation and the counter update, then the insert; reads see the latest committed tables. */
  function Advance(b: Books, x: Txn): Txn {
    match x.pc
    case Begun =>
      if !ValidTotals(x.inv) || b.counter >= MAX_NUMBER then x.(pc := Finished(false)) else x.(pc := Numbered(b.counter + 1))
    case Numbered(n) =>
      if Clashes(b.invoices, x.inv, InvoiceNumber(n)) then x.(pc := Finished(false)) else x.(pc := Inserted(n))
    case _ => x
  }

  function Do(s: State, t: nat, a: Action): State
    requires Enabled(s, t, a)
  {
    var x := s.txns[t];
    match a
    case Statement => s.(txns := s.txns[t := Advance(s.books, x)])
    case CommitTx =>
      State(Books(x.pc.n, s.books.invoices + [Stored(InvoiceNumber(x.pc.n), x.inv)]), s.txns[t := x.(pc := Finished(true))])
    case RollBack => s.(txns := s.txns[t := x.(pc := Finished(false))])
  }

  ghost predicate StepsAt(tr: seq<State>, i: nat)
    requires i + 1 < |tr|
  {
    exists t: nat, a: Action :: Enabled(tr[i], t, a) && tr[i + 1] == Do(tr[i], t, a)
  }

  ghost predicate Run(tr: seq<State>) {
    && |tr| > 0
    && (forall t :: t in tr[0].txns ==> tr[0].txns[t].pc == Begun)
    && forall i: nat :: i + 1 < |tr| ==> StepsAt(tr, i)
  }

  /** The drawn number is still the next one, and the checks made under the lock still hold. */
  ghost predicate Current(b: Books, x: Txn) {
    && (HoldsCounter(x) ==> x.pc.n == b.counter + 1 && ValidTotals(x.inv) && b.counter < MAX_NUMBER)
    && (x.pc.Inserted? ==> !Clashes(b.invoices, x.inv, InvoiceNumber(x.pc.n)))
  }

  ghost predicate Inv(s: State) {
    && (forall t, u :: t in s.txns && u in s.txns && HoldsCounter(s.txns[t]) && HoldsCounter(s.txns[u]) ==> t == u)
    && (forall t :: t in s.txns ==> Current(s.books, s.txns[t]))
  }

  lemma StepInv(s: State, t: nat, a: Action)
    requires Inv(s) && Enabled(s, t, a)
    ensures Inv(Do(s, t, a))
  {
  }

  /** A commit is one creation running alone on the books of that moment. */
  lemma CommitIsIssue(s: State, t: nat)
    requires Inv(s) && Enabled(s, t, Action.CommitTx)
    ensures Issue(s.books, s.txns[t].inv) == Some(Do(s, t, Action.CommitTx).books)
  {
  }

  /** A statement refuses a creation only if running alone at that moment would refuse it, and otherwise goes on. */
  lemma StatementIsIssue(s: State, t: nat)
    requires Inv(s) && Enabled(s, t, Statement) && !s.txns[t].pc.Inserted?
    ensures var x, y := s.txns[t], Advance(s.books, s.txns[t]);
            && (y.pc == Finished(false) ==> Issue(s.books, x.inv).None?)
            && (y.pc != Finished(false) ==>
                  y == x.(pc := if x.pc == Begun then Numbered(s.books.counter + 1) else Inserted(s.books.counter + 1)))
  {
  }

  /** The books grew from the first ones by consecutive numbers, each on an invoice with matching totals, and no two
      invoices share an id or a customer's period. */
  ghost predicate GapFree(first: Books, b: Books) {
    && first.counter <= b.counter
    && first.invoices <= b.invoices
    && |b.invoices| - |first.invoices| == b.counter - first.counter
    && (forall i :: |first.invoices| <= i < |b.invoices| ==> NumberedAs(b.invoices[i], first.counter + 1 + i - |first.invoices|))
    && (forall i, j :: |first.invoices| <= j < |b.invoices| && 0 <= i < j ==> Apart(b.invoices[i], b.invoices[j]))
  }

  predicate NumberedAs(x: Stored, n: int) {
    n >= 0 && x.number == InvoiceNumber(n) && TotalsMatch(x.invoice)
  }

  predicate Apart(a: Stored, b: Stored) {
    a.number != b.number && Compatible(a.invoice, b.invoice)
  }

  /** The two invoices differ in their id, and in their customer or their period. */
  predicate Compatible(a: Invoice, b: Invoice) {
    && a.id != b.id
    && (a.customer != b.customer || a.periodStart != b.periodStart || a.periodEnd != b.periodEnd)
  }

  /** The subtotal is the sum of the line items, and the total is the subtotal with tax, in int64. */
  predicate TotalsMatch(inv: Invoice) {
    inv.subtotal == Wrap(SumItems(inv.items)) && inv.total == Wrap(inv.subtotal + inv.tax)
  }

  lemma IssueGapFree(first: Books, b: Books, inv: Invoice)
    requires GapFree(first, b) && Issue(b, inv).Some?
    ensures GapFree(first, Issue(b, inv).value)
  {
    var b', n := Issue(b, inv).value, |b.invoices|;
    forall i | 0 <= i < n
      ensures Apart(b'.invoices[i], b'.invoices[n])
    {
      assert b'.invoices[i] == b.invoices[i];
    }
  }

  lemma {:induction false} RunInv(tr: seq<State>, i: nat)
    requires Run(tr) && i < |tr|
    ensures Inv(tr[i])
  {
    if i > 0 {
      RunInv(tr, i - 1);
      assert StepsAt(tr, i - 1);
      var t: nat, a: Action :| Enabled(tr[i - 1], t, a) && tr[i] == Do(tr[i - 1], t, a);
      StepInv(tr[i - 1], t, a);
    }
  }

  /** Over any interleaving of successful, conflicting and rolled-back creations, the committed numbers are exactly the
      consecutive range up to the counter. */
  lemma {:induction false} RunGapFree(tr: seq<State>, i: nat)
    requires Run(tr) && i < |tr|
    ensures GapFree(tr[0].books, tr[i].books)
  {
    if i > 0 {
      RunGapFree(tr, i - 1);
      RunInv(tr, i - 1);
      assert StepsAt(tr, i - 1);
      var t: nat, a: Action :| Enabled(tr[i - 1], t, a) && tr[i] == Do(tr[i - 1], t, a);
      if a.CommitTx? {
        CommitIsIssue(tr[i - 1], t);
        IssueGapFree(tr[0].books, tr[i - 1].books, tr[i - 1].txns[t].inv);
      }
    }
  }

  // ----- the drawn number is never the obstacle -----

  predicate DrawnBy(number: string, counter: nat) {
    exists n: nat | n <= counter :: number == InvoiceNumber(n)
  }

  /** Every stored number was drawn from the counter. */
  ghost predicate AllDrawn(b: Books) {
    forall i :: 0 <= i < |b.invoices| ==> DrawnBy(b.invoices[i].number, b.counter)
  }

  lemma NextIsNew(number: string, counter: nat)
    requires DrawnBy(number, counter)
    ensures number != InvoiceNumber(counter + 1)
  {
    var n: nat :| n <= counter && number == InvoiceNumber(n);
    NumberRoundTrip(n);
    NumberRoundTrip(counter + 1);
  }

  lemma IssueDrawn(b: Books, inv: Invoice)
    requires AllDrawn(b) && Issue(b, inv).Some?
    ensures AllDrawn(Issue(b, inv).value)
  {
    var b' := Issue(b, inv).value;
    forall i | 0 <= i < |b'.invoices|
      ensures DrawnBy(b'.invoices[i].number, b'.counter)
    {
      if i < |b.invoices| {
        assert DrawnBy(b.invoices[i].number, b.counter);
      }
    }
  }

  lemma {:induction false} RunDrawn(tr: seq<State>, i: nat)
    requires Run(tr) && i < |tr| && AllDrawn(tr[0].books)
    ensures AllDrawn(tr[i].books)
  {
    if i > 0 {
      RunDrawn(tr, i - 1);
      RunInv(tr, i - 1);
      assert StepsAt(tr, i - 1);
      var t: nat, a: Action :| Enabled(tr[i - 1], t, a) && tr[i] == Do(tr[i - 1], t, a);
      if a.CommitTx? {
        CommitIsIssue(tr[i - 1], t);
        IssueDrawn(tr[i - 1].books, tr[i - 1].txns[t].inv);
      }
    }
  }

  /** At every point of every run a creation running alone succeeds if and only if its totals match, a number is left, and
      it repeats no id and no customer's period: the unique constraint on the number never refuses it, also past six
      digits. */
  lemma RunIssueExactly(tr: seq<State>, i: nat, inv: Invoice)
    requires Run(tr) && i < |tr| && AllDrawn(tr[0].books)
    ensures var b := tr[i].books;
            && (Issue(b, inv).Some? <==>
                  && TotalsMatch(inv)
                  && b.counter < 0x7fff_ffff
                  && forall j :: 0 <= j < |b.invoices| ==> Compatible(b.invoices[j].invoice, inv))
            && (Issue(b, inv).Some? ==>
                  Issue(b, inv).value == Books(b.counter + 1, b.invoices + [Stored(InvoiceNumber(b.counter + 1), inv)]))
  {
    var b := tr[i].books;
    RunDrawn(tr, i);
    forall j | 0 <= j < |b.invoices|
      ensures b.invoices[j].number != InvoiceNumber(b.counter + 1)
    {
      NextIsNew(b.invoices[j].number, b.counter);
    }
  }

  lemma NumbersApart(m: nat, n: nat)
    requires m < n
    ensures var a, b := InvoiceNumber(m), InvoiceNumber(n);
            |a| >= 4 && |b| >= 4 && Value(b[4..]) - Value(a[4..]) == n - m && a != b
  {
    NumberRoundTrip(m);
    NumberRoundTrip(n);
  }

  /** The new invoice numbers are pairwise different strings, also past six digits. */
  lemma NewNumbersDistinct(first: Books, b: Books, i: nat, j: nat)
    requires GapFree(first, b) && |first.invoices| <= i < j < |b.invoices|
    ensures |b.invoices[i].number| >= 4 && |b.invoices[j].number| >= 4
    ensures Value(b.invoices[j].number[4..]) - Value(b.invoices[i].number[4..]) == j - i
    ensures b.invoices[i].number != b.invoices[j].number
  {
    assert NumberedAs(b.invoices[i], first.counter + 1 + i - |first.invoices|);
    assert NumberedAs(b.invoices[j], first.counter + 1 + j - |first.invoices|);
    NumbersApart(first.counter + 1 + i - |first.invoices|, first.counter + 1 + j - |first.invoices|);
  }
}
