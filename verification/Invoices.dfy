/** Invoice creation: totals are validated, a number is drawn from a counter row, and both are committed together. */
module Invoices {
  import opened Base

  datatype Invoice = Invoice(
    id: string,
    customer: string,
    periodStart: int,
    periodEnd: int,
    items: seq<int>,
    subtotal: int,
    tax: int,
    total: int)

  datatype Stored = Stored(number: string, invoice: Invoice)

  /** The counter row and the billing_invoices table in commit order. */
  datatype Books = Books(counter: nat, invoices: seq<Stored>)

  /** last_number is a 32-bit INTEGER. */
  const MAX_NUMBER := 0x7fff_ffff

  // ----- totals -----

  function SumItems(items: seq<int>): int {
    if items == [] then 0 else SumItems(items[..|items| - 1]) + items[|items| - 1]
  }

  /** The sum of line items is the sum: of one item that item, of two lists both sums. */
  lemma {:induction false} SumItemsParts(a: seq<int>, b: seq<int>, x: int)
    ensures SumItems([x]) == x && SumItems(a + b) == SumItems(a) + SumItems(b)
  {
    assert [x][..0] == [];
    if b == [] {
      assert a + b == a;
    } else {
      assert (a + b)[..|a + b| - 1] == a + b[..|b| - 1];
      SumItemsParts(a, b[..|b| - 1], x);
    }
  }

  predicate ValidTotals(inv: Invoice) {
    inv.subtotal == Wrap(SumItems(inv.items)) && inv.total == Wrap(inv.subtotal + inv.tax)
  }

  /** validateInvoiceTotals. */
  method ValidateTotals(inv: Invoice) returns (ok: bool)
    ensures ok <==> ValidTotals(inv)
    ensures ok <==> inv.subtotal == Wrap(SumItems(inv.items)) && inv.total == Wrap(inv.subtotal + inv.tax)
    ensures ok ==> inv.total == Wrap(SumItems(inv.items) + inv.tax)
  {
    var lineItemTotal := 0;
    for i := 0 to |inv.items|
      invariant lineItemTotal == Wrap(SumItems(inv.items[..i]))
    {
      assert inv.items[..i + 1][..i] == inv.items[..i];
      WrapAdd(SumItems(inv.items[..i]), inv.items[i]);
      lineItemTotal := Wrap(lineItemTotal + inv.items[i]);
    }
    assert inv.items[..|inv.items|] == inv.items;
    WrapAdd(SumItems(inv.items), inv.tax);
    if inv.subtotal != lineItemTotal {
      return false;
    }
    return inv.total == Wrap(inv.subtotal + inv.tax);
  }

  // ----- numbers -----

  function Digit(d: nat): char
    requires d < 10
  {
    '0' + d as char
  }

  function Decimal(n: nat): string {
    if n < 10 then [Digit(n)] else Decimal(n / 10) + [Digit(n % 10)]
  }

  function Pad(s: string, width: nat): string
    decreases width - |s|
  {
    if |s| >= width then s else Pad("0" + s, width)
  }

  /** fmt.Sprintf("INV-%06d", n). */
  function InvoiceNumber(n: nat): string {
    "INV-" + Pad(Decimal(n), 6)
  }

  predicate Digits(s: string) {
    forall i :: 0 <= i < |s| ==> '0' <= s[i] <= '9'
  }

  /** The number that a string of decimal digits writes, leading zeros allowed. */
  function Value(s: string): nat {
    if s == "" || !('0' <= s[|s| - 1] <= '9') then 0 else 10 * Value(s[..|s| - 1]) + (s[|s| - 1] - '0') as nat
  }

  lemma {:induction false} DecimalValue(n: nat)
    ensures Digits(Decimal(n)) && Value(Decimal(n)) == n
  {
    if n < 10 {
      assert [Digit(n)][..0] == "";
    } else {
      DecimalValue(n / 10);
      assert Decimal(n)[..|Decimal(n)| - 1] == Decimal(n / 10);
    }
  }

  lemma {:induction false} LeadingZero(s: string)
    requires Digits(s)
    ensures Value("0" + s) == Value(s)
  {
    if s == "" {
      assert "0" + s == "0" && "0"[..0] == "";
    } else {
      assert ("0" + s)[..|s|] == "0" + s[..|s| - 1];
      LeadingZero(s[..|s| - 1]);
    }
  }

  lemma {:induction false} PadValue(s: string, width: nat)
    requires Digits(s)
    ensures |Pad(s, width)| >= width && Digits(Pad(s, width)) && Value(Pad(s, width)) == Value(s)
    decreases width - |s|
  {
    if |s| < width {
      LeadingZero(s);
      PadValue("0" + s, width);
    }
  }

  function Pow10(k: nat): nat {
    if k == 0 then 1 else 10 * Pow10(k - 1)
  }

  /** A number below 10^k has at most k digits, any other more. */
  lemma {:induction false} DecimalLength(n: nat, k: nat)
    requires k > 0
    ensures |Decimal(n)| <= k <==> n < Pow10(k)
    decreases k
  {
    if k == 1 {
      assert Pow10(1) == 10;
    } else if n >= 10 {
      DecimalLength(n / 10, k - 1);
    } else {
      assert Pow10(k) >= 10 by {
        PowAtLeast(k);
      }
    }
  }

  lemma {:induction false} PowAtLeast(k: nat)
    requires k > 0
    ensures Pow10(k) >= 10
  {
    if k > 1 {
      PowAtLeast(k - 1);
    }
  }

  /** The digits of a positive number do not start with zero. */
  lemma {:induction false} DecimalLead(n: nat)
    requires n > 0
    ensures Decimal(n)[0] != '0'
  {
    if n >= 10 {
      DecimalLead(n / 10);
    }
  }

  lemma {:induction false} PadLength(s: string, width: nat)
    ensures |Pad(s, width)| == if |s| < width then width else |s|
    ensures |s| >= width ==> Pad(s, width) == s
    decreases width - |s|
  {
    if |s| < width {
      PadLength("0" + s, width);
    }
  }

  /** Reading the digits of an invoice number gives back the number, however many digits it has: six up to 999999, and
      beyond that as many as needed, without leading zeros. */
  lemma NumberRoundTrip(n: nat)
    ensures var s := InvoiceNumber(n);
            && |s| >= 10 && s[..4] == "INV-" && Digits(s[4..]) && Value(s[4..]) == n
            && (n <= 999_999 ==> |s| == 10) && (n > 999_999 ==> |s| > 10 && s[4] != '0')
  {
    DecimalValue(n);
    PadValue(Decimal(n), 6);
    assert InvoiceNumber(n)[4..] == Pad(Decimal(n), 6);
    assert Pow10(6) == 1_000_000 by {
      assert Pow10(3) == 1000;
    }
    DecimalLength(n, 6);
    PadLength(Decimal(n), 6);
    if n > 0 {
      DecimalLead(n);
    }
  }

  // ----- one creation running alone -----

  predicate SamePeriod(a: Invoice, b: Invoice) {
    a.customer == b.customer && a.periodStart == b.periodStart && a.periodEnd == b.periodEnd
  }

  /** The unique constraints: id, invoice_number, and customer with period. */
  predicate Clashes(invoices: seq<Stored>, inv: Invoice, number: string) {
    exists i | 0 <= i < |invoices| ::
      invoices[i].invoice.id == inv.id || invoices[i].number == number || SamePeriod(invoices[i].invoice, inv)
  }

  function Issue(b: Books, inv: Invoice): Option<Books> {
    if !ValidTotals(inv) || b.counter >= MAX_NUMBER || Clashes(b.invoices, inv, InvoiceNumber(b.counter + 1)) then None
    else Some(Books(b.counter + 1, b.invoices + [Stored(InvoiceNumber(b.counter + 1), inv)]))
  }

  datatype Stmt = BeginTx | NextNumber | InsertInvoice | CommitTx

  class InvoiceStore {
    var counter: nat
    var invoices: seq<Stored>

    constructor (counter: nat, invoices: seq<Stored>)
      ensures Contents() == Books(counter, invoices)
    {
      this.counter, this.invoices := counter, invoices;
    }

    ghost function Contents(): Books
      reads this
    {
      Books(counter, invoices)
    }

    /** CreateWithNextNumber; the database fails the statements in faults. A number drawn by a creation that does not
        succeed is returned to the counter. */
    method CreateWithNextNumber(inv: Invoice, faults: set<Stmt>) returns (ok: bool)
      modifies this
      ensures ok ==> Issue(old(Contents()), inv) == Some(Contents())
      ensures ok ==>
                && counter == old(counter) + 1 && invoices == old(invoices) + [Stored(InvoiceNumber(counter), inv)]
                && {BeginTx, NextNumber, InsertInvoice, CommitTx} !! faults
      ensures !ok ==> Contents() == old(Contents())
      ensures faults == {} ==> ok == Issue(old(Contents()), inv).Some?
    {
      var valid := ValidateTotals(inv);
      if !valid || BeginTx in faults || NextNumber in faults || counter >= MAX_NUMBER {
        return false;
      }
      var saved := counter;
      counter := counter + 1;
      var number := InvoiceNumber(counter);
      if InsertInvoice in faults || Clashes(invoices, inv, number) {
        counter := saved;
        return false;
      }
      if CommitTx in faults {
        counter := saved;
        return false;
      }
      invoices := invoices + [Stored(number, inv)];
      return true;
    }
  }
}
