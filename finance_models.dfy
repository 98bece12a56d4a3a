/** The fee tables: fee structures with their items, invoices with their
    line items, and payments. Money is an integer number of minor units
    (kobo), which represents every `Decimal(10, 2)` amount exactly. A fee
    structure's items and an invoice's line items are kept inside their
    parent row; the `unique_together` constraints on them become "no fee item
    twice". Row ids are indices: invoice `k` has database id `k + 1`. */
module FinanceModels {
  import opened Wrappers
  import opened Sums
  import opened Text
  import opened Tables

  datatype StructureItem = StructureItem(feeItem: nat, amount: int)

  /** `FeeStructure` with its `feestructureitem_set`. */
  datatype FeeStructure = FeeStructure(name: string, classLevel: nat, term: nat, isActive: bool, items: seq<StructureItem>)

  datatype LineItem = LineItem(feeItem: nat, amount: int)

  /** `Invoice` with its `invoicelineitem_set`; `dueDate` is a day number. */
  datatype Invoice = Invoice(student: nat, structure: nat, number: string, dueDate: int, isPaid: bool, lineItems: seq<LineItem>)

  /** `Payment`: the invoice (by index) and the amount. */
  datatype Payment = Payment(invoice: nat, amount: int)

  function ItemAmounts(items: seq<StructureItem>): seq<int> {
    seq(|items|, k requires 0 <= k < |items| => items[k].amount)
  }

  function LineAmounts(lines: seq<LineItem>): seq<int> {
    seq(|lines|, k requires 0 <= k < |lines| => lines[k].amount)
  }

  /** `FeeStructure.total_amount`: the sum of the item amounts. */
  function StructureTotal(s: FeeStructure): int {
    SumInt(ItemAmounts(s.items))
  }

  /** `Invoice.total_amount`: the current total of the invoice's structure. */
  function InvoiceTotal(structures: seq<FeeStructure>, inv: Invoice): int
    requires inv.structure < |structures|
  {
    StructureTotal(structures[inv.structure])
  }

  /** A structure without items costs 0, and adding an item adds its amount. */
  lemma StructureTotalGrows(s: FeeStructure, item: StructureItem)
    ensures s.items == [] ==> StructureTotal(s) == 0
    ensures StructureTotal(s.(items := s.items + [item])) == StructureTotal(s) + item.amount
  {
    assert ItemAmounts(s.items + [item])[..|s.items|] == ItemAmounts(s.items);
  }

  /** The invoice total is read from the structure alone: the invoice's own
      line items and flags do not enter it. */
  lemma InvoiceTotalIgnoresLineItems(structures: seq<FeeStructure>, inv: Invoice, lines: seq<LineItem>, paid: bool)
    requires inv.structure < |structures|
    ensures InvoiceTotal(structures, inv.(lineItems := lines, isPaid := paid)) == StructureTotal(structures[inv.structure])
  {
  }

  /** The line items an invoice receives: one per structure item, same fee item and amount. */
  function CopyLineItems(items: seq<StructureItem>): (lines: seq<LineItem>)
    ensures |lines| == |items|
    ensures forall k :: 0 <= k < |items| ==> lines[k].feeItem == items[k].feeItem && lines[k].amount == items[k].amount
  {
    seq(|items|, k requires 0 <= k < |items| => LineItem(items[k].feeItem, items[k].amount))
  }

  /** The copied line items add up to the structure's total. */
  lemma CopiedLinesSumToTotal(s: FeeStructure)
    ensures SumInt(LineAmounts(CopyLineItems(s.items))) == StructureTotal(s)
  {
    assert LineAmounts(CopyLineItems(s.items)) == ItemAmounts(s.items);
  }

  /** `f"INV{n:05d}"` with n = last invoice id + 1, or 1 without invoices. */
  function NextInvoiceNumber(lastId: Option<nat>): (r: string)
    ensures |r| >= 8 && r[..3] == "INV"
    ensures IsDigits(r[3..])
  {
    var n := if lastId.Some? then lastId.value + 1 else 1;
    PaddedNumberRoundTrip(n, 5);
    "INV" + PaddedNumber(n, 5)
  }

  /** The id of the last invoice when there are `count` of them. */
  function LastInvoiceId(count: nat): Option<nat> {
    if count == 0 then None else Some(count)
  }

  /** Invoice number of the invoice with database id `id`: "INV00001" for the first. */
  lemma InvoiceNumberOfId(count: nat)
    ensures NextInvoiceNumber(LastInvoiceId(count)) == "INV" + PaddedNumber(count + 1, 5)
    ensures count == 0 ==> NextInvoiceNumber(LastInvoiceId(count)) == "INV00001"
  {
    if count == 0 {
      assert PaddedNumber(1, 5) == "00001";
    }
  }

  /** Different next ids give different invoice numbers. */
  lemma InvoiceNumbersDiffer(a: nat, b: nat)
    requires a != b
    ensures NextInvoiceNumber(LastInvoiceId(a)) != NextInvoiceNumber(LastInvoiceId(b))
  {
    InvoiceNumberOfId(a);
    InvoiceNumberOfId(b);
    var na := NextInvoiceNumber(LastInvoiceId(a));
    var nb := NextInvoiceNumber(LastInvoiceId(b));
    if na == nb {
      assert na[3..] == PaddedNumber(a + 1, 5);
      assert nb[3..] == PaddedNumber(b + 1, 5);
      PaddedNumberInjective(a + 1, b + 1, 5);
    }
  }

  /** A freshly created invoice: `is_paid` defaults to False. */
  function NewInvoice(student: nat, structureId: nat, number: string, dueDate: int, items: seq<StructureItem>): (inv: Invoice)
    ensures !inv.isPaid
    ensures SumInt(LineAmounts(inv.lineItems)) == SumInt(ItemAmounts(items))
  {
    assert LineAmounts(CopyLineItems(items)) == ItemAmounts(items);
    Invoice(student, structureId, number, dueDate, false, CopyLineItems(items))
  }

  // ---------------------------------------------------------------------
  // Payments

  /** The amounts of the payments made against invoice `k`, in order. */
  function PaymentsFor(payments: seq<Payment>, k: nat): seq<int> {
    if payments == [] then []
    else
      var last := payments[|payments| - 1];
      PaymentsFor(payments[..|payments| - 1], k) + (if last.invoice == k then [last.amount] else [])
  }

  /** `sum(p.amount for p in invoice.payment_set.all())`, and equally the
      admin's `Sum('amount')` aggregate with its `or 0`. */
  function PaidAmount(payments: seq<Payment>, k: nat): int {
    SumInt(PaymentsFor(payments, k))
  }

  /** A new payment adds its amount to its own invoice's paid amount and to no other. */
  lemma PaidAmountAfterPayment(payments: seq<Payment>, p: Payment, k: nat)
    ensures PaidAmount(payments + [p], k) == PaidAmount(payments, k) + (if p.invoice == k then p.amount else 0)
  {
    assert (payments + [p])[..|payments|] == payments;
    if p.invoice == k {
      SumIntAppend(PaymentsFor(payments, k), [p.amount]);
    } else {
      assert PaymentsFor(payments, k) + [] == PaymentsFor(payments, k);
    }
  }

  /** The dashboard's pending-invoice count: invoices with `is_paid` false. */
  function UnpaidCount(invoices: seq<Invoice>): nat {
    if invoices == [] then 0
    else UnpaidCount(invoices[..|invoices| - 1]) + (if invoices[|invoices| - 1].isPaid then 0 else 1)
  }

  lemma {:induction false} UnpaidCountBounds(invoices: seq<Invoice>)
    ensures UnpaidCount(invoices) <= |invoices|
    ensures UnpaidCount(invoices) == 0 <==> forall k :: 0 <= k < |invoices| ==> invoices[k].isPaid
  {
    if invoices != [] {
      var init := invoices[..|invoices| - 1];
      UnpaidCountBounds(init);
      assert forall k :: 0 <= k < |init| ==> init[k] == invoices[k];
    }
  }

  // ---------------------------------------------------------------------
  // Constraints

  /** `unique_together = ('class_level', 'term')`. */
  predicate UniqueStructures(structures: seq<FeeStructure>) {
    forall i, j :: 0 <= i < j < |structures| ==> structures[i].classLevel != structures[j].classLevel || structures[i].term != structures[j].term
  }

  /** `unique_together = ('fee_structure', 'fee_item')`, per structure. */
  predicate DistinctFeeItems(items: seq<StructureItem>) {
    forall i, j :: 0 <= i < j < |items| ==> items[i].feeItem != items[j].feeItem
  }

  /** `unique_together = ('invoice', 'fee_item')`, per invoice. */
  predicate DistinctLineItems(lines: seq<LineItem>) {
    forall i, j :: 0 <= i < j < |lines| ==> lines[i].feeItem != lines[j].feeItem
  }

  function StructureKey(s: FeeStructure): Option<(nat, nat)> {
    Some((s.classLevel, s.term))
  }

  /** Creating a fee structure: refused when the class already has one for that term. */
  function CreateFeeStructure(structures: seq<FeeStructure>, s: FeeStructure): (r: Result<seq<FeeStructure>, IntegrityError>)
    ensures r.Err? <==> exists i :: 0 <= i < |structures| && structures[i].classLevel == s.classLevel && structures[i].term == s.term
    ensures r.Ok? ==> r.value == structures + [s]
    ensures r.Ok? && UniqueStructures(structures) ==> UniqueStructures(r.value)
  {
    var r := Insert(structures, StructureKey, s);
    assert r.Err? ==> exists i :: 0 <= i < |structures| && StructureKey(structures[i]) == StructureKey(s);
    r
  }

  /** Line items copied from a structure inherit its "no fee item twice". */
  lemma CopyKeepsDistinct(items: seq<StructureItem>)
    requires DistinctFeeItems(items)
    ensures DistinctLineItems(CopyLineItems(items))
  {
  }
}
