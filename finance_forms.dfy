/** The finance forms: the balance check on a payment amount and the choice
    lists the forms offer (unpaid invoices, active fee structures, current
    terms). */
module FinanceForms {
  import opened Wrappers
  import opened Sums
  import opened FinanceModels
  import opened Calendar

  /** What `clean_amount` reads from the chosen invoice: its total and what
      its existing payments add up to. */
  datatype InvoiceFigures = InvoiceFigures(total: int, paid: int)

  /** The validation error, carrying the "Maximum allowed" balance. */
  datatype AmountError = ExceedsBalance(maxAllowed: int)

  /** `PaymentForm.clean_amount`. Without an invoice, or with an amount of 0
      (falsy), nothing is checked. Otherwise an amount above the balance
      (total minus payments so far) is refused; an amount equal to it passes.
      An accepted amount comes back unchanged. */
  function CleanAmount(invoice: Option<InvoiceFigures>, amount: int): (r: Result<int, AmountError>)
    ensures r.Err? <==> invoice.Some? && amount != 0 && amount > invoice.value.total - invoice.value.paid
    ensures r.Err? ==> r.error.maxAllowed == invoice.value.total - invoice.value.paid
    ensures r.Ok? ==> r.value == amount
  {
    if invoice.Some? && amount != 0 then
      var balance := invoice.value.total - invoice.value.paid;
      if amount > balance then Err(ExceedsBalance(balance)) else Ok(amount)
    else Ok(amount)
  }

  /** Every payment in `amounts` passed `clean_amount` against the payments before it. */
  predicate AcceptedInOrder(total: int, amounts: seq<int>) {
    forall k :: 0 <= k < |amounts| ==> CleanAmount(Some(InvoiceFigures(total, SumInt(amounts[..k]))), amounts[k]).Ok?
  }

  /** Payments that each pass the check, one after the other, never add up to
      more than the invoice total (when the total is not negative). */
  lemma {:induction false} AcceptedPaymentsStayWithinTotal(total: int, amounts: seq<int>)
    requires total >= 0
    requires AcceptedInOrder(total, amounts)
    ensures SumInt(amounts) <= total
  {
    if amounts != [] {
      var n := |amounts| - 1;
      var init := amounts[..n];
      assert AcceptedInOrder(total, init) by {
        forall k | 0 <= k < |init|
          ensures CleanAmount(Some(InvoiceFigures(total, SumInt(init[..k]))), init[k]).Ok?
        {
          assert init[..k] == amounts[..k];
        }
      }
      AcceptedPaymentsStayWithinTotal(total, init);
      assert amounts[..n] == init;
    }
  }

  // ---------------------------------------------------------------------
  // Choice lists

  /** The indices of the rows `allowed` keeps, in table order. */
  function Choices<T>(rows: seq<T>, allowed: T -> bool): (ids: seq<nat>)
    ensures forall k: nat :: k in ids <==> k < |rows| && allowed(rows[k])
    ensures forall a, b :: 0 <= a < b < |ids| ==> ids[a] < ids[b]
  {
    if rows == [] then []
    else
      var init := Choices(rows[..|rows| - 1], allowed);
      assert forall k :: 0 <= k < |rows| - 1 ==> rows[..|rows| - 1][k] == rows[k];
      assert forall a :: 0 <= a < |init| ==> init[a] in init;
      init + (if allowed(rows[|rows| - 1]) then [|rows| - 1] else [])
  }

  /** `PaymentForm`: only invoices with `is_paid` False can be chosen. */
  function PayableInvoices(invoices: seq<Invoice>): (ids: seq<nat>)
    ensures forall k: nat :: k in ids <==> k < |invoices| && !invoices[k].isPaid
  {
    Choices(invoices, (inv: Invoice) => !inv.isPaid)
  }

  /** `InvoiceForm`: only active fee structures can be chosen. */
  function ActiveStructures(structures: seq<FeeStructure>): (ids: seq<nat>)
    ensures forall k: nat :: k in ids <==> k < |structures| && structures[k].isActive
  {
    Choices(structures, (s: FeeStructure) => s.isActive)
  }

  /** `FeeStructureForm`: only current terms can be chosen. */
  function CurrentTerms(terms: seq<Row<TermData>>): (ids: seq<nat>)
    ensures forall k: nat :: k in ids <==> k < |terms| && terms[k].isCurrent
  {
    Choices(terms, (t: Row<TermData>) => t.isCurrent)
  }

  /** The dashboard's pending-invoice count is the number of invoices a payment can still target. */
  lemma PendingCountIsPayableCount(invoices: seq<Invoice>)
    ensures UnpaidCount(invoices) == |PayableInvoices(invoices)|
  {
    PendingCountMatches(invoices);
  }

  lemma {:induction false} PendingCountMatches(invoices: seq<Invoice>)
    ensures UnpaidCount(invoices) == |Choices(invoices, (inv: Invoice) => !inv.isPaid)|
  {
    if invoices != [] {
      PendingCountMatches(invoices[..|invoices| - 1]);
    }
  }
}
