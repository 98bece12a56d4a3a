/** The invoice admin's derived columns: amount paid, balance, the balance's
    colour and the payment status. All of them read the invoice total and the
    sum of its payments (`Sum('amount')`, or 0 without payments). */
module FinanceAdmin {
  import opened Colours
  import opened Sums
  import opened FinanceModels

  datatype PaymentStatus = FullyPaid | PartiallyPaid | Unpaid

  /** `get_balance`: total minus paid. */
  function Balance(total: int, paid: int): (b: int)
    ensures b + paid == total
  {
    total - paid
  }

  /** `get_balance_display`: green when nothing is owed, red otherwise. */
  function BalanceColour(total: int, paid: int): (c: Colour)
    ensures c == Green <==> paid >= total
    ensures c == Red <==> paid < total
  {
    if Balance(total, paid) <= 0 then Green else Red
  }

  /** `get_payment_status`: Fully Paid when the balance is not positive;
      otherwise Partially Paid when something has been paid, else Unpaid. */
  function PaymentStatusOf(total: int, paid: int): (s: PaymentStatus)
    ensures s == FullyPaid <==> Balance(total, paid) <= 0
    ensures s == PartiallyPaid <==> Balance(total, paid) > 0 && paid > 0
    ensures s == Unpaid <==> Balance(total, paid) > 0 && paid <= 0
  {
    if Balance(total, paid) <= 0 then FullyPaid
    else if paid > 0 then PartiallyPaid
    else Unpaid
  }

  /** The colour each status is shown in. */
  function StatusColour(s: PaymentStatus): Colour {
    match s
    case FullyPaid => Green
    case PartiallyPaid => Orange
    case Unpaid => Red
  }

  /** The balance column and the status column agree: green balance exactly
      when the status is Fully Paid. */
  lemma BalanceColourMatchesStatus(total: int, paid: int)
    ensures BalanceColour(total, paid) == Green <==> PaymentStatusOf(total, paid) == FullyPaid
    ensures StatusColour(PaymentStatusOf(total, paid)) == Green <==> BalanceColour(total, paid) == Green
  {
  }

  /** An invoice's columns, read from the tables. */
  function InvoiceStatus(structures: seq<FeeStructure>, invoices: seq<Invoice>, payments: seq<Payment>, k: nat): PaymentStatus
    requires k < |invoices| && invoices[k].structure < |structures|
  {
    PaymentStatusOf(InvoiceTotal(structures, invoices[k]), PaidAmount(payments, k))
  }

  /** With no payments an invoice of positive total is Unpaid; a payment of
      the whole balance makes it Fully Paid. */
  lemma StatusAfterPayments(structures: seq<FeeStructure>, invoices: seq<Invoice>, payments: seq<Payment>, k: nat, amount: int)
    requires k < |invoices| && invoices[k].structure < |structures|
    ensures (forall p :: 0 <= p < |payments| ==> payments[p].invoice != k) && InvoiceTotal(structures, invoices[k]) > 0 ==>
              InvoiceStatus(structures, invoices, payments, k) == Unpaid
    ensures amount == Balance(InvoiceTotal(structures, invoices[k]), PaidAmount(payments, k)) ==>
              InvoiceStatus(structures, invoices, payments + [Payment(k, amount)], k) == FullyPaid
  {
    PaidAmountAfterPayment(payments, Payment(k, amount), k);
    NoPaymentsPaidNothing(payments, k);
  }

  lemma {:induction false} NoPaymentsPaidNothing(payments: seq<Payment>, k: nat)
    ensures (forall p :: 0 <= p < |payments| ==> payments[p].invoice != k) ==> PaymentsFor(payments, k) == [] && PaidAmount(payments, k) == 0
  {
    if payments != [] {
      var init := payments[..|payments| - 1];
      assert forall p :: 0 <= p < |init| ==> init[p] == payments[p];
      NoPaymentsPaidNothing(init, k);
      assert PaymentsFor(init, k) + [] == PaymentsFor(init, k);
    }
  }
}
