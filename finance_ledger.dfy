/** The finance views and admin actions that change the fee tables:
    creating an invoice, recording a payment, generating a term's invoices,
    marking invoices paid or unpaid, and the read-only reports beside them.
    The tables live in one `Ledger` object whose methods update them in
    place. Dates are day numbers; "now + 30 days" is `today + 30`. */
module FinanceLedger {
  import opened Wrappers
  import opened Sums
  import opened Text
  import opened FinanceModels
  import opened FinanceForms
  import opened FinanceAdmin

  /** An active student of the term's session and the class they are in. */
  datatype StudentRef = StudentRef(id: nat, currentClass: Option<nat>)

  /** Why the payment form was refused: the invoice is not among the unpaid
      ones it offers, or `clean_amount` refused the amount. */
  datatype PaymentError = InvoiceNotOffered | AmountRefused(maxAllowed: int)

  /** A row of the fee-structure report. */
  datatype ClassTotal = ClassTotal(classId: nat, total: int, structure: nat)

  // ---------------------------------------------------------------------
  // Specification of the term generation

  /** The structure `generate_term_invoices` looks for: the student's class,
      the term, and active. */
  predicate Applies(s: FeeStructure, currentClass: Option<nat>, term: nat) {
    currentClass.Some? && s.classLevel == currentClass.value && s.term == term && s.isActive
  }

  /** `FeeStructure.objects.filter(...).first()`. */
  function ApplicableStructure(structures: seq<FeeStructure>, currentClass: Option<nat>, term: nat): (r: Option<nat>)
    ensures r.Some? ==> r.value < |structures| && Applies(structures[r.value], currentClass, term)
    ensures r.None? <==> forall i :: 0 <= i < |structures| ==> !Applies(structures[i], currentClass, term)
  {
    if structures == [] then None
    else
      var init := ApplicableStructure(structures[..|structures| - 1], currentClass, term);
      assert forall i :: 0 <= i < |structures| - 1 ==> structures[..|structures| - 1][i] == structures[i];
      if init.Some? then init
      else if Applies(structures[|structures| - 1], currentClass, term) then Some(|structures| - 1)
      else None
  }

  /** While (class, term) is unique, the applicable structure is the only one. */
  lemma ApplicableStructureIsUnique(structures: seq<FeeStructure>, currentClass: Option<nat>, term: nat, i: nat)
    requires UniqueStructures(structures)
    requires i < |structures| && Applies(structures[i], currentClass, term)
    ensures ApplicableStructure(structures, currentClass, term) == Some(i)
  {
    var j := ApplicableStructure(structures, currentClass, term).value;
    assert !(j < i) && !(i < j);
  }

  predicate HasInvoiceFor(invoices: seq<Invoice>, student: nat, structure: nat) {
    exists k :: 0 <= k < |invoices| && invoices[k].student == student && invoices[k].structure == structure
  }

  /** The invoice created for `student` on `structureId` when `invoices` exist already. */
  function InvoiceFor(structures: seq<FeeStructure>, invoices: seq<Invoice>, student: nat, structureId: nat, today: int): Invoice
    requires structureId < |structures|
  {
    NewInvoice(student, structureId, NextInvoiceNumber(LastInvoiceId(|invoices|)), today + 30, structures[structureId].items)
  }

  /** The loop body of `generate_term_invoices` for one student. */
  function GenerateStep(structures: seq<FeeStructure>, invoices: seq<Invoice>, s: StudentRef, term: nat, today: int): seq<Invoice> {
    match ApplicableStructure(structures, s.currentClass, term)
    case None => invoices
    case Some(id) => if HasInvoiceFor(invoices, s.id, id) then invoices else invoices + [InvoiceFor(structures, invoices, s.id, id, today)]
  }

  /** The invoices after the loop has visited `students`. */
  function Generate(structures: seq<FeeStructure>, invoices: seq<Invoice>, students: seq<StudentRef>, term: nat, today: int): seq<Invoice> {
    if students == [] then invoices
    else GenerateStep(structures, Generate(structures, invoices, students[..|students| - 1], term, today), students[|students| - 1], term, today)
  }

  /** Every listed student with an applicable structure has an invoice for it. */
  predicate Covered(structures: seq<FeeStructure>, invoices: seq<Invoice>, students: seq<StudentRef>, term: nat) {
    forall i :: 0 <= i < |students| && ApplicableStructure(structures, students[i].currentClass, term).Some? ==>
      HasInvoiceFor(invoices, students[i].id, ApplicableStructure(structures, students[i].currentClass, term).value)
  }

  /** No two invoices for the same (student, structure). */
  predicate OnePerStudentAndStructure(invoices: seq<Invoice>) {
    forall i, j :: 0 <= i < j < |invoices| ==> invoices[i].student != invoices[j].student || invoices[i].structure != invoices[j].structure
  }

  /** Generation only appends. */
  lemma {:induction false} GenerateExtends(structures: seq<FeeStructure>, invoices: seq<Invoice>, students: seq<StudentRef>, term: nat, today: int)
    ensures |invoices| <= |Generate(structures, invoices, students, term, today)|
    ensures Generate(structures, invoices, students, term, today)[..|invoices|] == invoices
  {
    if students != [] {
      GenerateExtends(structures, invoices, students[..|students| - 1], term, today);
    }
  }

  /** One step of the loop keeps every invoice already there. */
  lemma StepKeepsInvoice(structures: seq<FeeStructure>, before: seq<Invoice>, s: StudentRef, term: nat, today: int, student: nat, id: nat)
    requires HasInvoiceFor(before, student, id)
    ensures HasInvoiceFor(GenerateStep(structures, before, s, term, today), student, id)
  {
    var after := GenerateStep(structures, before, s, term, today);
    var k :| 0 <= k < |before| && before[k].student == student && before[k].structure == id;
    assert after[k] == before[k];
  }

  /** One step of the loop leaves its student with an invoice for the applicable structure. */
  lemma StepCoversStudent(structures: seq<FeeStructure>, before: seq<Invoice>, s: StudentRef, term: nat, today: int)
    requires ApplicableStructure(structures, s.currentClass, term).Some?
    ensures HasInvoiceFor(GenerateStep(structures, before, s, term, today), s.id, ApplicableStructure(structures, s.currentClass, term).value)
  {
    var id := ApplicableStructure(structures, s.currentClass, term).value;
    var after := GenerateStep(structures, before, s, term, today);
    if !HasInvoiceFor(before, s.id, id) {
      assert after[|before|].student == s.id && after[|before|].structure == id;
    }
  }

  /** After generation, every listed student with an applicable structure
      has an invoice for it, whatever invoices existed before. */
  lemma {:induction false} GenerateCovers(structures: seq<FeeStructure>, invoices: seq<Invoice>, students: seq<StudentRef>, term: nat, today: int)
    ensures Covered(structures, Generate(structures, invoices, students, term, today), students, term)
  {
    if students != [] {
      var init := students[..|students| - 1];
      var last := students[|students| - 1];
      var before := Generate(structures, invoices, init, term, today);
      GenerateCovers(structures, invoices, init, term, today);
      forall i | 0 <= i < |students| && ApplicableStructure(structures, students[i].currentClass, term).Some?
        ensures HasInvoiceFor(GenerateStep(structures, before, last, term, today), students[i].id, ApplicableStructure(structures, students[i].currentClass, term).value)
      {
        if i < |init| {
          assert init[i] == students[i];
          StepKeepsInvoice(structures, before, last, term, today, students[i].id, ApplicableStructure(structures, students[i].currentClass, term).value);
        } else {
          StepCoversStudent(structures, before, last, term, today);
        }
      }
    }
  }

  /** When every listed student is already covered, generation adds nothing. */
  lemma {:induction false} GenerateNoOp(structures: seq<FeeStructure>, invoices: seq<Invoice>, students: seq<StudentRef>, term: nat, today: int)
    requires Covered(structures, invoices, students, term)
    ensures Generate(structures, invoices, students, term, today) == invoices
  {
    if students != [] {
      var init := students[..|students| - 1];
      assert Covered(structures, invoices, init, term) by {
        forall i | 0 <= i < |init|
          ensures init[i] == students[i]
        {
        }
      }
      GenerateNoOp(structures, invoices, init, term, today);
    }
  }

  /** Generation never adds a second invoice for a (student, structure)
      pair, so a table without such duplicates stays without them. */
  lemma {:induction false} GenerateKeepsOnePerPair(structures: seq<FeeStructure>, invoices: seq<Invoice>, students: seq<StudentRef>, term: nat, today: int)
    requires OnePerStudentAndStructure(invoices)
    ensures OnePerStudentAndStructure(Generate(structures, invoices, students, term, today))
  {
    if students != [] {
      GenerateKeepsOnePerPair(structures, invoices, students[..|students| - 1], term, today);
    }
  }

  /** Running the generation a second time creates no invoice, whatever
      invoices existed before the first run. */
  lemma GenerateIdempotent(structures: seq<FeeStructure>, invoices: seq<Invoice>, students: seq<StudentRef>, term: nat, today: int)
    ensures Generate(structures, Generate(structures, invoices, students, term, today), students, term, today)
            == Generate(structures, invoices, students, term, today)
  {
    GenerateCovers(structures, invoices, students, term, today);
    GenerateNoOp(structures, Generate(structures, invoices, students, term, today), students, term, today);
  }

  // ---------------------------------------------------------------------
  // Payments: the flag `PaymentCreateView.form_valid` sets

  /** As written: the saved payment is already in `payment_set`, and its
      amount is added once more. */
  function PaidFlagAsWritten(total: int, paidBefore: int, amount: int): bool {
    (paidBefore + amount) + amount >= total
  }

  /** As intended: the invoice is paid once its payments reach its total. */
  function PaidFlagCorrected(total: int, paidBefore: int, amount: int): (paid: bool)
    ensures paid <==> PaymentStatusOf(total, paidBefore + amount) == FullyPaid
  {
    paidBefore + amount >= total
  }

  /** The double count marks an invoice of 100.00 paid after a single
      payment of 50.00, while the admin still shows it as Partially Paid. */
  lemma PaymentCountedTwice()
    ensures PaidFlagAsWritten(10000, 0, 5000)
    ensures !PaidFlagCorrected(10000, 0, 5000)
    ensures PaymentStatusOf(10000, 5000) == PartiallyPaid
  {
  }

  /** For non-negative amounts the written flag is set whenever the intended
      one is, and also for every payment that reaches at least half the
      remaining balance. */
  lemma AsWrittenFlagIsWeaker(total: int, paidBefore: int, amount: int)
    requires amount >= 0
    ensures PaidFlagCorrected(total, paidBefore, amount) ==> PaidFlagAsWritten(total, paidBefore, amount)
    ensures PaidFlagAsWritten(total, paidBefore, amount) <==> 2 * amount >= total - paidBefore
  {
  }

  // ---------------------------------------------------------------------
  // Other read-only specifications

  /** `invoices.filter(is_paid=...)` for the admin actions' `queryset.update`. */
  function MarkPaid(invoices: seq<Invoice>, selected: set<nat>, value: bool): (r: seq<Invoice>)
    ensures |r| == |invoices|
    ensures forall k :: 0 <= k < |r| ==> r[k].isPaid == (if k in selected then value else invoices[k].isPaid)
    ensures forall k :: 0 <= k < |r| ==> r[k].(isPaid := invoices[k].isPaid) == invoices[k]
  {
    seq(|invoices|, k requires 0 <= k < |invoices| => if k in selected then invoices[k].(isPaid := value) else invoices[k])
  }

  /** The first structure of the term for the class (no `is_active` filter here). */
  function StructureForClass(structures: seq<FeeStructure>, classId: nat, term: nat): (r: Option<nat>)
    ensures r.Some? ==> r.value < |structures| && structures[r.value].classLevel == classId && structures[r.value].term == term
    ensures r.None? <==> forall i :: 0 <= i < |structures| ==> structures[i].classLevel != classId || structures[i].term != term
  {
    if structures == [] then None
    else
      var init := StructureForClass(structures[..|structures| - 1], classId, term);
      assert forall i :: 0 <= i < |structures| - 1 ==> structures[..|structures| - 1][i] == structures[i];
      var last := structures[|structures| - 1];
      if init.Some? then init
      else if last.classLevel == classId && last.term == term then Some(|structures| - 1)
      else None
  }

  /** `fee_structure_report`: one row per class that has a structure for the
      term, in class order; no rows without a term. */
  function ReportRows(structures: seq<FeeStructure>, term: Option<nat>, classIds: seq<nat>): seq<ClassTotal> {
    if term.None? || classIds == [] then []
    else
      var init := ReportRows(structures, term, classIds[..|classIds| - 1]);
      var c := classIds[|classIds| - 1];
      match StructureForClass(structures, c, term.value)
      case None => init
      case Some(s) => init + [ClassTotal(c, StructureTotal(structures[s]), s)]
  }

  /** Every report row shows its class's structure for the term and that structure's total. */
  lemma {:induction false} ReportRowsShowTotals(structures: seq<FeeStructure>, term: Option<nat>, classIds: seq<nat>)
    ensures term.None? ==> ReportRows(structures, term, classIds) == []
    ensures |ReportRows(structures, term, classIds)| <= |classIds|
    ensures forall r :: r in ReportRows(structures, term, classIds) ==>
      r.classId in classIds && r.structure < |structures| && structures[r.structure].classLevel == r.classId &&
      structures[r.structure].term == term.value && r.total == StructureTotal(structures[r.structure])
  {
    if term.Some? && classIds != [] {
      ReportRowsShowTotals(structures, term, classIds[..|classIds| - 1]);
    }
  }

  /** `InvoiceListView.get_queryset`: the student filter when given, then
      'paid' keeps paid invoices, 'unpaid' keeps unpaid ones, any other
      status keeps all. */
  function ListInvoices(invoices: seq<Invoice>, student: Option<nat>, status: string): (ids: seq<nat>)
    ensures forall k: nat :: k in ids ==> k < |invoices| && (student.None? || invoices[k].student == student.value)
    ensures status == "paid" ==> forall k: nat :: k in ids <==> k < |invoices| && invoices[k].isPaid && (student.None? || invoices[k].student == student.value)
    ensures status == "unpaid" ==> forall k: nat :: k in ids <==> k < |invoices| && !invoices[k].isPaid && (student.None? || invoices[k].student == student.value)
    ensures status != "paid" && status != "unpaid" ==> forall k: nat :: k in ids <==> k < |invoices| && (student.None? || invoices[k].student == student.value)
  {
    Choices(invoices, (inv: Invoice) =>
      (student.None? || inv.student == student.value) &&
      (status == "paid" ==> inv.isPaid) && (status == "unpaid" ==> !inv.isPaid))
  }

  /** The numbering rule keeps invoice numbers unique. */
  lemma NumbersUnique(invoices: seq<Invoice>)
    requires forall k :: 0 <= k < |invoices| ==> invoices[k].number == NextInvoiceNumber(LastInvoiceId(k))
    ensures forall i, j :: 0 <= i < j < |invoices| ==> invoices[i].number != invoices[j].number
  {
    forall i, j | 0 <= i < j < |invoices|
      ensures invoices[i].number != invoices[j].number
    {
      InvoiceNumbersDiffer(i, j);
    }
  }

  // ---------------------------------------------------------------------
  // The tables

  /** The payment form's validation: the invoice must exist and be unpaid
      (the form offers no other), then `clean_amount` must accept the amount
      against the invoice's balance. None when the payment is accepted. */
  function CheckPayment(structures: seq<FeeStructure>, invoices: seq<Invoice>, payments: seq<Payment>, k: nat, amount: int): (r: Option<PaymentError>)
    requires InvoicesValid(structures, invoices)
    ensures k >= |invoices| || invoices[k].isPaid ==> r == Some(InvoiceNotOffered)
    ensures k < |invoices| && !invoices[k].isPaid ==>
      var balance := InvoiceTotal(structures, invoices[k]) - PaidAmount(payments, k);
      (r.Some? <==> amount != 0 && amount > balance) && (r.Some? ==> r.value == AmountRefused(balance))
  {
    if k >= |invoices| || invoices[k].isPaid then Some(InvoiceNotOffered)
    else
      match CleanAmount(Some(InvoiceFigures(InvoiceTotal(structures, invoices[k]), PaidAmount(payments, k))), amount)
      case Err(e) => Some(AmountRefused(e.maxAllowed))
      case Ok(_) => None
  }

  /** A non-zero payment the form accepts never takes an invoice past its
      total (an amount of 0 skips the check). */
  lemma AcceptedPaymentWithinBalance(structures: seq<FeeStructure>, invoices: seq<Invoice>, payments: seq<Payment>, k: nat, amount: int)
    requires InvoicesValid(structures, invoices)
    requires CheckPayment(structures, invoices, payments, k, amount).None?
    ensures k < |invoices| && !invoices[k].isPaid
    ensures amount != 0 ==> PaidAmount(payments + [Payment(k, amount)], k) <= InvoiceTotal(structures, invoices[k])
  {
    PaidAmountAfterPayment(payments, Payment(k, amount), k);
  }

  /** The invoice part of `Ledger.Valid`. */
  predicate InvoicesValid(structures: seq<FeeStructure>, invoices: seq<Invoice>) {
    forall k :: 0 <= k < |invoices| ==>
      invoices[k].structure < |structures| &&
      invoices[k].number == NextInvoiceNumber(LastInvoiceId(k)) &&
      DistinctLineItems(invoices[k].lineItems)
  }

  lemma AppendKeepsInvoicesValid(structures: seq<FeeStructure>, invoices: seq<Invoice>, inv: Invoice)
    requires InvoicesValid(structures, invoices)
    requires inv.structure < |structures| && DistinctLineItems(inv.lineItems)
    requires inv.number == NextInvoiceNumber(LastInvoiceId(|invoices|))
    ensures InvoicesValid(structures, invoices + [inv])
  {
    var r := invoices + [inv];
    forall k | 0 <= k < |r|
      ensures r[k].structure < |structures| && r[k].number == NextInvoiceNumber(LastInvoiceId(k)) && DistinctLineItems(r[k].lineItems)
    {
      if k < |invoices| {
        assert r[k] == invoices[k];
      }
    }
  }

  class Ledger {
    var structures: seq<FeeStructure>
    var invoices: seq<Invoice>
    var payments: seq<Payment>

    /** The constraints of the tables and the numbering rule: invoice `k`
        (database id `k + 1`) is numbered from the id before it. */
    predicate Valid()
      reads this
    {
      UniqueStructures(structures) &&
      (forall s :: 0 <= s < |structures| ==> DistinctFeeItems(structures[s].items)) &&
      InvoicesValid(structures, invoices) &&
      (forall p :: 0 <= p < |payments| ==> payments[p].invoice < |invoices|)
    }

    constructor (structures: seq<FeeStructure>)
      requires UniqueStructures(structures)
      requires forall s :: 0 <= s < |structures| ==> DistinctFeeItems(structures[s].items)
      ensures Valid()
      ensures this.structures == structures && invoices == [] && payments == []
    {
      this.structures := structures;
      invoices := [];
      payments := [];
    }

    /** `InvoiceDetailView`'s balance: the invoice total minus its payments. */
    function Balance(k: nat): (b: int)
      reads this
      requires Valid() && k < |invoices|
      ensures b + PaidAmount(payments, k) == StructureTotal(structures[invoices[k].structure])
    {
      InvoiceTotal(structures, invoices[k]) - PaidAmount(payments, k)
    }

    /** The dashboard's `pending_invoices`. */
    function PendingInvoices(): (n: nat)
      reads this
      ensures n == |PayableInvoices(invoices)|
    {
      PendingCountIsPayableCount(invoices);
      UnpaidCount(invoices)
    }

    /** Creates an invoice numbered after the last one, due in 30 days, with
        one line item per structure item. */
    method AddInvoice(student: nat, structureId: nat, today: int) returns (k: nat)
      requires Valid() && structureId < |structures|
      modifies this
      ensures structures == old(structures) && payments == old(payments)
      ensures Valid()
      ensures k == old(|invoices|)
      ensures invoices == old(invoices) + [InvoiceFor(structures, old(invoices), student, structureId, today)]
    {
      var number := NextInvoiceNumber(LastInvoiceId(|invoices|));
      var items := structures[structureId].items;
      var lines: seq<LineItem> := [];
      var i := 0;
      while i < |items|
        invariant 0 <= i <= |items|
        invariant lines == CopyLineItems(items[..i])
      {
        lines := lines + [LineItem(items[i].feeItem, items[i].amount)];
        i := i + 1;
      }
      assert items[..i] == items;
      CopyKeepsDistinct(items);
      var inv := Invoice(student, structureId, number, today + 30, false, lines);
      assert inv == InvoiceFor(structures, invoices, student, structureId, today);
      assert inv.structure < |structures| && DistinctLineItems(inv.lineItems);
      k := |invoices|;
      AppendKeepsInvoicesValid(structures, invoices, inv);
      invoices := invoices + [inv];
    }

    /** `InvoiceCreateView.form_valid`, behind the form's choice of active
        structures: None when the chosen structure is not offered. */
    method CreateInvoice(student: nat, structureId: nat, today: int) returns (r: Option<nat>)
      requires Valid()
      modifies this
      ensures structures == old(structures) && payments == old(payments)
      ensures Valid()
      ensures r.None? <==> structureId !in ActiveStructures(old(structures))
      ensures r.None? ==> invoices == old(invoices)
      ensures r.Some? ==> r.value == old(|invoices|) && invoices == old(invoices) + [InvoiceFor(structures, old(invoices), student, structureId, today)]
    {
      if structureId >= |structures| || !structures[structureId].isActive {
        return None;
      }
      var k := AddInvoice(student, structureId, today);
      r := Some(k);
    }

    /** `PaymentCreateView` with its form: the invoice must be an unpaid one
        and the amount must pass `clean_amount`; then the payment is saved
        and the invoice is flagged paid by the rule as written (the new
        payment counted twice). Ok(flagged) tells whether the flag was set. */
    method RecordPayment(k: nat, amount: int) returns (r: Result<bool, PaymentError>)
      requires Valid()
      modifies this
      ensures Valid()
      ensures structures == old(structures)
      ensures r.Err? <==> CheckPayment(structures, old(invoices), old(payments), k, amount).Some?
      ensures r.Err? ==> r.error == CheckPayment(structures, old(invoices), old(payments), k, amount).value
      ensures r.Err? ==> invoices == old(invoices) && payments == old(payments)
      ensures r.Ok? ==> k < old(|invoices|) && payments == old(payments) + [Payment(k, amount)]
      ensures r.Ok? ==> r.value == PaidFlagAsWritten(InvoiceTotal(structures, old(invoices[k])), PaidAmount(old(payments), k), amount)
      ensures r.Ok? ==> invoices == (if r.value then old(invoices)[k := old(invoices[k]).(isPaid := true)] else old(invoices))
    {
      var refused := CheckPayment(structures, invoices, payments, k, amount);
      if refused.Some? {
        return Err(refused.value);
      }
      var total := InvoiceTotal(structures, invoices[k]);
      PaidAmountAfterPayment(payments, Payment(k, amount), k);
      payments := payments + [Payment(k, amount)];
      var totalPaid := PaidAmount(payments, k) + amount;
      var flagged := totalPaid >= total;
      if flagged {
        invoices := invoices[k := invoices[k].(isPaid := true)];
      }
      r := Ok(flagged);
    }

    /** The payment view as intended: the same checks and the same saved
        payment, but the invoice is flagged paid exactly when its payments,
        the new one counted once, reach its total, which is when the admin
        shows it as Fully Paid. */
    method RecordPaymentAsIntended(k: nat, amount: int) returns (r: Result<bool, PaymentError>)
      requires Valid()
      modifies this
      ensures Valid()
      ensures structures == old(structures)
      ensures r.Err? <==> CheckPayment(structures, old(invoices), old(payments), k, amount).Some?
      ensures r.Err? ==> r.error == CheckPayment(structures, old(invoices), old(payments), k, amount).value
      ensures r.Err? ==> invoices == old(invoices) && payments == old(payments)
      ensures r.Ok? ==> k < old(|invoices|) && payments == old(payments) + [Payment(k, amount)]
      ensures r.Ok? ==> r.value == PaidFlagCorrected(InvoiceTotal(structures, old(invoices[k])), PaidAmount(old(payments), k), amount)
      ensures r.Ok? ==> k < |invoices| && (r.value <==> PaymentStatusOf(InvoiceTotal(structures, invoices[k]), PaidAmount(payments, k)) == FullyPaid)
      ensures r.Ok? ==> invoices == (if r.value then old(invoices)[k := old(invoices[k]).(isPaid := true)] else old(invoices))
    {
      var refused := CheckPayment(structures, invoices, payments, k, amount);
      if refused.Some? {
        return Err(refused.value);
      }
      var total := InvoiceTotal(structures, invoices[k]);
      PaidAmountAfterPayment(payments, Payment(k, amount), k);
      payments := payments + [Payment(k, amount)];
      var flagged := PaidAmount(payments, k) >= total;
      if flagged {
        invoices := invoices[k := invoices[k].(isPaid := true)];
      }
      r := Ok(flagged);
    }

    /** `generate_term_invoices` on POST: for each student, an invoice on the
        applicable structure unless they already have one; returns the count
        reported in the message. */
    method GenerateTermInvoices(term: nat, students: seq<StudentRef>, today: int) returns (created: nat)
      requires Valid()
      modifies this
      ensures Valid()
      ensures invoices == Generate(structures, old(invoices), students, term, today)
      ensures created == |invoices| - old(|invoices|)
      ensures structures == old(structures) && payments == old(payments)
    {
      ghost var start := invoices;
      created := 0;
      var i := 0;
      while i < |students|
        invariant 0 <= i <= |students|
        invariant Valid()
        invariant structures == old(structures) && payments == old(payments)
        invariant invoices == Generate(structures, start, students[..i], term, today)
        invariant |start| <= |invoices| && created == |invoices| - |start|
      {
        assert students[..i + 1][..i] == students[..i];
        var s := students[i];
        var structure := ApplicableStructure(structures, s.currentClass, term);
        if structure.Some? && !HasInvoiceFor(invoices, s.id, structure.value) {
          var _ := AddInvoice(s.id, structure.value, today);
          created := created + 1;
        }
        i := i + 1;
      }
      assert students[..i] == students;
    }

    /** `mark_as_paid` (value true) and `mark_as_unpaid` (value false) on the selected invoices. */
    method SetPaid(selected: set<nat>, value: bool)
      requires Valid()
      modifies this
      ensures Valid()
      ensures invoices == MarkPaid(old(invoices), selected, value)
      ensures structures == old(structures) && payments == old(payments)
    {
      var before := invoices;
      invoices := seq(|before|, k requires 0 <= k < |before| => if k in selected then before[k].(isPaid := value) else before[k]);
    }

    /** `fee_structure_report(term)` over the classes in `classIds`. */
    method FeeStructureReport(term: Option<nat>, classIds: seq<nat>) returns (rows: seq<ClassTotal>)
      ensures rows == ReportRows(structures, term, classIds)
    {
      rows := [];
      if term.None? {
        return;
      }
      var i := 0;
      while i < |classIds|
        invariant 0 <= i <= |classIds|
        invariant rows == ReportRows(structures, term, classIds[..i])
      {
        assert classIds[..i + 1][..i] == classIds[..i];
        var structure := StructureForClass(structures, classIds[i], term.value);
        if structure.Some? {
          rows := rows + [ClassTotal(classIds[i], StructureTotal(structures[structure.value]), structure.value)];
        }
        i := i + 1;
      }
      assert classIds[..i] == classIds;
    }
  }
}
