# School management core in Dafny

This project models the deterministic rules inside a Django school-management
application and proves properties about them. It covers:

- **Grading.** The grade engine weighs exam results per subject. It computes
  final scores, term averages and the raw-score statistics. It maps scores to
  grades (A+ to F), remarks and badge colours. It also assembles the rows of
  the term report card and the comparison with the class average.
- **Fees and payments.**
  - Fee structures and their totals.
  - Invoice creation and numbering (`INV` plus a five-digit id).
  - Bulk per-term invoice generation.
  - The payment form's balance check.
  - Recording a payment and setting the invoice's paid flag.
  - The admin's paid, balance and status columns.
  - The bulk paid/unpaid actions, and the finance template filters.
- **Sessions and terms.** The "at most one current session or term" rule,
  which both the admin and the creation views maintain when they save a row.
  Also the generated session choices and the term's display text.
- **Classes.** `full_name`, `display_code`, the uniqueness constraints on
  classes, class subjects, results and report comments. Also the admin action
  that duplicates arm-less classes into Alpha and Beta arms.
- **Accounts.** Lookup by username or email, the approval rule, the role-based
  redirect after login, `is_admin` and bulk approval.
- **Student records.** Attendance rate and status. The BMI rule on saving a
  health record and the BMI status. The behaviour score and performance band.
  The behaviour and multiply template filters.
- **Events.** Event status, duration text, date range and the publish actions.

Conventions:

- Scores, rates, averages and body measurements are exact `real`s.
- Money is an `int` number of minor units; every amount in the source is a
  `Decimal(10, 2)`.
- Dates are day numbers. Instants are whole seconds, and the current time is a
  parameter.
- Tables are sequences, and a row's id is its index. Rows are never deleted (see "## Left out").
- Objects whose fields the source updates in place are classes with `modifies`
  clauses: `Ledger`, `CurrentTable`, `ClassRegistry`, `UserDirectory`,
  `HealthRecord` and `EventBoard`.
- Loops that build dictionaries or rows are methods with invariants. Each is
  proved against a recursive specification function.

Some inputs are not defined in the source, so the model takes them as data or
function parameters:

- `ExamType` (`academics/models.py:63-68`) has no `max_score`, yet the student
  views divide by `result.exam_type.max_score`. The model gives each result its
  own maximum score. A zero maximum is the `ZeroDivisionError` the views catch
  with `except Exception`, so the whole list comes back empty.
- The report card's class averages come from the same missing field:
  `academics/utils.py:61-69` annotates with `F('exam_type__max_score')`, which
  raises a `FieldError` before any row is built. `ReportCard` is given the class
  averages as data.
- `TermReport.get_subject_results`, `calculate_subject_grade`,
  `SubjectGrade.calculate_grade` and `result.weighted_score` are used but never
  defined. They enter as data and as the `gradeOf` function.
- `term.session.student_set` is not defined either: term invoice generation is
  given the students.
- Password hashing is the `checkPassword` parameter. `strftime` is a function
  parameter of the date-range text.

## Model

| member | source | states |
|---|---|---|
| Grading.GradeBands | school_management/students/views.py:54-63 | grade is A+ iff score ≥ 90, A iff 80 ≤ score < 90, B, C, D likewise, F iff score < 50 (inclusive lower bounds) |
| Grading.GradeOfInput | school_management/students/views.py:54-65 | input that is not a number gives F; a number gives the threshold grade |
| Grading.GradeMonotone | school_management/academics/utils.py:197-203 | a higher score never gets a lower grade |
| Grading.RemarkMatchesGrade | school_management/academics/utils.py:205-211 | the remark table has the same bands as the grade table: A+ Excellent … F Poor |
| Grading.BadgeMatchesGrade | school_management/academics/admin.py:253-278 | the admin badge shows the same grade as the grade table, and it is green exactly for A+ and A |
| StudentResults.SubjectOrderMembers | school_management/students/views.py:227-236 | the subjects grouped for a term are exactly those with a result in that term, each once |
| StudentResults.UnseenSubjectIsEmpty | school_management/students/views.py:229-236 | a subject with no result in the term has the empty tally |
| StudentResults.UnseenTermHasNoSubjects | school_management/students/views.py:112-122 | a term with no result has no subject group |
| StudentResults.ContributionBounds | school_management/students/views.py:239 | a score between 0 and its maximum contributes between 0 and its weight |
| StudentResults.TallyBounds | school_management/students/views.py:238-241 | with scores in range, 0 ≤ weighted_total ≤ total_weight |
| StudentResults.FinalScoreOutOfHundred | school_management/students/views.py:246-249 | with scores in range and weights summing to 100, the final score lies in [0, 100] ("already out of 100") |
| StudentResults.SummaryStatsOrdered | school_management/students/views.py:255-257 | lowest ≤ average ≤ highest raw score, and all three are 0 without scores |
| StudentResults.RawScoresOfSubject | school_management/students/views.py:243 | the raw scores are that subject's results' scores in result order |
| StudentResults.PositiveWeightFinalsBounded | school_management/students/views.py:137-141 | the finals averaged for a term are those of positive weight and stay in [0, 100] when each subject's does |
| StudentResults.TermAverageOutOfHundred | school_management/students/views.py:135-142 | the term average (mean of positive-weight finals, 0 without any) lies in [0, 100] |
| StudentResults.GroupTermResults | school_management/students/views.py:227-243 | the grouping loop succeeds iff no max score is zero, and then yields each subject's order and tally |
| StudentResults.CurrentTermSubjects | school_management/students/views.py:215-261 | no current term, or a caught error, gives []; otherwise one summary per subject in first-seen order |
| StudentResults.TermReportSubjects | school_management/students/views.py:449-527 | no current term is the 404 (None); otherwise the report lines, each with has_all_results iff weight ≥ 100 |
| StudentResults.GroupAllResults | school_management/students/views.py:111-132 | the per-term, per-subject grouping loop yields the terms, their subjects and tallies of the specification |
| StudentResults.AverageOfTerm | school_management/students/views.py:136-142 | the loop's term average is the mean of the positive-weight finals |
| StudentResults.AcademicHistory | school_management/students/views.py:105-151 | one average per term in first-seen order, or [] when the exception is caught |
| ReportCard.CalculateFinalGrade | school_management/academics/utils.py:215-233 | no results gives (0, F); otherwise score × total weight = weighted sum × 100, or 0 when the weights sum to 0; the grade is that of the score |
| ReportCard.WeightedSumBounds | school_management/academics/utils.py:221-222 | weighted scores between 0 and their weights sum to between 0 and the total weight |
| ReportCard.FinalScoreInRange | school_management/academics/utils.py:221-228 | with each weighted score between 0 and its weight, the final score lies in [0, 100] |
| ReportCard.RescalingAgreesAtHundred | school_management/academics/utils.py:226 | with weights summing to 100 the rescaled score equals the raw weighted sum used by the views |
| ReportCard.FirstScoreNamed | school_management/academics/utils.py:78-79 | the CA or exam score is that of the first entry whose lower-cased name matches, None iff none does |
| ReportCard.ClassAverageFor | school_management/academics/utils.py:81-83 | the class average is the first matching subject's average, 0 when none matches |
| ReportCard.Difference | school_management/academics/utils.py:84 | the difference is 0 when the class average is 0, and otherwise difference + class average = total |
| ReportCard.AssembleRows | school_management/academics/utils.py:71-110 | one row per subject in order, and an OVERALL row only when there is a subject, holding the mean of the totals with its grade and remark |
| ReportCard.OverallAverageInRange | school_management/academics/utils.py:96-100 | with totals in [0, 100] the overall average lies in [0, 100] |
| ReportCard.IndicatorOf | school_management/academics/utils.py:153-161 | Above iff difference > 0, Below iff < 0, At iff = 0 |
| ReportCard.PerformanceSummary | school_management/academics/utils.py:135-161 | a summary exists iff there are results; the class average defaults to 0; the indicator compares the student's average with it |
| Academics.NewClass | school_management/academics/models.py:22 | a new class's arm is "Alpha", one of the arm choices |
| Academics.FullName | school_management/academics/models.py:33-38 | the name, followed by " " and the arm exactly when the arm is non-empty |
| Academics.StrIsFullName | school_management/academics/models.py:28-31 | `__str__` equals `full_name` |
| Academics.DisplayCode | school_management/academics/models.py:40-45 | the short name, followed by the arm's first letter exactly when there is an arm |
| Academics.ArmsDistinguished | school_management/academics/models.py:33-45 | different arms give different full names; display codes differ iff the arms' first letters do |
| Academics.CreateClass | school_management/academics/models.py:25 | refused iff another class has the same level and (non-NULL) arm; otherwise appended, uniqueness kept |
| Academics.CreateClassSubject | school_management/academics/models.py:57-58 | refused iff the class already has the subject; otherwise appended, uniqueness kept |
| Academics.CreateResult | school_management/academics/models.py:95-96 | refused iff a result exists for (student, subject, exam type, term); otherwise appended, uniqueness kept |
| Academics.CreateComment | school_management/academics/models.py:119-120 | refused iff the report has a comment of that type; otherwise appended, uniqueness kept |
| AcademicsAdmin.ReportStatusOf | school_management/academics/admin.py:201-218 | No Results iff no results, Incomplete iff results but no comments, Complete otherwise, each with its colour |
| AcademicsAdmin.AverageScoreShown | school_management/academics/admin.py:194-198 | "N/A" (None) iff there are no scores or the average is 0; otherwise the average |
| AcademicsAdmin.CommentPreview | school_management/academics/admin.py:315-316 | the comment when at most 50 characters, else its first 50 and "..." |
| AcademicsAdmin.TextPreview | school_management/academics/admin.py:332-333 | the text when at most 100 characters, else its first 100 and "..." |
| AcademicsAdmin.DuplicateCount | school_management/academics/admin.py:69-87 | without an integrity error the count is twice the number of selected arm-less classes, and that many classes are added |
| AcademicsAdmin.ArmlessYieldsAlphaAndBeta | school_management/academics/admin.py:71-86 | an arm-less class yields an Alpha and a Beta copy with its name, short name and level, count 2 |
| AcademicsAdmin.SubjectsOfFacts | school_management/academics/admin.py:80-85 | the subjects copied are the class's own, each once |
| AcademicsAdmin.CopyKeepsValid | school_management/academics/admin.py:76-85 | adding a class and its retargeted subjects keeps both uniqueness constraints |
| AcademicsAdmin.DuplicateStops | school_management/academics/admin.py:67-89 | after an integrity error no later selected class is processed |
| AcademicsAdmin.ClassRegistry.CreateArmCopy | school_management/academics/admin.py:74-85 | creates one arm copy and copies the subjects in a loop, or changes nothing when the class clashes |
| AcademicsAdmin.ClassRegistry.DuplicateClassStructure | school_management/academics/admin.py:67-89 | the tables become those of the specification; the count is returned, or the error when one was raised |
| FinanceModels.StructureTotalGrows | school_management/finance/models.py:48-50 | a structure without items totals 0, and each item adds its amount |
| FinanceModels.InvoiceTotalIgnoresLineItems | school_management/finance/models.py:80-82 | an invoice's total is its structure's current total whatever its line items |
| FinanceModels.CopyLineItems | school_management/finance/views.py:184-190 | one line item per structure item, same fee item and amount |
| FinanceModels.CopiedLinesSumToTotal | school_management/finance/views.py:184-190 | the copied line items sum to the structure total |
| FinanceModels.NextInvoiceNumber | school_management/finance/views.py:174-176 | "INV" followed by digits, at least 8 characters |
| FinanceModels.InvoiceNumberOfId | school_management/finance/views.py:174-176 | the number is "INV" and (last id + 1) zero-padded to 5, "INV00001" without invoices |
| FinanceModels.InvoiceNumbersDiffer | school_management/finance/models.py:68 | different ids give different invoice numbers |
| FinanceModels.NewInvoice | school_management/finance/models.py:72 | a new invoice is unpaid and its lines sum to the items' total |
| FinanceModels.PaidAmountAfterPayment | school_management/finance/admin.py:172-174 | a payment adds its amount to its own invoice's paid amount only |
| FinanceModels.UnpaidCountBounds | school_management/core/views.py:57 | the pending count is at most the number of invoices, and 0 iff all are paid |
| FinanceModels.CreateFeeStructure | school_management/finance/models.py:41-42 | refused iff the class already has a structure for the term; otherwise appended, uniqueness kept |
| FinanceModels.CopyKeepsDistinct | school_management/finance/models.py:58-59 | line items copied from a structure without repeated fee items repeat none |
| FinanceForms.CleanAmount | school_management/finance/forms.py:67-80 | refused iff there is an invoice, the amount is non-zero and exceeds the balance, reporting the balance; an accepted amount is unchanged |
| FinanceForms.AcceptedPaymentsStayWithinTotal | school_management/finance/forms.py:67-80 | payments each accepted in turn never sum past a non-negative total |
| FinanceForms.Choices | school_management/finance/forms.py:31-65 | an id is offered iff its row passes the filter |
| FinanceForms.PayableInvoices | school_management/finance/forms.py:62-65 | payments can target exactly the unpaid invoices |
| FinanceForms.ActiveStructures | school_management/finance/forms.py:49-51 | invoices can use exactly the active structures |
| FinanceForms.CurrentTerms | school_management/finance/forms.py:31-33 | structures can use exactly the current terms |
| FinanceForms.PendingCountIsPayableCount | school_management/core/views.py:57 | the dashboard's pending count equals the number of invoices a payment can target |
| FinanceAdmin.Balance | school_management/finance/admin.py:183-186 | balance + paid = total |
| FinanceAdmin.BalanceColour | school_management/finance/admin.py:189-198 | green iff nothing is left to pay, red otherwise |
| FinanceAdmin.PaymentStatusOf | school_management/finance/admin.py:201-219 | Fully Paid iff balance ≤ 0, Partially Paid iff balance > 0 and paid > 0, Unpaid otherwise |
| FinanceAdmin.BalanceColourMatchesStatus | school_management/finance/admin.py:189-219 | the balance is green exactly when the status is Fully Paid |
| FinanceAdmin.StatusAfterPayments | school_management/finance/admin.py:201-219 | an invoice with a positive total and no payments is Unpaid; paying exactly the balance makes it Fully Paid |
| FinanceAdmin.NoPaymentsPaidNothing | school_management/finance/admin.py:172-174 | with no payment for the invoice the paid amount is 0 |
| FinanceTags.IsOverdue | school_management/finance/templatetags/finance_tags.py:6-8 | overdue iff the due date is strictly before today |
| FinanceTags.DueTodayIsNotOverdue | school_management/finance/templatetags/finance_tags.py:6-8 | an invoice due today is not overdue, one due yesterday is |
| FinanceTags.SumAmount | school_management/finance/templatetags/finance_tags.py:10-19 | the sum of the amounts, 0 for none, and 0 when an item has no amount |
| FinanceTags.SumAmountAppend | school_management/finance/templatetags/finance_tags.py:16-17 | one more payment adds its amount |
| FinanceTags.Subtract | school_management/finance/templatetags/finance_tags.py:22-31 | result + arg = value when both are numbers, 0 otherwise |
| FinanceLedger.ApplicableStructure | school_management/finance/views.py:281-285 | the first active structure of the student's class and the term, None iff there is none |
| FinanceLedger.ApplicableStructureIsUnique | school_management/finance/models.py:41-42 | with (class, term) unique, the applicable structure is the only match |
| FinanceLedger.GenerateExtends | school_management/finance/views.py:279-310 | generation only appends invoices |
| FinanceLedger.GenerateCovers | school_management/finance/views.py:279-310 | afterwards every listed student with an applicable structure has an invoice for it, whatever invoices existed before |
| FinanceLedger.GenerateKeepsOnePerPair | school_management/finance/views.py:287-299 | generation never adds a second invoice for a (student, structure) pair, so a table without duplicates stays without them |
| FinanceLedger.GenerateNoOp | school_management/finance/views.py:287-290 | when every listed student already has the invoice, nothing is created |
| FinanceLedger.GenerateIdempotent | school_management/finance/views.py:287-290 | a second run of the generation creates no invoice, for any invoice table, including one with duplicates |
| FinanceLedger.PaidFlagCorrected | school_management/finance/views.py:233-239 | the intended flag is set iff the admin status is Fully Paid |
| FinanceLedger.PaymentCountedTwice | school_management/finance/views.py:233-239 | as written, a 50.00 payment marks a 100.00 invoice paid while its status is Partially Paid |
| FinanceLedger.AsWrittenFlagIsWeaker | school_management/finance/views.py:233-237 | the written flag holds whenever the intended one does, and exactly when the payment covers half the balance |
| FinanceLedger.MarkPaid | school_management/finance/admin.py:258-264 | exactly the selected invoices get the new flag; nothing else changes |
| FinanceLedger.StructureForClass | school_management/finance/views.py:256 | the first structure of the class for the term, active or not, None iff none |
| FinanceLedger.ReportRowsShowTotals | school_management/finance/views.py:247-262 | no term gives no rows; each row names a class, its structure for the term and that structure's total |
| FinanceLedger.ListInvoices | school_management/finance/views.py:149-164 | the student filter when given; 'paid' keeps exactly the paid invoices, 'unpaid' exactly the unpaid ones, any other status all |
| FinanceLedger.NumbersUnique | school_management/finance/models.py:68 | invoices numbered by the rule have pairwise different numbers |
| FinanceLedger.CheckPayment | school_management/finance/forms.py:62-80 | refused when the invoice is missing or paid; otherwise refused iff the amount is non-zero and above the balance |
| FinanceLedger.AcceptedPaymentWithinBalance | school_management/finance/forms.py:71-78 | an accepted non-zero payment leaves the paid amount within the total |
| FinanceLedger.Ledger.Balance | school_management/finance/views.py:205-207 | the detail view's balance plus the payments equals the invoice total |
| FinanceLedger.Ledger.PendingInvoices | school_management/core/views.py:57 | the pending count equals the number of payable invoices |
| FinanceLedger.Ledger.AddInvoice | school_management/finance/views.py:292-308 | appends an unpaid invoice numbered after the last, due in 30 days, with the structure's line items, keeping the tables valid |
| FinanceLedger.Ledger.CreateInvoice | school_management/finance/views.py:171-192 | None iff the structure is not among the active ones offered; otherwise the invoice is appended |
| FinanceLedger.Ledger.RecordPayment | school_management/finance/views.py:223-241 | refused as the form refuses; otherwise the payment is saved and the paid flag set by the rule as written, never cleared |
| FinanceLedger.Ledger.RecordPaymentAsIntended | school_management/finance/views.py:223-241 | as above, but the flag is set iff the payments reach the total, i.e. the status is Fully Paid |
| FinanceLedger.Ledger.GenerateTermInvoices | school_management/finance/views.py:271-313 | the invoices become those of the specification, and the returned count is the number created |
| FinanceLedger.Ledger.SetPaid | school_management/finance/admin.py:258-264 | the invoices become the bulk update of the selected ones |
| FinanceLedger.Ledger.FeeStructureReport | school_management/finance/views.py:247-262 | the loop yields the report rows of the specification |
| Calendar.NewRow | school_management/core/models.py:29 | a new session or term is not current |
| Calendar.SessionChoices | school_management/core/models.py:4 | 56 entries, each value equal to its label "x/x+1" for x = 2014 + index |
| Calendar.SessionChoicesRange | school_management/core/models.py:4 | the list runs from "2014/2015" to "2069/2070" |
| Calendar.SessionLabelsReadBack | school_management/core/models.py:4 | each label reads back as two consecutive four-digit years around a slash |
| Calendar.SessionChoicesDistinct | school_management/core/models.py:4 | no label appears twice |
| Calendar.TermStr | school_management/core/models.py:41-42 | the term's name, " - ", and the session's name |
| Calendar.AdminSaveKeepsOneCurrent | school_management/core/admin.py:43-47 | saving a current row clears every other flag; a non-current save changes no other row; at most one current is kept |
| Calendar.ViewCreateKeepsOneCurrent | school_management/core/views.py:85-88 | creating a current row clears all earlier flags; at most one current is kept |
| Calendar.CurrentTable.SaveFromAdmin | school_management/core/admin.py:58-62 | the table becomes the admin save of the row and stays valid |
| Calendar.CurrentTable.CreateFromView | school_management/core/views.py:106-109 | the table becomes the view's creation of the row and stays valid |
| Calendar.CurrentTable.Current | school_management/core/views.py:51 | a current row, None iff there is none |
| Calendar.FirstCurrent | school_management/core/views.py:51 | the first current row, None iff there is none |
| Accounts.Matching | school_management/core/backends.py:9-12 | exactly the users whose username or email equals the login, in order |
| Accounts.Authenticate | school_management/core/backends.py:6-16 | no match gives None; several raise; one match is returned iff its password checks and it may authenticate |
| Accounts.RefusedIffCannotAuthenticate | school_management/core/backends.py:18-20 | the login view refuses exactly the users the backend may not authenticate |
| Accounts.AuthenticatedUserIsNotRefused | school_management/core/views.py:20-25 | a user the backend returns is never sent back as pending approval |
| Accounts.UnapprovedUserIsNeverAuthenticated | school_management/core/backends.py:13-14 | an unapproved non-superuser is never returned |
| Accounts.RedirectAfterLogin | school_management/core/views.py:27-36 | student, teacher and parent go to their dashboards, any other type to the dashboard |
| Accounts.IsAdmin | school_management/core/views.py:77-78 | true iff the visitor is logged in with type "admin" |
| Accounts.Approve | school_management/core/admin.py:31-32 | exactly the selected users become approved; nothing else changes |
| Accounts.ApprovalOnlyAdmits | school_management/core/admin.py:31-32 | every selected user can then log in, and no one is locked out |
| Accounts.UserDirectory.ApproveUsers | school_management/core/admin.py:31-32 | the users become the approval of the selected ones |
| StudentRecords.NewAttendance | school_management/students/models.py:90-91 | new records count 0 days and have rate 0 |
| StudentRecords.AttendanceRate | school_management/students/models.py:96-99 | rate × total days = 100 × days present, 0 without days, always in [0, 100] |
| StudentRecords.AttendanceRateExtremes | school_management/students/models.py:96-99 | no absences gives 100, no presence gives 0 |
| StudentRecords.AttendanceStatusOf | school_management/students/admin.py:189-209 | Excellent iff ≥ 95, Good iff 85 ≤ rate < 95, Fair iff 75 ≤ rate < 85, Poor below |
| StudentRecords.AttendanceStatusMonotone | school_management/students/admin.py:192-203 | a higher rate never gets a lower status |
| StudentRecords.MorePresenceNeverLowersStatus | school_management/students/models.py:96-99 | one more day present never lowers the status |
| StudentRecords.CreateAttendance | school_management/students/models.py:93-94 | refused iff the student has a record for the term; otherwise appended, uniqueness kept |
| StudentRecords.BmiOf | school_management/students/models.py:45 | BMI × (height in metres)² = weight |
| StudentRecords.SavedBmi | school_management/students/models.py:42-46 | recomputed when height and weight are non-zero, kept otherwise |
| StudentRecords.HealthRecord.Save | school_management/students/models.py:42-46 | the BMI becomes the saved one; the row is stored iff it has a BMI |
| StudentRecords.SaveIsIdempotent | school_management/students/models.py:42-46 | with height and weight set, a save always yields a BMI and a second save changes nothing |
| StudentRecords.BmiStatus | school_management/students/admin.py:92-112 | N/A iff no BMI; Underweight < 18.5 ≤ Normal < 25 ≤ Overweight < 30 ≤ Obese |
| StudentRecords.BmiStatusMonotone | school_management/students/admin.py:95-106 | a higher BMI never gets a lower band |
| StudentRecords.RatingsAreOneToFive | school_management/students/models.py:52-58 | the rating choices are exactly 1 to 5 |
| StudentRecords.OverallScore | school_management/students/admin.py:133-137 | 4 × score = the sum of the four ratings |
| StudentRecords.OverallScoreBounds | school_management/students/admin.py:133-137 | with valid ratings the score lies in [1, 5] |
| StudentRecords.PerformanceBand | school_management/students/admin.py:139-163 | Excellent ≥ 4.5, Good ≥ 3.5, Satisfactory ≥ 2.5, Developing ≥ 1.5, else Needs Improvement |
| StudentRecords.PerformanceBandMonotone | school_management/students/admin.py:143-157 | a higher average never gets a lower band |
| StudentRecords.PerformanceBandExtremes | school_management/students/admin.py:139-157 | all fives is Excellent, all ones Needs Improvement |
| StudentRecords.BehaviorAverage | school_management/students/templatetags/student_tags.py:18-24 | 0 without an assessment, otherwise the admin's overall score |
| StudentRecords.BehaviorAverageBounds | school_management/students/templatetags/student_tags.py:21-24 | with valid ratings the average lies in [1, 5] |
| StudentRecords.CreateBehaviour | school_management/students/models.py:83-84 | refused iff the student has an assessment for the term; otherwise appended, uniqueness kept |
| StudentRecords.Multiply | school_management/students/templatetags/student_tags.py:10-16 | the product of two numbers, 0 when either is not a number |
| Events.NewEvent | school_management/events/models.py:10 | a new event is unpublished |
| Events.StatusOf | school_management/events/admin.py:44-64 | Completed iff end < now, Ongoing iff start ≤ now ≤ end, Upcoming otherwise; Scheduled never |
| Events.StatusAdvances | school_management/events/admin.py:47-55 | as time passes a well-formed event never returns to Upcoming or leaves Completed |
| Events.DurationOf | school_management/events/admin.py:67-71 | hours < 24, minutes < 60, and days, hours and minutes add up to the duration within a minute |
| Events.DurationOfShortEvent | school_management/events/admin.py:69-71 | under a day the day count is 0 and hours and minutes are the whole minutes |
| Events.DurationText | school_management/events/admin.py:73-81 | ends with the minutes; starts with the days when there are any, else with the hours when there are any; no hours part without hours |
| Events.BackwardEventShowsAlmostADay | school_management/events/admin.py:67-81 | an event ending one second before its start is shown as "23h 59m" |
| Events.DateRangeOf | school_management/events/admin.py:30-41 | a same-day range iff start and end fall on one day, with both times of that day; else both instants |
| Events.ShortEventOnOneDay | school_management/events/admin.py:35 | an event ending before midnight of its start day is shown on one day |
| Events.DateRangeText | school_management/events/admin.py:30-41 | the date once with "(start - end)" times on one day, else "start to end" |
| Events.Publish | school_management/events/admin.py:89-95 | exactly the selected events get the new flag; nothing else changes |
| Events.PublishThenUnpublish | school_management/events/admin.py:89-95 | publishing then unpublishing leaves the selection unpublished and the rest unchanged |
| Events.EventBoard.SetPublished | school_management/events/admin.py:89-95 | the events become the bulk update of the selected ones |
| Text.PaddedNumberRoundTrip | school_management/finance/views.py:175 | the zero-padded number is digits that read back as the number |
| Text.Preview | school_management/academics/admin.py:315-316 | short text is unchanged; long text keeps its first characters and gains "..." |

## Left out

- The PDF drawing in `academics/utils.py` and the xhtml2pdf views: only the row and average assembly is modelled.
- `payment_service.py` is an HTTP client. It is not part of this model.
- Number and date formatting: `"{:.1f}"`, `"{:+.1f}"`, `"{:,.2f}"`, `format_html` and `strftime`. The model works on the values; `strftime` is a parameter.
- `safe_decimal_value`'s NaN and infinity handling, and float rounding. Scores are exact reals.
- StudentRecords.BmiOf: does not round the BMI to the column's one decimal place, nor refuse a BMI of four or more digits.
- Decimal `max_digits` limits on money and measurements: amounts are unbounded integers.
- Concurrency: the "last id + 1" numbering race and `transaction.atomic` rollback. The model is sequential, and an integrity error in class duplication keeps the rows already created.
- The permission checks of `student_term_report` and the dashboard, the term report's `get_or_create` and the PDF download branch. They depend on request users and managers not defined in the model.
- The dashboard's class-average block and its other counters (students, teachers, events, recent payments).
- `clean_health_records.py`, the URL tables, the form field lists, `get_item` and `get_attr`, and the staff and parents admin and models.
- Sub-second parts of instants and time zones: `.date()` is taken in UTC.
- ReportCard.FirstScoreNamed: lower-cases ASCII letters only, where Python's `lower()` also folds other alphabets.
- Events.DurationText: states the prefix and suffix of each of the four formats rather than the whole string.
- FinanceLedger.Ledger.AddInvoice: the due date is the day number plus 30. The source adds 30 days to the current instant and stores the date.
- FinanceForms.Choices: offers the ids in table order. The querysets follow the models' `Meta` ordering, which is not modelled: `-issue_date` for invoices, and term start date then class level for fee structures.
- FinanceLedger.Ledger: rows are never deleted, and invoice numbers are never edited. The admin's delete action and its editable `invoice_number` field (`finance/admin.py:141` leaves it writable) are not modelled. So `InvoicesValid`, unique numbers in numbering order, holds only for invoices created through the modelled views.
- FinanceModels.InvoiceNumberOfId: takes the last invoice id to be the invoice count. After an invoice is deleted in the admin, the source's "last id + 1" is larger than the count + 1 used here.
- FinanceLedger.ListInvoices: the student filter takes a student id. A non-numeric `student_id` parameter, which makes the source's filter raise `ValueError`, is not modelled. Nor is the list's pagination.
- Accounts.Authenticate: the `MultipleObjectsReturned` exception, which escapes the backend, is an outcome value. What the login page does with it is not modelled.

## Findings

| source | as written | input that shows it | evidently intended | confidence | as-written member | corrected member |
|---|---|---|---|---|---|---|
| school_management/finance/views.py:233-239 | the payment is saved first, so `payment_set` already holds it, and its amount is then added again before comparing with the total | an invoice of 100.00 with no payments and one payment of 50.00: the view sees 100.00 paid and sets `is_paid`, while the admin shows a balance of 50.00 and "Partially Paid" | set `is_paid` when the payments, each counted once, reach the invoice total | not executed | FinanceLedger.PaymentCountedTwice | FinanceLedger.Ledger.RecordPaymentAsIntended |
