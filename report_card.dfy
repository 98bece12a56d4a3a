/** The computations behind the PDF term report: `calculate_final_grade`,
    which rescales a subject's weighted scores to a score out of 100, the loop
    that assembles the results table (one row per subject and an OVERALL row),
    and the performance summary that compares the student's average with the
    class average. Drawing the table is not part of this model.

    `get_subject_results`, the grade it reports for each subject,
    `calculate_subject_grade` and `SubjectGrade.calculate_grade` are used by
    the source but defined nowhere in it; they come in as data and as the
    function parameter `gradeOf`. */
module ReportCard {
  import opened Wrappers
  import opened Sums
  import opened Text
  import opened Grading

  /** A result as `calculate_final_grade` reads it: `weighted_score` and the exam type's weight. */
  datatype WeightedScore = WeightedScore(weightedScore: real, weight: nat)

  function WeightedSum(rs: seq<WeightedScore>): real {
    if rs == [] then 0.0 else WeightedSum(rs[..|rs| - 1]) + rs[|rs| - 1].weightedScore
  }

  function WeightSum(rs: seq<WeightedScore>): nat {
    if rs == [] then 0 else WeightSum(rs[..|rs| - 1]) + rs[|rs| - 1].weight
  }

  /** `calculate_final_grade(subject_grade)`: (0, 'F') without results;
      otherwise the weighted scores over the weights, times 100 (0 when the
      weights add up to 0), and the grade `gradeOf` gives that score. */
  function CalculateFinalGrade(rs: seq<WeightedScore>, gradeOf: real -> string): (r: (real, string))
    ensures rs == [] ==> r == (0.0, "F")
    ensures rs != [] && WeightSum(rs) > 0 ==> r.0 * WeightSum(rs) as real == WeightedSum(rs) * 100.0
    ensures rs != [] && WeightSum(rs) == 0 ==> r.0 == 0.0
    ensures rs != [] ==> r.1 == gradeOf(r.0)
  {
    if rs == [] then (0.0, "F")
    else
      var total := WeightSum(rs);
      var score := if total > 0 then WeightedSum(rs) / total as real * 100.0 else 0.0;
      (score, gradeOf(score))
  }

  predicate WeightedScoresInRange(rs: seq<WeightedScore>) {
    forall i :: 0 <= i < |rs| ==> 0.0 <= rs[i].weightedScore <= rs[i].weight as real
  }

  lemma {:induction false} WeightedSumBounds(rs: seq<WeightedScore>)
    requires WeightedScoresInRange(rs)
    ensures 0.0 <= WeightedSum(rs) <= WeightSum(rs) as real
  {
    if rs != [] {
      var init := rs[..|rs| - 1];
      assert forall i :: 0 <= i < |init| ==> init[i] == rs[i];
      WeightedSumBounds(init);
    }
  }

  lemma RatioAtMostOne(part: real, whole: real)
    requires 0.0 <= part <= whole && whole > 0.0
    ensures 0.0 <= part / whole <= 1.0
  {
    var q := part / whole;
    assert q * whole == part;
    assert (1.0 - q) * whole == whole - part;
  }

  /** When each weighted score lies between 0 and its weight, the rescaled
      final score lies in [0, 100]. */
  lemma FinalScoreInRange(rs: seq<WeightedScore>, gradeOf: real -> string)
    requires WeightedScoresInRange(rs)
    ensures 0.0 <= CalculateFinalGrade(rs, gradeOf).0 <= 100.0
  {
    WeightedSumBounds(rs);
    var w := WeightSum(rs) as real;
    if rs != [] && w > 0.0 {
      RatioAtMostOne(WeightedSum(rs), w);
    }
  }

  /** The two formulas of the repository agree exactly when the weights add
      up to 100: the rescaled score is then the raw weighted sum the views use. */
  lemma RescalingAgreesAtHundred(rs: seq<WeightedScore>, gradeOf: real -> string)
    requires WeightSum(rs) == 100
    ensures CalculateFinalGrade(rs, gradeOf).0 == WeightedSum(rs)
  {
  }

  // ---------------------------------------------------------------------
  // The results table

  /** One of a subject's results: the exam type's name and the score. */
  datatype ScoreEntry = ScoreEntry(examName: string, score: real)

  /** An entry of `report.get_subject_results()`. */
  datatype SubjectResult = SubjectResult(subjectId: nat, subjectName: string, entries: seq<ScoreEntry>, totalScore: real, grade: string)

  /** An entry of the class-average query: a subject and its class average. */
  datatype ClassAverage = ClassAverage(subjectId: nat, average: real)

  /** A row of the results table. `ca` and `exam` are None where the table
      shows "-"; a class average of 0 is also shown as "-". */
  datatype ReportRow =
    | SubjectRow(subjectName: string, ca: Option<real>, exam: Option<real>, total: real, grade: string, remark: Remark, classAverage: real, difference: real)
    | OverallRow(average: real, grade: string, remark: Remark)

  /** `next((r.score for r in results if r.exam_type.name.lower() == name), None)`. */
  function FirstScoreNamed(entries: seq<ScoreEntry>, name: string): (r: Option<real>)
    ensures r.None? <==> forall i :: 0 <= i < |entries| ==> AsciiLower(entries[i].examName) != name
    ensures r.Some? ==> exists i :: 0 <= i < |entries| && AsciiLower(entries[i].examName) == name && r.value == entries[i].score
                          && forall j :: 0 <= j < i ==> AsciiLower(entries[j].examName) != name
  {
    if entries == [] then None
    else if AsciiLower(entries[0].examName) == name then Some(entries[0].score)
    else
      var rest := FirstScoreNamed(entries[1..], name);
      assert forall i :: 1 <= i < |entries| ==> entries[i] == entries[1..][i - 1];
      rest
  }

  /** The first class average listed for the subject, or 0 when it has none. */
  function ClassAverageFor(averages: seq<ClassAverage>, subjectId: nat): (r: real)
    ensures (forall i :: 0 <= i < |averages| ==> averages[i].subjectId != subjectId) ==> r == 0.0
    ensures forall i :: 0 <= i < |averages| && averages[i].subjectId == subjectId && (forall j :: 0 <= j < i ==> averages[j].subjectId != subjectId) ==> r == averages[i].average
  {
    if averages == [] then 0.0
    else if averages[0].subjectId == subjectId then averages[0].average
    else
      var rest := ClassAverageFor(averages[1..], subjectId);
      assert forall i :: 1 <= i < |averages| ==> averages[i] == averages[1..][i - 1];
      rest
  }

  /** `total_score - subject_avg if subject_avg else 0`. */
  function Difference(total: real, classAverage: real): (d: real)
    ensures classAverage == 0.0 ==> d == 0.0
    ensures classAverage != 0.0 ==> d + classAverage == total
  {
    if classAverage != 0.0 then total - classAverage else 0.0
  }

  /** The table row for one subject. */
  function SubjectRowOf(s: SubjectResult, averages: seq<ClassAverage>): ReportRow {
    var avg := ClassAverageFor(averages, s.subjectId);
    SubjectRow(s.subjectName, FirstScoreNamed(s.entries, "ca"), FirstScoreNamed(s.entries, "exam"),
               s.totalScore, s.grade, RemarkOf(s.totalScore), avg, Difference(s.totalScore, avg))
  }

  function Totals(subjects: seq<SubjectResult>): seq<real> {
    seq(|subjects|, k requires 0 <= k < |subjects| => subjects[k].totalScore)
  }

  /** The table loop of `generate_term_report_pdf`: one row per subject, then
      the OVERALL row with the mean of the totals, only when a subject row
      exists. `studentAvg` is the mean, or 0 without subjects. */
  method AssembleRows(subjects: seq<SubjectResult>, averages: seq<ClassAverage>, gradeOf: real -> string)
    returns (rows: seq<ReportRow>, studentAvg: real)
    ensures subjects == [] ==> rows == [] && studentAvg == 0.0
    ensures subjects != [] ==> |rows| == |subjects| + 1
    ensures forall k :: 0 <= k < |subjects| ==> rows[k] == SubjectRowOf(subjects[k], averages)
    ensures studentAvg == MeanOrZero(Totals(subjects))
    ensures subjects != [] ==> rows[|subjects|] == OverallRow(studentAvg, gradeOf(studentAvg), RemarkOf(studentAvg))
  {
    rows := [];
    var total := 0.0;
    var count := 0;
    while count < |subjects|
      invariant 0 <= count <= |subjects|
      invariant |rows| == count
      invariant forall k :: 0 <= k < count ==> rows[k] == SubjectRowOf(subjects[k], averages)
      invariant total == SumReal(Totals(subjects[..count]))
    {
      var s := subjects[count];
      assert Totals(subjects[..count + 1])[..count] == Totals(subjects[..count]);
      rows := rows + [SubjectRowOf(s, averages)];
      total := total + s.totalScore;
      count := count + 1;
    }
    assert subjects[..count] == subjects;
    studentAvg := 0.0;
    if count > 0 {
      studentAvg := total / count as real;
      rows := rows + [OverallRow(studentAvg, gradeOf(studentAvg), RemarkOf(studentAvg))];
    }
  }

  /** With every subject total in [0, 100], the OVERALL average lies in [0, 100]. */
  lemma OverallAverageInRange(subjects: seq<SubjectResult>)
    requires forall k :: 0 <= k < |subjects| ==> 0.0 <= subjects[k].totalScore <= 100.0
    ensures 0.0 <= MeanOrZero(Totals(subjects)) <= 100.0
  {
    if subjects != [] {
      MeanBetween(Totals(subjects), 0.0, 100.0);
    }
  }

  // ---------------------------------------------------------------------
  // Performance summary

  datatype Indicator = AboveClassAverage | BelowClassAverage | AtClassAverage

  datatype Summary = Summary(studentAvg: real, classAvg: real, difference: real, indicator: Indicator)

  function IndicatorOf(difference: real): (i: Indicator)
    ensures i == AboveClassAverage <==> difference > 0.0
    ensures i == BelowClassAverage <==> difference < 0.0
    ensures i == AtClassAverage <==> difference == 0.0
  {
    if difference > 0.0 then AboveClassAverage
    else if difference < 0.0 then BelowClassAverage
    else AtClassAverage
  }

  /** The "Performance Summary" block: shown only when the student has
      results; a missing class average (`Avg` of nothing) counts as 0. */
  function PerformanceSummary(hasResults: bool, studentAvg: real, classAvg: Option<real>): (r: Option<Summary>)
    ensures r.Some? <==> hasResults
    ensures r.Some? ==> r.value.classAvg == (if classAvg.Some? then classAvg.value else 0.0)
    ensures r.Some? ==> r.value.difference + r.value.classAvg == studentAvg
    ensures r.Some? ==> (r.value.indicator == AboveClassAverage <==> studentAvg > r.value.classAvg)
    ensures r.Some? ==> (r.value.indicator == BelowClassAverage <==> studentAvg < r.value.classAvg)
  {
    if !hasResults then None
    else
      var avg := if classAvg.Some? then classAvg.value else 0.0;
      var difference := studentAvg - avg;
      Some(Summary(studentAvg, avg, difference, IndicatorOf(difference)))
  }
}
