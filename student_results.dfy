/** The weighted-score aggregation of the student dashboard and the student
    term report. Both views walk a student's results, group them per subject
    (and, for the dashboard's history, per term) in dictionaries they update
    as they go, add `score / max_score * weight` to the subject's
    `weighted_total` and `weight` to its `total_weight`, and then turn every
    group into a row. The walks are methods with loops; what they compute is
    pinned to the specification functions `Tally`, `SubjectOrder` and
    `TermOrder`, which read a result sequence one element at a time from the
    end, so that a prefix of the walk is described by the same functions.

    A result whose exam type has max_score 0 makes the division raise; the
    views catch every exception around these blocks and show an empty list,
    and so does the model. */
module StudentResults {
  import opened Wrappers
  import opened Sums
  import opened Grading

  /** One `Result` row with the fields the views read from it and from its exam type. */
  datatype ExamResult = ExamResult(term: nat, subject: nat, examName: string, score: real, maxScore: real, weight: nat)

  /** The term report's `exam_breakdown` entry for one exam type. */
  datatype ExamEntry = ExamEntry(score: real, maxScore: real, weight: nat, contribution: real)

  /** Everything the views accumulate for one subject: `weighted_total`,
      `total_weight`, the `raw_scores` list and the `exam_breakdown` dictionary. */
  datatype SubjectTally = SubjectTally(weightedTotal: real, totalWeight: nat, rawScores: seq<real>, breakdown: map<string, ExamEntry>)

  const EmptyTally := SubjectTally(0.0, 0, [], map[])

  /** A dashboard row for one subject of the current term. */
  datatype SubjectSummary = SubjectSummary(subject: nat, finalScore: real, avgScore: real, highestScore: real, lowestScore: real, grade: Grade)

  /** A term-report row for one subject. */
  datatype ReportLine = ReportLine(subject: nat, finalScore: real, grade: Grade, breakdown: map<string, ExamEntry>, hasAllResults: bool)

  /** A row of the dashboard's academic history: one term and its average. */
  datatype TermAverage = TermAverage(term: nat, average: real)

  /** `(score / max_score) * weight`. */
  function Contribution(r: ExamResult): real
    requires r.maxScore != 0.0
  {
    r.score / r.maxScore * r.weight as real
  }

  /** One pass of the loop body for a result of this subject. */
  function AddResult(t: SubjectTally, r: ExamResult): SubjectTally
    requires r.maxScore != 0.0
  {
    SubjectTally(
      t.weightedTotal + Contribution(r),
      t.totalWeight + r.weight,
      t.rawScores + [r.score],
      t.breakdown[r.examName := ExamEntry(r.score, r.maxScore, r.weight, Contribution(r))])
  }

  /** No result of `term` has a zero max score. */
  predicate TermDivisible(rs: seq<ExamResult>, term: nat) {
    forall i :: 0 <= i < |rs| && rs[i].term == term ==> rs[i].maxScore != 0.0
  }

  /** No result at all has a zero max score. */
  predicate AllDivisible(rs: seq<ExamResult>) {
    forall i :: 0 <= i < |rs| ==> rs[i].maxScore != 0.0
  }

  /** What the loop has accumulated for (term, subject) after reading `rs`:
      only that subject's results of that term contribute. */
  function Tally(rs: seq<ExamResult>, term: nat, subject: nat): SubjectTally
    requires TermDivisible(rs, term)
  {
    if rs == [] then EmptyTally
    else
      var last := rs[|rs| - 1];
      var before := Tally(rs[..|rs| - 1], term, subject);
      if last.term == term && last.subject == subject then AddResult(before, last) else before
  }

  /** The subjects of `term` in the order they first occur, which is the
      insertion order of the views' dictionaries and so the order of their rows. */
  function SubjectOrder(rs: seq<ExamResult>, term: nat): seq<nat> {
    if rs == [] then []
    else
      var last := rs[|rs| - 1];
      var before := SubjectOrder(rs[..|rs| - 1], term);
      if last.term == term && last.subject !in before then before + [last.subject] else before
  }

  /** The terms in the order they first occur. */
  function TermOrder(rs: seq<ExamResult>): seq<nat> {
    if rs == [] then []
    else
      var last := rs[|rs| - 1];
      var before := TermOrder(rs[..|rs| - 1]);
      if last.term !in before then before + [last.term] else before
  }

  /** `final_score = weighted_total if total_weight > 0 else 0`: the weighted
      total is taken as already out of 100, with no rescaling. */
  function FinalScore(t: SubjectTally): real {
    if t.totalWeight > 0 then t.weightedTotal else 0.0
  }

  /** The dashboard's row for a subject (students/views.py, the `safe_subjects` entries). */
  function Summarise(subject: nat, t: SubjectTally): SubjectSummary {
    SubjectSummary(
      subject,
      FinalScore(t),
      if t.rawScores != [] then MeanOrZero(t.rawScores) else 0.0,
      if t.rawScores != [] then MaxReal(t.rawScores) else 0.0,
      if t.rawScores != [] then MinReal(t.rawScores) else 0.0,
      GradeOf(FinalScore(t)))
  }

  /** The term report's row for a subject: `has_all_results` is `total_weight >= 100`. */
  function ReportLineOf(subject: nat, t: SubjectTally): ReportLine {
    ReportLine(subject, FinalScore(t), GradeOf(FinalScore(t)), t.breakdown, t.totalWeight >= 100)
  }

  function SubjectSummaries(rs: seq<ExamResult>, term: nat): seq<SubjectSummary>
    requires TermDivisible(rs, term)
  {
    var order := SubjectOrder(rs, term);
    seq(|order|, k requires 0 <= k < |order| => Summarise(order[k], Tally(rs, term, order[k])))
  }

  function ReportLines(rs: seq<ExamResult>, term: nat): seq<ReportLine>
    requires TermDivisible(rs, term)
  {
    var order := SubjectOrder(rs, term);
    seq(|order|, k requires 0 <= k < |order| => ReportLineOf(order[k], Tally(rs, term, order[k])))
  }

  /** The final scores of those `subjects` whose accumulated weight is positive, in order. */
  function PositiveWeightFinals(rs: seq<ExamResult>, term: nat, subjects: seq<nat>): seq<real>
    requires TermDivisible(rs, term)
  {
    if subjects == [] then []
    else
      var t := Tally(rs, term, subjects[|subjects| - 1]);
      PositiveWeightFinals(rs, term, subjects[..|subjects| - 1]) + (if t.totalWeight > 0 then [t.weightedTotal] else [])
  }

  /** `term_avg`: the mean of the final scores of the term's subjects with
      positive weight, or 0 when there are none. */
  function TermAverageOf(rs: seq<ExamResult>, term: nat): real
    requires TermDivisible(rs, term)
  {
    MeanOrZero(PositiveWeightFinals(rs, term, SubjectOrder(rs, term)))
  }

  function TermAverages(rs: seq<ExamResult>): seq<TermAverage>
    requires AllDivisible(rs)
  {
    var order := TermOrder(rs);
    seq(|order|, k requires 0 <= k < |order| => TermAverage(order[k], TermAverageOf(rs, order[k])))
  }

  // ---------------------------------------------------------------------
  // Properties of the specification

  /** A subject is listed exactly when some result of the term names it, and
      it is listed once. */
  lemma {:induction false} SubjectOrderMembers(rs: seq<ExamResult>, term: nat)
    ensures forall s :: s in SubjectOrder(rs, term) <==> exists i :: 0 <= i < |rs| && rs[i].term == term && rs[i].subject == s
    ensures forall a, b :: 0 <= a < b < |SubjectOrder(rs, term)| ==> SubjectOrder(rs, term)[a] != SubjectOrder(rs, term)[b]
  {
    if rs != [] {
      var init := rs[..|rs| - 1];
      SubjectOrderMembers(init, term);
      assert forall i :: 0 <= i < |init| ==> init[i] == rs[i];
    }
  }

  /** A subject that has not been seen yet has accumulated nothing. */
  lemma {:induction false} UnseenSubjectIsEmpty(rs: seq<ExamResult>, term: nat, subject: nat)
    requires TermDivisible(rs, term)
    requires subject !in SubjectOrder(rs, term)
    ensures Tally(rs, term, subject) == EmptyTally
  {
    if rs != [] {
      UnseenSubjectIsEmpty(rs[..|rs| - 1], term, subject);
    }
  }

  /** A term that has not been seen yet has no subjects. */
  lemma {:induction false} UnseenTermHasNoSubjects(rs: seq<ExamResult>, term: nat)
    requires term !in TermOrder(rs)
    ensures SubjectOrder(rs, term) == []
  {
    if rs != [] {
      UnseenTermHasNoSubjects(rs[..|rs| - 1], term);
    }
  }

  /** A score between 0 and a positive max score contributes between 0 and its weight. */
  lemma ContributionBounds(r: ExamResult)
    requires 0.0 < r.maxScore && 0.0 <= r.score <= r.maxScore
    ensures 0.0 <= Contribution(r) <= r.weight as real
  {
    var q := r.score / r.maxScore;
    assert q * r.maxScore == r.score;
    assert 0.0 <= q <= 1.0;
    assert q * r.weight as real <= 1.0 * r.weight as real;
  }

  /** Results whose scores respect their max scores. */
  predicate ScoresInRange(rs: seq<ExamResult>, term: nat, subject: nat) {
    forall i :: 0 <= i < |rs| && rs[i].term == term && rs[i].subject == subject ==>
      0.0 < rs[i].maxScore && 0.0 <= rs[i].score <= rs[i].maxScore
  }

  /** With valid scores the weighted total lies between 0 and the total weight. */
  lemma {:induction false} TallyBounds(rs: seq<ExamResult>, term: nat, subject: nat)
    requires TermDivisible(rs, term)
    requires ScoresInRange(rs, term, subject)
    ensures 0.0 <= Tally(rs, term, subject).weightedTotal <= Tally(rs, term, subject).totalWeight as real
  {
    if rs != [] {
      var last := rs[|rs| - 1];
      TallyBounds(rs[..|rs| - 1], term, subject);
      if last.term == term && last.subject == subject {
        ContributionBounds(last);
      }
    }
  }

  /** "Already out of 100": when every score lies between 0 and its max score
      and the subject's weights add up to 100, the final score lies in [0, 100]. */
  lemma FinalScoreOutOfHundred(rs: seq<ExamResult>, term: nat, subject: nat)
    requires TermDivisible(rs, term)
    requires ScoresInRange(rs, term, subject)
    requires Tally(rs, term, subject).totalWeight == 100
    ensures 0.0 <= FinalScore(Tally(rs, term, subject)) <= 100.0
  {
    TallyBounds(rs, term, subject);
  }

  /** A subject's lowest raw score <= its average <= its highest; with no
      scores all three are 0. */
  lemma SummaryStatsOrdered(subject: nat, t: SubjectTally)
    ensures Summarise(subject, t).lowestScore <= Summarise(subject, t).avgScore <= Summarise(subject, t).highestScore
    ensures t.rawScores == [] ==> Summarise(subject, t).avgScore == 0.0 && Summarise(subject, t).highestScore == 0.0 && Summarise(subject, t).lowestScore == 0.0
  {
    if t.rawScores != [] {
      MinMeanMax(t.rawScores);
    }
  }

  /** Each listed subject's raw scores are exactly that subject's scores of the term, in order. */
  lemma {:induction false} RawScoresOfSubject(rs: seq<ExamResult>, term: nat, subject: nat)
    requires TermDivisible(rs, term)
    ensures |Tally(rs, term, subject).rawScores| == |Matching(rs, term, subject)|
    ensures forall k :: 0 <= k < |Matching(rs, term, subject)| ==> Tally(rs, term, subject).rawScores[k] == Matching(rs, term, subject)[k].score
  {
    if rs != [] {
      RawScoresOfSubject(rs[..|rs| - 1], term, subject);
    }
  }

  /** The results of one subject in one term, in order. */
  function Matching(rs: seq<ExamResult>, term: nat, subject: nat): seq<ExamResult> {
    if rs == [] then []
    else
      var last := rs[|rs| - 1];
      Matching(rs[..|rs| - 1], term, subject) + (if last.term == term && last.subject == subject then [last] else [])
  }

  /** The term average of scores that each lie in [0, 100] lies in [0, 100]. */
  lemma {:induction false} PositiveWeightFinalsBounded(rs: seq<ExamResult>, term: nat, subjects: seq<nat>)
    requires TermDivisible(rs, term)
    requires forall s :: s in subjects ==> 0.0 <= FinalScore(Tally(rs, term, s)) <= 100.0
    ensures forall i :: 0 <= i < |PositiveWeightFinals(rs, term, subjects)| ==> 0.0 <= PositiveWeightFinals(rs, term, subjects)[i] <= 100.0
  {
    if subjects != [] {
      PositiveWeightFinalsBounded(rs, term, subjects[..|subjects| - 1]);
    }
  }

  lemma TermAverageOutOfHundred(rs: seq<ExamResult>, term: nat)
    requires TermDivisible(rs, term)
    requires forall s :: s in SubjectOrder(rs, term) ==> 0.0 <= FinalScore(Tally(rs, term, s)) <= 100.0
    ensures 0.0 <= TermAverageOf(rs, term) <= 100.0
  {
    var finals := PositiveWeightFinals(rs, term, SubjectOrder(rs, term));
    PositiveWeightFinalsBounded(rs, term, SubjectOrder(rs, term));
    if finals != [] {
      MeanBetween(finals, 0.0, 100.0);
    }
  }

  // ---------------------------------------------------------------------
  // The views' loops

  /** The grouping loop both views run over the current term's results
      (`subject_data[subject_id][...] += ...`). `ok` is false when a zero max
      score makes the division raise. */
  method GroupTermResults(rs: seq<ExamResult>, term: nat) returns (ok: bool, order: seq<nat>, tallies: map<nat, SubjectTally>)
    ensures ok <==> TermDivisible(rs, term)
    ensures ok ==> order == SubjectOrder(rs, term)
    ensures ok ==> forall s :: s in tallies <==> s in order
    ensures ok ==> forall s :: s in tallies ==> tallies[s] == Tally(rs, term, s)
  {
    order, tallies := [], map[];
    var i := 0;
    while i < |rs|
      invariant 0 <= i <= |rs|
      invariant TermDivisible(rs[..i], term)
      invariant order == SubjectOrder(rs[..i], term)
      invariant forall s :: s in tallies <==> s in order
      invariant forall s :: s in tallies ==> tallies[s] == Tally(rs[..i], term, s)
    {
      var r := rs[i];
      assert rs[..i + 1][..i] == rs[..i];
      if r.term == term {
        if r.maxScore == 0.0 {
          ok := false;
          return;
        }
        if r.subject !in tallies {
          UnseenSubjectIsEmpty(rs[..i], term, r.subject);
          tallies := tallies[r.subject := EmptyTally];
          order := order + [r.subject];
        }
        tallies := tallies[r.subject := AddResult(tallies[r.subject], r)];
      }
      i := i + 1;
    }
    assert rs[..i] == rs;
    ok := true;
  }

  /** The dashboard's current-term subject rows (`safe_subjects`). Without a
      current term the list is empty. */
  method CurrentTermSubjects(rs: seq<ExamResult>, currentTerm: Option<nat>) returns (subjects: seq<SubjectSummary>)
    ensures currentTerm.None? ==> subjects == []
    ensures currentTerm.Some? && !TermDivisible(rs, currentTerm.value) ==> subjects == []
    ensures currentTerm.Some? && TermDivisible(rs, currentTerm.value) ==> subjects == SubjectSummaries(rs, currentTerm.value)
  {
    subjects := [];
    if currentTerm.None? {
      return;
    }
    var term := currentTerm.value;
    var ok, order, tallies := GroupTermResults(rs, term);
    if !ok {
      return;
    }
    var k := 0;
    while k < |order|
      invariant 0 <= k <= |order|
      invariant |subjects| == k
      invariant forall j :: 0 <= j < k ==> subjects[j] == Summarise(order[j], Tally(rs, term, order[j]))
    {
      subjects := subjects + [Summarise(order[k], tallies[order[k]])];
      k := k + 1;
    }
  }

  /** The term report's subject rows. None stands for the "No current term
      found" response. */
  method TermReportSubjects(rs: seq<ExamResult>, currentTerm: Option<nat>) returns (lines: Option<seq<ReportLine>>)
    ensures currentTerm.None? <==> lines.None?
    ensures currentTerm.Some? && !TermDivisible(rs, currentTerm.value) ==> lines == Some([])
    ensures currentTerm.Some? && TermDivisible(rs, currentTerm.value) ==> lines == Some(ReportLines(rs, currentTerm.value))
  {
    if currentTerm.None? {
      return None;
    }
    var term := currentTerm.value;
    var ok, order, tallies := GroupTermResults(rs, term);
    if !ok {
      return Some([]);
    }
    var rows: seq<ReportLine> := [];
    var k := 0;
    while k < |order|
      invariant 0 <= k <= |order|
      invariant |rows| == k
      invariant forall j :: 0 <= j < k ==> rows[j] == ReportLineOf(order[j], Tally(rs, term, order[j]))
    {
      rows := rows + [ReportLineOf(order[k], tallies[order[k]])];
      k := k + 1;
    }
    assert rows == ReportLines(rs, term);
    lines := Some(rows);
  }

  /** The first half of the dashboard's academic history: results grouped by
      term and then by subject in one pass (`term_subject_data`). The nested
      dictionary is a map from term to its subjects in insertion order plus a
      map keyed by (term, subject). */
  method GroupAllResults(rs: seq<ExamResult>) returns (ok: bool, termOrder: seq<nat>, subjectsOf: map<nat, seq<nat>>, tallies: map<(nat, nat), SubjectTally>)
    ensures ok <==> AllDivisible(rs)
    ensures ok ==> termOrder == TermOrder(rs)
    ensures ok ==> forall t :: t in subjectsOf <==> t in termOrder
    ensures ok ==> forall t :: t in subjectsOf ==> subjectsOf[t] == SubjectOrder(rs, t)
    ensures ok ==> forall key :: key in tallies <==> key.0 in subjectsOf && key.1 in subjectsOf[key.0]
    ensures ok ==> forall key :: key in tallies ==> tallies[key] == Tally(rs, key.0, key.1)
  {
    termOrder, subjectsOf, tallies := [], map[], map[];
    var i := 0;
    while i < |rs|
      invariant 0 <= i <= |rs|
      invariant AllDivisible(rs[..i])
      invariant termOrder == TermOrder(rs[..i])
      invariant forall t :: t in subjectsOf <==> t in termOrder
      invariant forall t :: t in subjectsOf ==> subjectsOf[t] == SubjectOrder(rs[..i], t)
      invariant forall key :: key in tallies <==> key.0 in subjectsOf && key.1 in subjectsOf[key.0]
      invariant forall key :: key in tallies ==> tallies[key] == Tally(rs[..i], key.0, key.1)
    {
      var r := rs[i];
      var seen := rs[..i];
      assert rs[..i + 1][..i] == seen;
      if r.maxScore == 0.0 {
        ok := false;
        return;
      }
      if r.term !in subjectsOf {
        UnseenTermHasNoSubjects(seen, r.term);
        subjectsOf := subjectsOf[r.term := []];
        termOrder := termOrder + [r.term];
      }
      var key := (r.term, r.subject);
      if key !in tallies {
        UnseenSubjectIsEmpty(seen, r.term, r.subject);
        tallies := tallies[key := EmptyTally];
        subjectsOf := subjectsOf[r.term := subjectsOf[r.term] + [r.subject]];
      }
      tallies := tallies[key := AddResult(tallies[key], r)];
      i := i + 1;
    }
    assert rs[..i] == rs;
    ok := true;
  }

  /** `term_avg` of one term from the grouped tallies. */
  method AverageOfTerm(rs: seq<ExamResult>, term: nat, subjects: seq<nat>, tallies: map<(nat, nat), SubjectTally>) returns (average: real)
    requires TermDivisible(rs, term)
    requires forall s :: s in subjects ==> (term, s) in tallies && tallies[(term, s)] == Tally(rs, term, s)
    ensures average == MeanOrZero(PositiveWeightFinals(rs, term, subjects))
  {
    var scores: seq<real> := [];
    var m := 0;
    while m < |subjects|
      invariant 0 <= m <= |subjects|
      invariant scores == PositiveWeightFinals(rs, term, subjects[..m])
    {
      assert subjects[..m + 1][..m] == subjects[..m];
      var tally := tallies[(term, subjects[m])];
      if tally.totalWeight > 0 {
        scores := scores + [tally.weightedTotal];
      }
      m := m + 1;
    }
    assert subjects[..m] == subjects;
    average := if scores != [] then SumReal(scores) / |scores| as real else 0.0;
  }

  /** The dashboard's academic history (`academic_data`): one average per
      term, in the order the terms first occur. */
  method AcademicHistory(rs: seq<ExamResult>) returns (averages: seq<TermAverage>)
    ensures !AllDivisible(rs) ==> averages == []
    ensures AllDivisible(rs) ==> averages == TermAverages(rs)
  {
    averages := [];
    var ok, termOrder, subjectsOf, tallies := GroupAllResults(rs);
    if !ok {
      return;
    }
    var k := 0;
    while k < |termOrder|
      invariant 0 <= k <= |termOrder|
      invariant |averages| == k
      invariant forall j :: 0 <= j < k ==> averages[j] == TermAverage(termOrder[j], TermAverageOf(rs, termOrder[j]))
    {
      var term := termOrder[k];
      var average := AverageOfTerm(rs, term, subjectsOf[term], tallies);
      averages := averages + [TermAverage(term, average)];
      k := k + 1;
    }
  }
}
