/** Student welfare records: attendance and its rate and status, the health
    record's BMI rule and BMI status, behaviour assessments with their
    overall score and performance band, and the two template filters over
    them. Ratings and day counts are natural numbers; rates, averages and
    body measurements are exact reals. */
module StudentRecords {
  import opened Wrappers
  import opened Colours
  import opened Tables

  // ---------------------------------------------------------------------
  // Attendance

  /** `AttendanceRecord`; both counts default to 0. */
  datatype Attendance = Attendance(student: nat, term: nat, daysPresent: nat, daysAbsent: nat)

  function NewAttendance(student: nat, term: nat): (a: Attendance)
    ensures a.daysPresent == 0 && a.daysAbsent == 0 && AttendanceRate(a) == 0.0
  {
    Attendance(student, term, 0, 0)
  }

  /** `get_total_days`. */
  function TotalDays(a: Attendance): nat {
    a.daysPresent + a.daysAbsent
  }

  /** `AttendanceRecord.attendance_rate`: the percentage of days present, 0 without any days. */
  function AttendanceRate(a: Attendance): (rate: real)
    ensures TotalDays(a) == 0 ==> rate == 0.0
    ensures TotalDays(a) > 0 ==> rate * (TotalDays(a) as real) == 100.0 * (a.daysPresent as real)
    ensures 0.0 <= rate <= 100.0
  {
    var total := a.daysPresent + a.daysAbsent;
    if total > 0 then
      var rate := (a.daysPresent as real / total as real) * 100.0;
      PercentageBounds(a.daysPresent, total);
      rate
    else 0.0
  }

  lemma PercentageBounds(part: nat, whole: nat)
    requires 0 < whole && part <= whole
    ensures 0.0 <= (part as real / whole as real) * 100.0 <= 100.0
    ensures ((part as real / whole as real) * 100.0) * (whole as real) == 100.0 * (part as real)
  {
    var q := part as real / whole as real;
    assert q * (whole as real) == part as real;
    assert q <= 1.0 by {
      if q > 1.0 {
        assert q * (whole as real) > 1.0 * (whole as real);
      }
    }
  }

  /** Full attendance is 100 and no attendance is 0. */
  lemma AttendanceRateExtremes(a: Attendance)
    requires TotalDays(a) > 0
    ensures a.daysAbsent == 0 ==> AttendanceRate(a) == 100.0
    ensures a.daysPresent == 0 ==> AttendanceRate(a) == 0.0
  {
  }

  datatype AttendanceStatus = AttendanceExcellent | AttendanceGood | Fair | AttendancePoor

  function AttendanceRank(s: AttendanceStatus): nat {
    match s
    case AttendancePoor => 0
    case Fair => 1
    case AttendanceGood => 2
    case AttendanceExcellent => 3
  }

  /** `get_attendance_status`: 95 / 85 / 75, inclusive, with its colour. */
  function AttendanceStatusOf(rate: real): (r: (AttendanceStatus, Colour))
    ensures r.0 == AttendanceExcellent <==> rate >= 95.0
    ensures r.0 == AttendanceGood <==> 85.0 <= rate < 95.0
    ensures r.0 == Fair <==> 75.0 <= rate < 85.0
    ensures r.0 == AttendancePoor <==> rate < 75.0
  {
    if rate >= 95.0 then (AttendanceExcellent, Green)
    else if rate >= 85.0 then (AttendanceGood, Blue)
    else if rate >= 75.0 then (Fair, Orange)
    else (AttendancePoor, Red)
  }

  /** A higher rate never gets a lower status. */
  lemma AttendanceStatusMonotone(x: real, y: real)
    requires x <= y
    ensures AttendanceRank(AttendanceStatusOf(x).0) <= AttendanceRank(AttendanceStatusOf(y).0)
  {
  }

  /** One more day present (and no more absent) never lowers the status. */
  lemma MorePresenceNeverLowersStatus(a: Attendance)
    ensures AttendanceRank(AttendanceStatusOf(AttendanceRate(a)).0) <=
            AttendanceRank(AttendanceStatusOf(AttendanceRate(a.(daysPresent := a.daysPresent + 1))).0)
  {
    var b := a.(daysPresent := a.daysPresent + 1);
    if TotalDays(a) > 0 {
      RateGrowsWithPresence(a.daysPresent as real, TotalDays(a) as real);
    }
    AttendanceStatusMonotone(AttendanceRate(a), AttendanceRate(b));
  }

  lemma RateGrowsWithPresence(p: real, t: real)
    requires 0.0 <= p <= t && t > 0.0
    ensures (p / t) * 100.0 <= ((p + 1.0) / (t + 1.0)) * 100.0
  {
    var d := t * (t + 1.0);
    assert d > 0.0;
    assert p / t == p * (t + 1.0) / d;
    assert (p + 1.0) / (t + 1.0) == (p + 1.0) * t / d;
    assert p * (t + 1.0) <= (p + 1.0) * t;
    QuotientMonotone(p * (t + 1.0), (p + 1.0) * t, d);
  }

  lemma QuotientMonotone(x: real, y: real, d: real)
    requires x <= y && d > 0.0
    ensures x / d <= y / d
  {
  }

  /** `unique_together = ('student', 'term')`. */
  predicate UniqueAttendance(rows: seq<Attendance>) {
    forall i, j :: 0 <= i < j < |rows| ==> rows[i].student != rows[j].student || rows[i].term != rows[j].term
  }

  function AttendanceKey(a: Attendance): Option<(nat, nat)> {
    Some((a.student, a.term))
  }

  function CreateAttendance(rows: seq<Attendance>, a: Attendance): (r: Result<seq<Attendance>, IntegrityError>)
    ensures r.Err? <==> exists i :: 0 <= i < |rows| && rows[i].student == a.student && rows[i].term == a.term
    ensures r.Ok? ==> r.value == rows + [a]
    ensures r.Ok? && UniqueAttendance(rows) ==> UniqueAttendance(r.value)
  {
    var r := Insert(rows, AttendanceKey, a);
    assert r.Err? ==> exists i :: 0 <= i < |rows| && AttendanceKey(rows[i]) == AttendanceKey(a);
    r
  }

  // ---------------------------------------------------------------------
  // Health

  /** weight / (height / 100)², height in cm and weight in kg. */
  function BmiOf(height: real, weight: real): (bmi: real)
    requires height != 0.0
    ensures bmi * ((height / 100.0) * (height / 100.0)) == weight
  {
    var m := height / 100.0;
    assert m * m != 0.0;
    weight / (m * m)
  }

  /** What the `bmi` field holds after `StudentHealthRecord.save`: recomputed
      when height and weight are both non-zero, otherwise as it was. */
  function SavedBmi(height: real, weight: real, bmi: Option<real>): (r: Option<real>)
    ensures height != 0.0 && weight != 0.0 ==> r.Some? && r.value * ((height / 100.0) * (height / 100.0)) == weight
    ensures height == 0.0 || weight == 0.0 ==> r == bmi
  {
    if height != 0.0 && weight != 0.0 then Some(BmiOf(height, weight)) else bmi
  }

  /** `StudentHealthRecord`; a blank `bmi` is None. */
  class HealthRecord {
    var height: real
    var weight: real
    var bmi: Option<real>

    constructor (height: real, weight: real, bmi: Option<real>)
      ensures this.height == height && this.weight == weight && this.bmi == bmi
    {
      this.height := height;
      this.weight := weight;
      this.bmi := bmi;
    }

    /** `save`: sets the BMI, then stores the row; the column is NOT NULL,
        so a row still without a BMI is refused. */
    method Save() returns (stored: bool)
      modifies this
      ensures height == old(height) && weight == old(weight)
      ensures bmi == SavedBmi(height, weight, old(bmi))
      ensures stored <==> bmi.Some?
    {
      if height != 0.0 && weight != 0.0 {
        bmi := Some(BmiOf(height, weight));
      }
      stored := bmi.Some?;
    }
  }

  /** Once a record has a height and a weight, saving it is always stored,
      and saving it again changes nothing. */
  lemma SaveIsIdempotent(height: real, weight: real, bmi: Option<real>)
    requires height != 0.0 && weight != 0.0
    ensures SavedBmi(height, weight, bmi).Some?
    ensures SavedBmi(height, weight, SavedBmi(height, weight, bmi)) == SavedBmi(height, weight, bmi)
  {
  }

  datatype BmiBand = Underweight | Normal | Overweight | Obese

  datatype BmiDisplay = NotAvailable | Shown(band: BmiBand, colour: Colour)

  function BmiRank(b: BmiBand): nat {
    match b
    case Underweight => 0
    case Normal => 1
    case Overweight => 2
    case Obese => 3
  }

  /** `get_bmi_status`: below 18.5, 25 and 30, or "N/A" without a BMI. */
  function BmiStatus(bmi: Option<real>): (r: BmiDisplay)
    ensures r == NotAvailable <==> bmi.None?
    ensures r.Shown? ==> (r.band == Underweight <==> bmi.value < 18.5)
    ensures r.Shown? ==> (r.band == Normal <==> 18.5 <= bmi.value < 25.0)
    ensures r.Shown? ==> (r.band == Overweight <==> 25.0 <= bmi.value < 30.0)
    ensures r.Shown? ==> (r.band == Obese <==> 30.0 <= bmi.value)
  {
    match bmi
    case None => NotAvailable
    case Some(v) =>
      if v < 18.5 then Shown(Underweight, Blue)
      else if v < 25.0 then Shown(Normal, Green)
      else if v < 30.0 then Shown(Overweight, Orange)
      else Shown(Obese, Red)
  }

  /** A higher BMI never gets a lower band. */
  lemma BmiStatusMonotone(x: real, y: real)
    requires x <= y
    ensures BmiRank(BmiStatus(Some(x)).band) <= BmiRank(BmiStatus(Some(y)).band)
  {
  }

  // ---------------------------------------------------------------------
  // Behaviour

  /** `ASSESSMENT_CHOICES`. */
  const AssessmentChoices: seq<(nat, string)> :=
    [(1, "Needs Improvement"), (2, "Developing"), (3, "Satisfactory"), (4, "Good"), (5, "Excellent")]

  predicate IsRating(n: nat) {
    exists i :: 0 <= i < |AssessmentChoices| && AssessmentChoices[i].0 == n
  }

  /** The choices are exactly the ratings 1 to 5. */
  lemma RatingsAreOneToFive(n: nat)
    ensures IsRating(n) <==> 1 <= n <= 5
  {
    if 1 <= n <= 5 {
      assert AssessmentChoices[n - 1].0 == n;
    }
  }

  /** `BehaviorAssessment`'s four skills. */
  datatype Behaviour = Behaviour(student: nat, term: nat, participation: nat, responsibility: nat, creativity: nat, cooperation: nat)

  predicate Rated(b: Behaviour) {
    IsRating(b.participation) && IsRating(b.responsibility) && IsRating(b.creativity) && IsRating(b.cooperation)
  }

  /** `get_overall_score`: the mean of the four ratings. */
  function OverallScore(b: Behaviour): (avg: real)
    ensures 4.0 * avg == (b.participation + b.responsibility + b.creativity + b.cooperation) as real
  {
    (b.participation + b.responsibility + b.creativity + b.cooperation) as real / 4.0
  }

  /** With every rating a valid choice, the overall score lies in [1, 5]. */
  lemma OverallScoreBounds(b: Behaviour)
    requires Rated(b)
    ensures 1.0 <= OverallScore(b) <= 5.0
  {
    RatingsAreOneToFive(b.participation);
    RatingsAreOneToFive(b.responsibility);
    RatingsAreOneToFive(b.creativity);
    RatingsAreOneToFive(b.cooperation);
  }

  datatype Performance = PerformanceExcellent | PerformanceGood | PerformanceSatisfactory | Developing | PerformanceNeedsImprovement

  function PerformanceRank(p: Performance): nat {
    match p
    case PerformanceNeedsImprovement => 0
    case Developing => 1
    case PerformanceSatisfactory => 2
    case PerformanceGood => 3
    case PerformanceExcellent => 4
  }

  /** `get_performance_indicator` on an average: 4.5 / 3.5 / 2.5 / 1.5, inclusive. */
  function PerformanceBand(avg: real): (r: (Performance, Colour))
    ensures r.0 == PerformanceExcellent <==> avg >= 4.5
    ensures r.0 == PerformanceGood <==> 3.5 <= avg < 4.5
    ensures r.0 == PerformanceSatisfactory <==> 2.5 <= avg < 3.5
    ensures r.0 == Developing <==> 1.5 <= avg < 2.5
    ensures r.0 == PerformanceNeedsImprovement <==> avg < 1.5
  {
    if avg >= 4.5 then (PerformanceExcellent, Green)
    else if avg >= 3.5 then (PerformanceGood, Blue)
    else if avg >= 2.5 then (PerformanceSatisfactory, Orange)
    else if avg >= 1.5 then (Developing, Red)
    else (PerformanceNeedsImprovement, DarkRed)
  }

  /** A higher average never gets a lower band. */
  lemma PerformanceBandMonotone(x: real, y: real)
    requires x <= y
    ensures PerformanceRank(PerformanceBand(x).0) <= PerformanceRank(PerformanceBand(y).0)
  {
  }

  /** All fives is Excellent and all ones is Needs Improvement. */
  lemma PerformanceBandExtremes(b: Behaviour)
    ensures b.participation == b.responsibility == b.creativity == b.cooperation == 5 ==> PerformanceBand(OverallScore(b)).0 == PerformanceExcellent
    ensures b.participation == b.responsibility == b.creativity == b.cooperation == 1 ==> PerformanceBand(OverallScore(b)).0 == PerformanceNeedsImprovement
  {
  }

  /** The `behavior_avg` filter: 0 without an assessment, else the mean rating. */
  function BehaviorAverage(assessment: Option<Behaviour>): (avg: real)
    ensures assessment.None? ==> avg == 0.0
    ensures assessment.Some? ==> avg == OverallScore(assessment.value)
  {
    match assessment
    case None => 0.0
    case Some(b) => (b.participation + b.responsibility + b.creativity + b.cooperation) as real / 4.0
  }

  /** The filter never falls outside [1, 5] for a rated assessment, and the
      "no assessment" 0 is below every rated one. */
  lemma BehaviorAverageBounds(assessment: Option<Behaviour>)
    requires assessment.Some? ==> Rated(assessment.value)
    ensures assessment.Some? ==> 1.0 <= BehaviorAverage(assessment) <= 5.0
    ensures assessment.None? ==> BehaviorAverage(assessment) == 0.0
  {
    if assessment.Some? {
      OverallScoreBounds(assessment.value);
    }
  }

  /** `unique_together = ('student', 'term')`. */
  predicate UniqueBehaviour(rows: seq<Behaviour>) {
    forall i, j :: 0 <= i < j < |rows| ==> rows[i].student != rows[j].student || rows[i].term != rows[j].term
  }

  function BehaviourKey(b: Behaviour): Option<(nat, nat)> {
    Some((b.student, b.term))
  }

  function CreateBehaviour(rows: seq<Behaviour>, b: Behaviour): (r: Result<seq<Behaviour>, IntegrityError>)
    ensures r.Err? <==> exists i :: 0 <= i < |rows| && rows[i].student == b.student && rows[i].term == b.term
    ensures r.Ok? ==> r.value == rows + [b]
    ensures r.Ok? && UniqueBehaviour(rows) ==> UniqueBehaviour(r.value)
  {
    var r := Insert(rows, BehaviourKey, b);
    assert r.Err? ==> exists i :: 0 <= i < |rows| && BehaviourKey(rows[i]) == BehaviourKey(b);
    r
  }

  // ---------------------------------------------------------------------
  // Template filter

  /** `multiply`: the product, or 0 when either side is not a number (None). */
  function Multiply(value: Option<real>, arg: Option<real>): (r: real)
    ensures value.None? || arg.None? ==> r == 0.0
    ensures value.Some? && arg.Some? ==> r == value.value * arg.value
  {
    if value.Some? && arg.Some? then value.value * arg.value else 0.0
  }
}
