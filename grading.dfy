/** The school's one grading table. The same inclusive lower bounds
    90/80/70/60/50 appear in the dashboard's `calculate_grade`, in the report
    card's `calculate_grade` and `get_remark`, and in the results admin's
    coloured grade badge; they are stated once here. */
module Grading {
  import opened Wrappers
  import opened Colours

  datatype Grade = APlus | A | B | C | D | F

  datatype Remark = Excellent | VeryGood | Good | Satisfactory | NeedsImprovement | Poor

  function GradeLabel(g: Grade): string {
    match g
    case APlus => "A+"
    case A => "A"
    case B => "B"
    case C => "C"
    case D => "D"
    case F => "F"
  }

  /** Position of a grade from worst (0) to best (5). */
  function GradeRank(g: Grade): nat {
    match g
    case F => 0
    case D => 1
    case C => 2
    case B => 3
    case A => 4
    case APlus => 5
  }

  /** `calculate_grade(score)` on a number. */
  function GradeOf(score: real): Grade {
    if score >= 90.0 then APlus
    else if score >= 80.0 then A
    else if score >= 70.0 then B
    else if score >= 60.0 then C
    else if score >= 50.0 then D
    else F
  }

  /** The dashboard's `calculate_grade(score)`: it first converts its argument
      with `float`; a value that does not convert (None) yields 'F'. */
  function GradeOfInput(input: Option<real>): (g: Grade)
    ensures input.None? ==> g == F
    ensures input.Some? ==> g == GradeOf(input.value)
  {
    match input
    case None => F
    case Some(score) => GradeOf(score)
  }

  /** `get_remark(score)`. */
  function RemarkOf(score: real): Remark {
    if score >= 90.0 then Excellent
    else if score >= 80.0 then VeryGood
    else if score >= 70.0 then Good
    else if score >= 60.0 then Satisfactory
    else if score >= 50.0 then NeedsImprovement
    else Poor
  }

  /** The remark each grade band carries. */
  function RemarkForGrade(g: Grade): Remark {
    match g
    case APlus => Excellent
    case A => VeryGood
    case B => Good
    case C => Satisfactory
    case D => NeedsImprovement
    case F => Poor
  }

  function RemarkLabel(r: Remark): string {
    match r
    case Excellent => "Excellent"
    case VeryGood => "Very Good"
    case Good => "Good"
    case Satisfactory => "Satisfactory"
    case NeedsImprovement => "Needs Improvement"
    case Poor => "Poor"
  }

  /** `ResultAdmin.get_grade`: the grade of a result's score and the colour of its badge. */
  function GradeBadge(score: real): (Grade, Colour) {
    if score >= 90.0 then (APlus, Green)
    else if score >= 80.0 then (A, Green)
    else if score >= 70.0 then (B, Blue)
    else if score >= 60.0 then (C, Orange)
    else if score >= 50.0 then (D, Red)
    else (F, DarkRed)
  }

  /** Each grade covers exactly the half-open band between its lower bound
      (inclusive) and the next one up; 90 itself is A+. */
  lemma GradeBands(score: real)
    ensures GradeOf(score) == APlus <==> score >= 90.0
    ensures GradeOf(score) == A <==> 80.0 <= score < 90.0
    ensures GradeOf(score) == B <==> 70.0 <= score < 80.0
    ensures GradeOf(score) == C <==> 60.0 <= score < 70.0
    ensures GradeOf(score) == D <==> 50.0 <= score < 60.0
    ensures GradeOf(score) == F <==> score < 50.0
  {
  }

  /** A higher score never earns a lower grade. */
  lemma GradeMonotone(x: real, y: real)
    requires x <= y
    ensures GradeRank(GradeOf(x)) <= GradeRank(GradeOf(y))
  {
  }

  /** `get_remark` lines up with the grade bands: A+ is Excellent, ..., F is Poor. */
  lemma RemarkMatchesGrade(score: real)
    ensures RemarkOf(score) == RemarkForGrade(GradeOf(score))
  {
  }

  /** The admin badge shows the same grade as the table, green for A+ and A,
      blue for B, orange for C, red for D and dark red for F. */
  lemma BadgeMatchesGrade(score: real)
    ensures GradeBadge(score).0 == GradeOf(score)
    ensures GradeBadge(score).1 == Green <==> GradeRank(GradeOf(score)) >= 4
  {
  }
}
