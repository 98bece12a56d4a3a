/** The academic records: classes with their optional arm, the subjects a
    class takes, results and report comments, and the uniqueness constraints
    the database keeps on them. */
module Academics {
  import opened Wrappers
  import opened Tables

  /** A `Class` row. `arm` is NULL (None) or one of the arm choices; the
      empty string is allowed by the form (`blank=True`) and is falsy. */
  datatype SchoolClass = SchoolClass(name: string, shortName: string, level: nat, arm: Option<string>)

  /** A `ClassSubject` row: a class (by id), a subject and an optional teacher. */
  datatype ClassSubject = ClassSubject(classId: nat, subject: nat, teacher: Option<nat>)

  /** A `Result` row; `exam_type` and `term` are ids. */
  datatype ResultRow = ResultRow(student: nat, subject: nat, examType: nat, term: nat, score: real)

  datatype CommentType = TeacherComment | PrincipalComment

  /** A `ReportComment` row. */
  datatype ReportComment = ReportComment(report: nat, commentType: CommentType, text: string)

  const ArmChoices: seq<string> := ["Alpha", "Beta", "Gamma", "Delta"]

  /** `Class(name=..., short_name=..., level=...)` without an arm gets the default arm "Alpha". */
  function NewClass(name: string, shortName: string, level: nat): (c: SchoolClass)
    ensures c.arm == Some("Alpha") && c.arm.value in ArmChoices
    ensures c.name == name && c.shortName == shortName && c.level == level
  {
    SchoolClass(name, shortName, level, Some("Alpha"))
  }

  /** Python's truthiness of `self.arm`: neither None nor "". */
  predicate HasArm(c: SchoolClass) {
    c.arm.Some? && c.arm.value != ""
  }

  /** `Class.full_name`: "name arm" when there is an arm, else the name. */
  function FullName(c: SchoolClass): (r: string)
    ensures |c.name| <= |r| && r[..|c.name|] == c.name
    ensures HasArm(c) ==> r[|c.name|..] == " " + c.arm.value
    ensures !HasArm(c) ==> |r| == |c.name|
  {
    if HasArm(c) then c.name + " " + c.arm.value else c.name
  }

  /** `Class.__str__`, written out separately in the source. */
  function ClassStr(c: SchoolClass): string {
    if HasArm(c) then c.name + " " + c.arm.value else c.name
  }

  /** `Class.display_code`: the short name followed by the arm's first letter
      (P1A, P1B), or the short name alone. */
  function DisplayCode(c: SchoolClass): (r: string)
    ensures |r| == |c.shortName| + (if HasArm(c) then 1 else 0)
    ensures r[..|c.shortName|] == c.shortName
    ensures HasArm(c) ==> r[|c.shortName|] == c.arm.value[0]
  {
    if HasArm(c) then c.shortName + [c.arm.value[0]] else c.shortName
  }

  /** `__str__` and `full_name` are the same text. */
  lemma StrIsFullName(c: SchoolClass)
    ensures ClassStr(c) == FullName(c)
  {
  }

  /** Two arms of one class are told apart by their full names, and by their
      display codes exactly when the arms' first letters differ. */
  lemma ArmsDistinguished(c: SchoolClass, arm1: string, arm2: string)
    requires arm1 != "" && arm2 != "" && arm1 != arm2
    ensures FullName(c.(arm := Some(arm1))) != FullName(c.(arm := Some(arm2)))
    ensures DisplayCode(c.(arm := Some(arm1))) != DisplayCode(c.(arm := Some(arm2))) <==> arm1[0] != arm2[0]
  {
    var n1 := FullName(c.(arm := Some(arm1)));
    var n2 := FullName(c.(arm := Some(arm2)));
    assert n1[|c.name| + 1..] == arm1;
    assert n2[|c.name| + 1..] == arm2;
    var d1 := DisplayCode(c.(arm := Some(arm1)));
    var d2 := DisplayCode(c.(arm := Some(arm2)));
    assert d1[|c.shortName|] == arm1[0];
    assert d2[|c.shortName|] == arm2[0];
  }

  // ---------------------------------------------------------------------
  // unique_together constraints

  /** `unique_together = ('level', 'arm')`; a NULL arm is never equal to another. */
  function ClassKey(c: SchoolClass): Option<(nat, string)> {
    if c.arm.Some? then Some((c.level, c.arm.value)) else None
  }

  function ClassSubjectKey(cs: ClassSubject): Option<(nat, nat)> {
    Some((cs.classId, cs.subject))
  }

  function ResultKey(r: ResultRow): Option<(nat, nat, nat, nat)> {
    Some((r.student, r.subject, r.examType, r.term))
  }

  function CommentKey(c: ReportComment): Option<(nat, CommentType)> {
    Some((c.report, c.commentType))
  }

  /** No two classes with an arm share (level, arm). */
  predicate UniqueClasses(classes: seq<SchoolClass>) {
    forall i, j :: 0 <= i < j < |classes| && classes[i].arm.Some? ==> classes[i].level != classes[j].level || classes[i].arm != classes[j].arm
  }

  /** No class takes the same subject twice. */
  predicate UniqueClassSubjects(rows: seq<ClassSubject>) {
    forall i, j :: 0 <= i < j < |rows| ==> rows[i].classId != rows[j].classId || rows[i].subject != rows[j].subject
  }

  /** At most one result per (student, subject, exam type, term). */
  predicate UniqueResults(rows: seq<ResultRow>) {
    forall i, j :: 0 <= i < j < |rows| ==> (rows[i].student, rows[i].subject, rows[i].examType, rows[i].term) != (rows[j].student, rows[j].subject, rows[j].examType, rows[j].term)
  }

  /** At most one comment of each type per report. */
  predicate UniqueComments(rows: seq<ReportComment>) {
    forall i, j :: 0 <= i < j < |rows| ==> rows[i].report != rows[j].report || rows[i].commentType != rows[j].commentType
  }

  /** `Class.objects.create`: refused when a class with the same level and the
      same non-NULL arm exists; a class without an arm is always accepted. */
  function CreateClass(classes: seq<SchoolClass>, c: SchoolClass): (r: Result<seq<SchoolClass>, IntegrityError>)
    ensures r.Err? <==> c.arm.Some? && exists i :: 0 <= i < |classes| && classes[i].level == c.level && classes[i].arm == c.arm
    ensures r.Ok? ==> r.value == classes + [c]
    ensures r.Ok? && UniqueClasses(classes) ==> UniqueClasses(r.value)
  {
    var r := Insert(classes, ClassKey, c);
    assert r.Err? ==> exists i :: 0 <= i < |classes| && ClassKey(classes[i]) == ClassKey(c);
    r
  }

  function CreateClassSubject(rows: seq<ClassSubject>, cs: ClassSubject): (r: Result<seq<ClassSubject>, IntegrityError>)
    ensures r.Err? <==> exists i :: 0 <= i < |rows| && rows[i].classId == cs.classId && rows[i].subject == cs.subject
    ensures r.Ok? ==> r.value == rows + [cs]
    ensures r.Ok? && UniqueClassSubjects(rows) ==> UniqueClassSubjects(r.value)
  {
    var r := Insert(rows, ClassSubjectKey, cs);
    assert r.Err? ==> exists i :: 0 <= i < |rows| && ClassSubjectKey(rows[i]) == ClassSubjectKey(cs);
    r
  }

  function CreateResult(rows: seq<ResultRow>, row: ResultRow): (r: Result<seq<ResultRow>, IntegrityError>)
    ensures r.Err? <==> exists i :: 0 <= i < |rows| && rows[i].student == row.student && rows[i].subject == row.subject && rows[i].examType == row.examType && rows[i].term == row.term
    ensures r.Ok? ==> r.value == rows + [row]
    ensures r.Ok? && UniqueResults(rows) ==> UniqueResults(r.value)
  {
    var r := Insert(rows, ResultKey, row);
    assert r.Err? ==> exists i :: 0 <= i < |rows| && ResultKey(rows[i]) == ResultKey(row);
    r
  }

  function CreateComment(rows: seq<ReportComment>, c: ReportComment): (r: Result<seq<ReportComment>, IntegrityError>)
    ensures r.Err? <==> exists i :: 0 <= i < |rows| && rows[i].report == c.report && rows[i].commentType == c.commentType
    ensures r.Ok? ==> r.value == rows + [c]
    ensures r.Ok? && UniqueComments(rows) ==> UniqueComments(r.value)
  {
    var r := Insert(rows, CommentKey, c);
    assert r.Err? ==> exists i :: 0 <= i < |rows| && CommentKey(rows[i]) == CommentKey(c);
    r
  }
}
