/** The academics admin pages: the term-report status badge, the average
    score column, the comment previews and the "create multiple arms" bulk
    action on classes. (The results admin's coloured grade badge is
    `Grading.GradeBadge`.) */
module AcademicsAdmin {
  import opened Wrappers
  import opened Colours
  import opened Sums
  import opened Text
  import opened Tables
  import opened Academics

  datatype ReportStatus = NoResults | Incomplete | Complete

  /** `TermReportAdmin.get_status`: the status and the colour it is shown in. */
  function ReportStatusOf(resultCount: nat, commentCount: nat): (r: (ReportStatus, Colour))
    ensures r.0 == NoResults <==> resultCount == 0
    ensures r.0 == Incomplete <==> resultCount > 0 && commentCount == 0
    ensures r.0 == Complete <==> resultCount > 0 && commentCount > 0
    ensures r.1 == Red <==> r.0 == NoResults
    ensures r.1 == Orange <==> r.0 == Incomplete
    ensures r.1 == Green <==> r.0 == Complete
  {
    if resultCount == 0 then (NoResults, Red)
    else if commentCount == 0 then (Incomplete, Orange)
    else (Complete, Green)
  }

  /** `TermReportAdmin.get_average_score`: the mean of the report's scores, or
      None where the page shows "N/A" (no results, or a mean of 0, which is
      falsy). */
  function AverageScoreShown(scores: seq<real>): (r: Option<real>)
    ensures r.None? <==> scores == [] || MeanOrZero(scores) == 0.0
    ensures r.Some? ==> r.value == MeanOrZero(scores) && r.value != 0.0
  {
    if scores == [] then None
    else
      var avg := SumReal(scores) / |scores| as real;
      if avg != 0.0 then Some(avg) else None
  }

  /** `ReportCommentAdmin.get_comment_preview`: at most 50 characters, then "...". */
  function CommentPreview(comment: string): (r: string)
    ensures |comment| <= 50 ==> r == comment
    ensures |comment| > 50 ==> r == comment[..50] + "..."
  {
    Preview(comment, 50)
  }

  /** `PredefinedCommentAdmin.get_text_preview`: at most 100 characters, then "...". */
  function TextPreview(text: string): (r: string)
    ensures |text| <= 100 ==> r == text
    ensures |text| > 100 ==> r == text[..100] + "..."
  {
    Preview(text, 100)
  }

  // ---------------------------------------------------------------------
  // ClassAdmin.duplicate_class_structure

  /** The two tables the action writes. A class's id is its index. */
  datatype Registry = Registry(classes: seq<SchoolClass>, classSubjects: seq<ClassSubject>)

  /** Where the action stands: the tables, the count so far, and whether an
      IntegrityError has ended it. */
  datatype Run = Run(reg: Registry, count: nat, failed: bool)

  /** Both uniqueness constraints hold and every class subject names an existing class. */
  predicate RegistryValid(reg: Registry) {
    UniqueClasses(reg.classes) && UniqueClassSubjects(reg.classSubjects) &&
    forall i :: 0 <= i < |reg.classSubjects| ==> reg.classSubjects[i].classId < |reg.classes|
  }

  /** `class_obj.classsubject_set.all()`: the rows of one class, in table order. */
  function SubjectsOf(rows: seq<ClassSubject>, classId: nat): seq<ClassSubject> {
    if rows == [] then []
    else
      var last := rows[|rows| - 1];
      SubjectsOf(rows[..|rows| - 1], classId) + (if last.classId == classId then [last] else [])
  }

  /** The copies made for a new class: same subject and teacher, new class. */
  function Retarget(rows: seq<ClassSubject>, newId: nat): seq<ClassSubject> {
    seq(|rows|, k requires 0 <= k < |rows| => rows[k].(classId := newId))
  }

  /** The new class for `arm`: same name, short name and level. */
  function ArmCopy(c: SchoolClass, arm: string): SchoolClass {
    c.(arm := Some(arm))
  }

  /** One `Class.objects.create(...)` followed by the copies of the source
      class's subjects; None when the (level, arm) pair is taken. */
  function CreateArm(reg: Registry, c: SchoolClass, sourceId: nat, arm: string): Option<Registry> {
    match CreateClass(reg.classes, ArmCopy(c, arm))
    case Err(_) => None
    case Ok(classes) => Some(Registry(classes, reg.classSubjects + Retarget(SubjectsOf(reg.classSubjects, sourceId), |reg.classes|)))
  }

  /** The body of the outer loop for one selected class: nothing for a class
      with an arm, otherwise an Alpha and then a Beta copy, counting each. */
  function DuplicateOne(reg: Registry, c: SchoolClass, sourceId: nat): Run {
    if HasArm(c) then Run(reg, 0, false)
    else
      match CreateArm(reg, c, sourceId, "Alpha")
      case None => Run(reg, 0, true)
      case Some(r1) =>
        match CreateArm(r1, c, sourceId, "Beta")
        case None => Run(r1, 1, true)
        case Some(r2) => Run(r2, 2, false)
  }

  /** The whole action over the selected ids, `originals` being the classes
      as the queryset read them. An IntegrityError ends the action; the rows
      created before it stay (the action is not wrapped in a transaction). */
  function Duplicate(reg: Registry, originals: seq<SchoolClass>, selected: seq<nat>): Run
    requires forall i :: 0 <= i < |selected| ==> selected[i] < |originals|
  {
    if selected == [] then Run(reg, 0, false)
    else
      var prev := Duplicate(reg, originals, selected[..|selected| - 1]);
      if prev.failed then prev
      else
        var id := selected[|selected| - 1];
        var one := DuplicateOne(prev.reg, originals[id], id);
        Run(one.reg, prev.count + one.count, one.failed)
  }

  /** How many selected classes have no arm. */
  function ArmlessCount(originals: seq<SchoolClass>, selected: seq<nat>): nat
    requires forall i :: 0 <= i < |selected| ==> selected[i] < |originals|
  {
    if selected == [] then 0
    else ArmlessCount(originals, selected[..|selected| - 1]) + (if HasArm(originals[selected[|selected| - 1]]) then 0 else 1)
  }

  /** A run that is not cut short creates two classes per selected class
      without an arm, and reports that number. */
  lemma {:induction false} DuplicateCount(reg: Registry, originals: seq<SchoolClass>, selected: seq<nat>)
    requires forall i :: 0 <= i < |selected| ==> selected[i] < |originals|
    ensures !Duplicate(reg, originals, selected).failed ==>
              Duplicate(reg, originals, selected).count == 2 * ArmlessCount(originals, selected) &&
              |Duplicate(reg, originals, selected).reg.classes| == |reg.classes| + 2 * ArmlessCount(originals, selected)
  {
    if selected != [] {
      var init := selected[..|selected| - 1];
      DuplicateCount(reg, originals, init);
    }
  }

  /** Each armless class yields exactly an Alpha and a Beta class with its
      name, short name and level, appended in that order. */
  lemma ArmlessYieldsAlphaAndBeta(reg: Registry, c: SchoolClass, sourceId: nat)
    requires !HasArm(c)
    requires !DuplicateOne(reg, c, sourceId).failed
    ensures DuplicateOne(reg, c, sourceId).reg.classes == reg.classes + [ArmCopy(c, "Alpha"), ArmCopy(c, "Beta")]
    ensures DuplicateOne(reg, c, sourceId).count == 2
  {
    var r1 := CreateArm(reg, c, sourceId, "Alpha").value;
    assert r1.classes == reg.classes + [ArmCopy(c, "Alpha")];
  }

  lemma {:induction false} SubjectsOfFacts(rows: seq<ClassSubject>, classId: nat)
    requires UniqueClassSubjects(rows)
    ensures forall k :: 0 <= k < |SubjectsOf(rows, classId)| ==> SubjectsOf(rows, classId)[k] in rows && SubjectsOf(rows, classId)[k].classId == classId
    ensures forall a, b :: 0 <= a < b < |SubjectsOf(rows, classId)| ==> SubjectsOf(rows, classId)[a].subject != SubjectsOf(rows, classId)[b].subject
  {
    if rows != [] {
      var init := rows[..|rows| - 1];
      var last := rows[|rows| - 1];
      assert UniqueClassSubjects(init) by {
        assert forall i :: 0 <= i < |init| ==> init[i] == rows[i];
      }
      SubjectsOfFacts(init, classId);
      var s := SubjectsOf(init, classId);
      forall k | 0 <= k < |s|
        ensures s[k].subject != last.subject || last.classId != classId
      {
        var i :| 0 <= i < |init| && init[i] == s[k];
        assert rows[i] == s[k];
      }
    }
  }

  /** Copying a class's subjects onto a new class keeps the registry valid. */
  lemma CopyKeepsValid(reg: Registry, classes: seq<SchoolClass>, sourceId: nat)
    requires RegistryValid(reg)
    requires UniqueClasses(classes) && |classes| == |reg.classes| + 1
    ensures RegistryValid(Registry(classes, reg.classSubjects + Retarget(SubjectsOf(reg.classSubjects, sourceId), |reg.classes|)))
  {
    var copies := Retarget(SubjectsOf(reg.classSubjects, sourceId), |reg.classes|);
    SubjectsOfFacts(reg.classSubjects, sourceId);
    var all := reg.classSubjects + copies;
    forall i, j | 0 <= i < j < |all|
      ensures all[i].classId != all[j].classId || all[i].subject != all[j].subject
    {
      if j < |reg.classSubjects| {
        assert all[i] == reg.classSubjects[i] && all[j] == reg.classSubjects[j];
      } else if i < |reg.classSubjects| {
        assert all[i].classId < |reg.classes|;
      }
    }
  }

  /** The admin's view of the two tables. */
  class ClassRegistry {
    var classes: seq<SchoolClass>
    var classSubjects: seq<ClassSubject>

    predicate Valid()
      reads this
    {
      RegistryValid(Registry(classes, classSubjects))
    }

    constructor ()
      ensures Valid() && classes == [] && classSubjects == []
    {
      classes := [];
      classSubjects := [];
    }

    /** Creates the `arm` copy of `c` and copies the subjects of class `sourceId` onto it. */
    method CreateArmCopy(c: SchoolClass, sourceId: nat, arm: string) returns (ok: bool)
      requires Valid()
      modifies this
      ensures Valid()
      ensures ok <==> CreateArm(old(Registry(classes, classSubjects)), c, sourceId, arm).Some?
      ensures ok ==> Registry(classes, classSubjects) == CreateArm(old(Registry(classes, classSubjects)), c, sourceId, arm).value
      ensures !ok ==> classes == old(classes) && classSubjects == old(classSubjects)
    {
      var created := CreateClass(classes, ArmCopy(c, arm));
      if created.Err? {
        return false;
      }
      ghost var before := Registry(classes, classSubjects);
      var newId := |classes|;
      var subjects := SubjectsOf(classSubjects, sourceId);
      CopyKeepsValid(before, created.value, sourceId);
      classes := created.value;
      var k := 0;
      while k < |subjects|
        invariant 0 <= k <= |subjects|
        invariant classes == created.value
        invariant classSubjects == before.classSubjects + Retarget(subjects[..k], newId)
      {
        assert Retarget(subjects[..k + 1], newId) == Retarget(subjects[..k], newId) + [subjects[k].(classId := newId)];
        classSubjects := classSubjects + [subjects[k].(classId := newId)];
        k := k + 1;
      }
      assert subjects[..k] == subjects;
      ok := true;
    }

    /** `duplicate_class_structure(queryset)`: Ok(count) for the message, or
        the IntegrityError that ended the action. */
    method DuplicateClassStructure(selected: seq<nat>) returns (outcome: Result<nat, IntegrityError>)
      requires Valid()
      requires forall i :: 0 <= i < |selected| ==> selected[i] < |classes|
      modifies this
      ensures Valid()
      ensures Registry(classes, classSubjects) == Duplicate(old(Registry(classes, classSubjects)), old(classes), selected).reg
      ensures outcome.Err? <==> Duplicate(old(Registry(classes, classSubjects)), old(classes), selected).failed
      ensures outcome.Ok? ==> outcome.value == Duplicate(old(Registry(classes, classSubjects)), old(classes), selected).count
    {
      ghost var start := Registry(classes, classSubjects);
      var originals := classes;
      var count := 0;
      var i := 0;
      while i < |selected|
        invariant 0 <= i <= |selected|
        invariant Valid()
        invariant Duplicate(start, originals, selected[..i]) == Run(Registry(classes, classSubjects), count, false)
      {
        assert selected[..i + 1][..i] == selected[..i];
        var id := selected[i];
        var c := originals[id];
        if !HasArm(c) {
          var ok := CreateArmCopy(c, id, "Alpha");
          if !ok {
            outcome := Err(DuplicateKey);
            DuplicateStops(start, originals, selected, i + 1);
            return;
          }
          count := count + 1;
          ok := CreateArmCopy(c, id, "Beta");
          if !ok {
            outcome := Err(DuplicateKey);
            DuplicateStops(start, originals, selected, i + 1);
            return;
          }
          count := count + 1;
        }
        i := i + 1;
      }
      assert selected[..i] == selected;
      outcome := Ok(count);
    }
  }

  /** Once a run has failed, the remaining selected classes change nothing. */
  lemma {:induction false} DuplicateStops(reg: Registry, originals: seq<SchoolClass>, selected: seq<nat>, n: nat)
    requires forall i :: 0 <= i < |selected| ==> selected[i] < |originals|
    requires n <= |selected|
    requires Duplicate(reg, originals, selected[..n]).failed
    ensures Duplicate(reg, originals, selected) == Duplicate(reg, originals, selected[..n])
    decreases |selected| - n
  {
    if n < |selected| {
      assert selected[..|selected| - 1][..n] == selected[..n];
      DuplicateStops(reg, originals, selected[..|selected| - 1], n);
    } else {
      assert selected[..n] == selected;
    }
  }
}
