/** Academic sessions and terms: the fixed choice lists, the term's display
    text, and the rule that at most one session (and at most one term) is
    current. Both tables keep that rule the same way, so the table is one
    generic class used for both. */
module Calendar {
  import opened Wrappers
  import opened Text

  /** A `SchoolSession`; dates are day numbers. */
  datatype SessionData = SessionData(name: string, startDate: int, endDate: int)

  /** A `SchoolTerm`; `session` is the index of its session. */
  datatype TermData = TermData(session: nat, name: string, startDate: int, endDate: int)

  /** A row of either table with its `is_current` flag. */
  datatype Row<T> = Row(data: T, isCurrent: bool)

  /** A new session or term: `is_current` defaults to False. */
  function NewRow<T>(data: T): (r: Row<T>)
    ensures !r.isCurrent && r.data == data
  {
    Row(data, false)
  }

  // ---------------------------------------------------------------------
  // Choice lists

  /** "x/x+1". */
  function SessionLabel(year: nat): string {
    NatToString(year) + "/" + NatToString(year + 1)
  }

  /** `SESS`: (label, label) for every year from 2014 to 2069. */
  function SessionChoices(): (r: seq<(string, string)>)
    ensures |r| == 56
    ensures forall i :: 0 <= i < |r| ==> r[i].0 == r[i].1 && r[i].0 == SessionLabel(2014 + i)
  {
    seq(56, i requires 0 <= i < 56 => (SessionLabel(2014 + i), SessionLabel(2014 + i)))
  }

  /** `TERM`. */
  const TermNames: seq<string> := ["First Term", "Second Term", "Third Term"]

  lemma FourDigits(n: nat)
    requires 1000 <= n < 10000
    ensures |NatToString(n)| == 4
  {
    assert NatToString(n) == NatToString(n / 10) + [DigitChar(n % 10)];
    assert NatToString(n / 10) == NatToString(n / 100) + [DigitChar(n / 10 % 10)];
    assert NatToString(n / 100) == NatToString(n / 1000) + [DigitChar(n / 100 % 10)];
  }

  /** The list runs from "2014/2015" to "2069/2070". */
  lemma SessionChoicesRange()
    ensures SessionChoices()[0].0 == "2014/2015"
    ensures SessionChoices()[55].0 == "2069/2070"
  {
    assert NatToString(2014) == "2014";
    assert NatToString(2015) == "2015";
    assert NatToString(2069) == "2069";
    assert NatToString(2070) == "2070";
  }

  /** Each label names its own pair of consecutive years: the year before the
      slash reads back as `2014 + i` and the one after it as one more. */
  lemma SessionLabelsReadBack(i: nat)
    requires i < 56
    ensures |SessionChoices()[i].0| == 9 && SessionChoices()[i].0[4] == '/'
    ensures IsDigits(SessionChoices()[i].0[..4]) && StringToNat(SessionChoices()[i].0[..4]) == 2014 + i
    ensures IsDigits(SessionChoices()[i].0[5..]) && StringToNat(SessionChoices()[i].0[5..]) == 2015 + i
  {
    var shown := SessionChoices()[i].0;
    FourDigits(2014 + i);
    FourDigits(2015 + i);
    assert shown[..4] == NatToString(2014 + i);
    assert shown[5..] == NatToString(2015 + i);
    StringToNatOfNatToString(2014 + i);
    StringToNatOfNatToString(2015 + i);
  }

  /** No session label appears twice. */
  lemma SessionChoicesDistinct(i: nat, j: nat)
    requires i < j < 56
    ensures SessionChoices()[i].0 != SessionChoices()[j].0
  {
    SessionLabelsReadBack(i);
    SessionLabelsReadBack(j);
  }

  /** `SchoolTerm.__str__`: "term name - session name". */
  function TermStr(term: TermData, sessions: seq<Row<SessionData>>): (r: string)
    requires term.session < |sessions|
    ensures |term.name| <= |r| && r[..|term.name|] == term.name
    ensures r[|term.name|..] == " - " + sessions[term.session].data.name
  {
    term.name + " - " + sessions[term.session].data.name
  }

  // ---------------------------------------------------------------------
  // "At most one current"

  predicate AtMostOneCurrent<T>(rows: seq<Row<T>>) {
    forall i, j :: 0 <= i < j < |rows| && rows[i].isCurrent ==> !rows[j].isCurrent
  }

  function ClearFlag<T>(r: Row<T>): Row<T> {
    r.(isCurrent := false)
  }

  /** `save_model` in the admin for a new row (`target` None) or row `target`:
      when the saved row is current, every other row's flag is cleared first. */
  function AdminSave<T>(rows: seq<Row<T>>, target: Option<nat>, row: Row<T>): seq<Row<T>>
    requires target.Some? ==> target.value < |rows|
  {
    var cleared := if row.isCurrent then seq(|rows|, k requires 0 <= k < |rows| => if Some(k) == target then rows[k] else ClearFlag(rows[k])) else rows;
    if target.Some? then cleared[target.value := row] else cleared + [row]
  }

  /** `create_session` / `create_term`: when the new row is current, all
      flags are cleared, then the row is added. */
  function ViewCreate<T>(rows: seq<Row<T>>, row: Row<T>): seq<Row<T>> {
    (if row.isCurrent then seq(|rows|, k requires 0 <= k < |rows| => ClearFlag(rows[k])) else rows) + [row]
  }

  /** Index of the row an admin save writes. */
  function SavedIndex<T>(rows: seq<Row<T>>, target: Option<nat>): nat {
    if target.Some? then target.value else |rows|
  }

  /** Saving a current row leaves it the only current one; saving a
      non-current row changes no other row's flag; either way "at most one
      current" is kept. */
  lemma AdminSaveKeepsOneCurrent<T>(rows: seq<Row<T>>, target: Option<nat>, row: Row<T>)
    requires target.Some? ==> target.value < |rows|
    ensures |AdminSave(rows, target, row)| == (if target.Some? then |rows| else |rows| + 1)
    ensures AdminSave(rows, target, row)[SavedIndex(rows, target)] == row
    ensures row.isCurrent ==> forall k :: 0 <= k < |AdminSave(rows, target, row)| && k != SavedIndex(rows, target) ==> !AdminSave(rows, target, row)[k].isCurrent
    ensures !row.isCurrent ==> forall k :: 0 <= k < |rows| && k != SavedIndex(rows, target) ==> AdminSave(rows, target, row)[k] == rows[k]
    ensures row.isCurrent || AtMostOneCurrent(rows) ==> AtMostOneCurrent(AdminSave(rows, target, row))
  {
    var r := AdminSave(rows, target, row);
    var s := SavedIndex(rows, target);
    if row.isCurrent {
      forall i, j | 0 <= i < j < |r| && r[i].isCurrent
        ensures !r[j].isCurrent
      {
        assert i == s;
      }
    } else if AtMostOneCurrent(rows) {
      forall i, j | 0 <= i < j < |r| && r[i].isCurrent
        ensures !r[j].isCurrent
      {
        assert i != s && j != s ==> r[i] == rows[i] && r[j] == rows[j];
      }
    }
  }

  /** Creating through the views: the new row is last; if it is current it
      is the only current row; otherwise no flag changes. */
  lemma ViewCreateKeepsOneCurrent<T>(rows: seq<Row<T>>, row: Row<T>)
    ensures |ViewCreate(rows, row)| == |rows| + 1 && ViewCreate(rows, row)[|rows|] == row
    ensures row.isCurrent ==> forall k :: 0 <= k < |rows| ==> ViewCreate(rows, row)[k] == ClearFlag(rows[k])
    ensures !row.isCurrent ==> ViewCreate(rows, row)[..|rows|] == rows
    ensures row.isCurrent || AtMostOneCurrent(rows) ==> AtMostOneCurrent(ViewCreate(rows, row))
  {
    var r := ViewCreate(rows, row);
    if !row.isCurrent {
      assert r[..|rows|] == rows;
    }
  }

  /** The sessions table or the terms table. */
  class CurrentTable<T> {
    var rows: seq<Row<T>>

    predicate Valid()
      reads this
    {
      AtMostOneCurrent(rows)
    }

    constructor ()
      ensures rows == [] && Valid()
    {
      rows := [];
    }

    /** `SchoolSessionAdmin.save_model` / `SchoolTermAdmin.save_model`. */
    method SaveFromAdmin(target: Option<nat>, row: Row<T>) returns (id: nat)
      requires Valid()
      requires target.Some? ==> target.value < |rows|
      modifies this
      ensures Valid()
      ensures id == SavedIndex(old(rows), target)
      ensures rows == AdminSave(old(rows), target, row)
    {
      AdminSaveKeepsOneCurrent(rows, target, row);
      var before := rows;
      if row.isCurrent {
        rows := seq(|before|, k requires 0 <= k < |before| => if Some(k) == target then before[k] else ClearFlag(before[k]));
      }
      if target.Some? {
        id := target.value;
        rows := rows[id := row];
      } else {
        id := |rows|;
        rows := rows + [row];
      }
    }

    /** `create_session` / `create_term` after the form has validated. */
    method CreateFromView(row: Row<T>)
      requires Valid()
      modifies this
      ensures Valid()
      ensures rows == ViewCreate(old(rows), row)
    {
      ViewCreateKeepsOneCurrent(rows, row);
      var before := rows;
      if row.isCurrent {
        rows := seq(|before|, k requires 0 <= k < |before| => ClearFlag(before[k]));
      }
      rows := rows + [row];
    }

    /** `SchoolTerm.objects.filter(is_current=True).first()`. */
    function Current(): (r: Option<nat>)
      reads this
      ensures r.Some? ==> r.value < |rows| && rows[r.value].isCurrent
      ensures r.None? <==> forall k :: 0 <= k < |rows| ==> !rows[k].isCurrent
    {
      FirstCurrent(rows)
    }
  }

  function FirstCurrent<T>(rows: seq<Row<T>>): (r: Option<nat>)
    ensures r.Some? ==> r.value < |rows| && rows[r.value].isCurrent && forall k :: 0 <= k < r.value ==> !rows[k].isCurrent
    ensures r.None? <==> forall k :: 0 <= k < |rows| ==> !rows[k].isCurrent
  {
    if rows == [] then None
    else if rows[0].isCurrent then Some(0)
    else
      var rest := FirstCurrent(rows[1..]);
      assert forall k :: 1 <= k < |rows| ==> rows[k] == rows[1..][k - 1];
      if rest.Some? then Some(rest.value + 1) else None
  }
}
