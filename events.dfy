/** The events admin: an event's status against the current time, its
    duration text, its date range, and the publish actions. Instants are
    whole seconds (UTC) and a day is 86400 seconds; the current time is a
    parameter. Python's `timedelta` keeps `days` floored and `seconds` in
    [0, 86400), which is exactly Dafny's `/` and `%` by a positive divisor. */
module Events {
  import opened Colours
  import opened Text

  /** `Event`; `is_published` defaults to False. */
  datatype Event = Event(title: string, start: int, end: int, isPublished: bool)

  function NewEvent(title: string, start: int, end: int): (e: Event)
    ensures !e.isPublished && e.start == start && e.end == end
  {
    Event(title, start, end, false)
  }

  // ---------------------------------------------------------------------
  // Status

  datatype EventStatus = Completed | Ongoing | Upcoming | Scheduled

  /** `get_status`, with the badge colour. */
  function StatusOf(e: Event, now: int): (r: (EventStatus, Colour))
    ensures r.0 == Completed <==> e.end < now
    ensures r.0 == Ongoing <==> e.start <= now <= e.end
    ensures r.0 == Upcoming <==> now <= e.end && now < e.start
    ensures r.0 != Scheduled
  {
    if e.end < now then (Completed, Gray)
    else if e.start <= now <= e.end then (Ongoing, Green)
    else if e.start > now then (Upcoming, Blue)
    else (Scheduled, Orange)
  }

  /** An event whose end is not before its start moves from Upcoming to
      Ongoing to Completed as time passes, never back. */
  lemma StatusAdvances(e: Event, t1: int, t2: int)
    requires e.start <= e.end && t1 <= t2
    ensures StatusOf(e, t1).0 == Completed ==> StatusOf(e, t2).0 == Completed
    ensures StatusOf(e, t2).0 == Upcoming ==> StatusOf(e, t1).0 == Upcoming
  {
  }

  // ---------------------------------------------------------------------
  // Duration

  const SecondsPerDay: int := 86400

  /** `timedelta.days`, and the hours and minutes `divmod` takes from `timedelta.seconds`. */
  datatype Span = Span(days: int, hours: nat, minutes: nat)

  /** `get_duration`'s arithmetic on `end - start`. */
  function DurationOf(e: Event): (d: Span)
    ensures d.hours < 24 && d.minutes < 60
    ensures d.days * SecondsPerDay + d.hours * 3600 + d.minutes * 60 <= e.end - e.start
    ensures e.end - e.start < d.days * SecondsPerDay + d.hours * 3600 + d.minutes * 60 + 60
  {
    var total := e.end - e.start;
    var seconds := total % SecondsPerDay;
    Span(total / SecondsPerDay, seconds / 3600, seconds % 3600 / 60)
  }

  /** Within one day of length the day count is 0; the parts shown are the
      whole minutes of the duration. */
  lemma DurationOfShortEvent(e: Event)
    requires 0 <= e.end - e.start < SecondsPerDay
    ensures DurationOf(e).days == 0
    ensures DurationOf(e).hours * 60 + DurationOf(e).minutes == (e.end - e.start) / 60
  {
  }

  /** `get_duration`'s text. */
  function DurationText(e: Event): (r: string)
    ensures var d := DurationOf(e); var tail := NatToString(d.minutes) + "m";
      |tail| <= |r| && r[|r| - |tail|..] == tail
    ensures var d := DurationOf(e);
      d.days > 0 ==> |NatToString(d.days)| + 2 <= |r| && r[..|NatToString(d.days)| + 2] == NatToString(d.days) + "d "
    ensures var d := DurationOf(e);
      d.days <= 0 && d.hours > 0 ==> |NatToString(d.hours)| + 2 <= |r| && r[..|NatToString(d.hours)| + 2] == NatToString(d.hours) + "h "
    ensures var d := DurationOf(e);
      d.hours == 0 ==> 'h' !in r
    ensures var d := DurationOf(e);
      d.days <= 0 ==> 'd' !in r
  {
    var d := DurationOf(e);
    if d.days > 0 then
      if d.hours > 0 then NatToString(d.days) + "d " + NatToString(d.hours) + "h " + NatToString(d.minutes) + "m"
      else NatToString(d.days) + "d " + NatToString(d.minutes) + "m"
    else if d.hours > 0 then NatToString(d.hours) + "h " + NatToString(d.minutes) + "m"
    else NatToString(d.minutes) + "m"
  }

  /** As written, an event ending one second before it starts is shown as
      lasting "23h 59m": `timedelta` floors the days to -1 and keeps the
      seconds positive. */
  lemma BackwardEventShowsAlmostADay()
    ensures DurationOf(Event("", 100, 99, false)) == Span(-1, 23, 59)
    ensures DurationText(Event("", 100, 99, false)) == "23h 59m"
  {
    assert NatToString(23) == "23";
    assert NatToString(59) == "59";
  }

  // ---------------------------------------------------------------------
  // Date range

  /** The calendar day of an instant (`.date()`) and the time within it. */
  function DayOf(t: int): int {
    t / SecondsPerDay
  }

  function TimeOfDay(t: int): (s: nat)
    ensures s < SecondsPerDay && DayOf(t) * SecondsPerDay + s == t
  {
    t % SecondsPerDay
  }

  /** What `get_date_range` shows: one date with two times when the event
      starts and ends on the same day, else two full timestamps. */
  datatype DateRange = SameDay(day: int, startTime: nat, endTime: nat) | Between(start: int, end: int)

  function DateRangeOf(e: Event): (r: DateRange)
    ensures r.SameDay? <==> DayOf(e.start) == DayOf(e.end)
    ensures r.SameDay? ==> r.day * SecondsPerDay + r.startTime == e.start && r.day * SecondsPerDay + r.endTime == e.end
    ensures r.SameDay? ==> r.startTime < SecondsPerDay && r.endTime < SecondsPerDay
    ensures r.Between? ==> r.start == e.start && r.end == e.end
  {
    if DayOf(e.start) == DayOf(e.end) then SameDay(DayOf(e.start), TimeOfDay(e.start), TimeOfDay(e.end))
    else Between(e.start, e.end)
  }

  /** Every event shorter than its remaining day is shown as a same-day range. */
  lemma ShortEventOnOneDay(e: Event)
    requires e.start <= e.end && TimeOfDay(e.start) + (e.end - e.start) < SecondsPerDay
    ensures DateRangeOf(e).SameDay?
  {
    assert DayOf(e.start) * SecondsPerDay + TimeOfDay(e.start) == e.start;
    var d := DayOf(e.start);
    assert d * SecondsPerDay <= e.end < (d + 1) * SecondsPerDay;
    assert DayOf(e.end) == d;
  }

  /** The text, given `strftime` for "%Y-%m-%d %H:%M", "%Y-%m-%d" and "%H:%M". */
  function DateRangeText(e: Event, stamp: int -> string, date: int -> string, time: int -> string): (r: string)
    ensures DateRangeOf(e).SameDay? ==> r == date(e.start) + " (" + time(e.start) + " - " + time(e.end) + ")"
    ensures DateRangeOf(e).Between? ==> r == stamp(e.start) + " to " + stamp(e.end)
  {
    match DateRangeOf(e)
    case SameDay(_, _, _) => date(e.start) + " (" + time(e.start) + " - " + time(e.end) + ")"
    case Between(_, _) => stamp(e.start) + " to " + stamp(e.end)
  }

  // ---------------------------------------------------------------------
  // Publish actions

  /** The events after `mark_as_published` (true) or `mark_as_unpublished` (false). */
  function Publish(events: seq<Event>, selected: set<nat>, value: bool): (r: seq<Event>)
    ensures |r| == |events|
    ensures forall k :: 0 <= k < |r| ==> r[k].isPublished == (if k in selected then value else events[k].isPublished)
    ensures forall k :: 0 <= k < |r| ==> r[k].(isPublished := events[k].isPublished) == events[k]
  {
    seq(|events|, k requires 0 <= k < |events| => if k in selected then events[k].(isPublished := value) else events[k])
  }

  /** Publishing then unpublishing the same selection leaves the selection
      unpublished and everything else as it was. */
  lemma PublishThenUnpublish(events: seq<Event>, selected: set<nat>)
    ensures forall k :: 0 <= k < |events| ==>
      Publish(Publish(events, selected, true), selected, false)[k] == (if k in selected then events[k].(isPublished := false) else events[k])
  {
  }

  /** The events table. */
  class EventBoard {
    var events: seq<Event>

    constructor (events: seq<Event>)
      ensures this.events == events
    {
      this.events := events;
    }

    /** `queryset.update(is_published=value)` on the selected events. */
    method SetPublished(selected: set<nat>, value: bool)
      modifies this
      ensures events == Publish(old(events), selected, value)
    {
      var before := events;
      events := seq(|before|, k requires 0 <= k < |before| => if k in selected then before[k].(isPublished := value) else before[k]);
    }
  }
}
