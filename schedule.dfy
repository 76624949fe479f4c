/**
 * The weekly schedule page: seven day columns from Sunday to Saturday, each
 * listing the day's events by start time, with week navigation and the
 * event details dialog.
 */
module Schedule {
  import opened Wrappers
  import opened Seqs
  import opened Time
  import opened Events
  import opened EventOrder
  import MonthCalendar
  import EventDetailsModal

  const Colors: ByKind := ByKind(
    "border-red-400 bg-red-50",
    "border-blue-400 bg-blue-50",
    "border-amber-400 bg-amber-50",
    "border-purple-400 bg-purple-50")

  /** `getEventTypeColor`: one class per named category; 'other' and unknown strings share purple. */
  function EventTypeColor(kind: string): (r: string)
    ensures r == "border-red-400 bg-red-50" <==> kind == "hearing"
    ensures r == "border-blue-400 bg-blue-50" <==> kind == "meeting"
    ensures r == "border-amber-400 bg-amber-50" <==> kind == "deadline"
    ensures r == "border-purple-400 bg-purple-50" <==> Classify(kind) == Other
  {
    Colors.Of(Classify(kind))
  }

  /**
   * `getEventsForDay`: the events starting on day `d`, ascending by start.
   * Every such event is listed, as often as it occurs in `events`, and no other.
   */
  function EventsForDay(events: seq<Event>, d: Day): (r: seq<Event>)
    ensures forall e :: e in r <==> e in events && StartsOn(e, d)
    ensures forall e {:trigger multiset(r)[e]} :: multiset(r)[e] == if StartsOn(e, d) then multiset(events)[e] else 0
    ensures SortedByStart(r)
  {
    FilterCount(events, DayFilter(d));
    var r := SortByStart(Filter(events, DayFilter(d)));
    assert forall e :: e in r <==> e in multiset(r);
    r
  }

  /**
   * Both day-bucketing call sites use the same day-match rule: the schedule's
   * column is the month cell's list, sorted by start.
   */
  lemma EventsForDayIsSortedMonthBucket(events: seq<Event>, d: Day)
    ensures EventsForDay(events, d) == SortByStart(MonthCalendar.EventsForDay(events, d))
  {
  }

  /** A day whose events already come in start order shows them in the column as they are. */
  lemma OrderedBucketUnchanged(events: seq<Event>, d: Day)
    requires SortedByStart(MonthCalendar.EventsForDay(events, d))
    ensures EventsForDay(events, d) == MonthCalendar.EventsForDay(events, d)
  {
    SortKeepsSorted(MonthCalendar.EventsForDay(events, d));
  }

  /** Events with the same start keep their input order within a column. */
  lemma EventsForDayStable(events: seq<Event>, d: Day, k: Instant)
    ensures StartingAt(EventsForDay(events, d), k) == StartingAt(MonthCalendar.EventsForDay(events, d), k)
  {
    EventsForDayIsSortedMonthBucket(events, d);
    SortStable(MonthCalendar.EventsForDay(events, d), k);
  }

  /**
   * `eachDayOfInterval(startOfWeek, endOfWeek)`: seven consecutive days from
   * the Sunday on or before the day of `currentWeek`, which is among them.
   */
  function WeekDays(currentWeek: Instant): (r: seq<Day>)
    ensures |r| == 7
    ensures Weekday(r[0]) == 0
    ensures forall i :: 0 <= i < 7 ==> r[i] == r[0] + i
    ensures DayOf(currentWeek) in r
  {
    var s := WeekStart(DayOf(currentWeek));
    var r := seq(7, i => s + i);
    assert r[DayOf(currentWeek) - s] == DayOf(currentWeek);
    r
  }

  /**
   * The seven columns: every event that starts within the week is listed in
   * exactly the column of its start day, as often as it occurs in `events`,
   * and columns are in start order; column `i` is `getEventsForDay` of the
   * week's `i`-th day.
   */
  function WeekColumns(events: seq<Event>, currentWeek: Instant): (cols: seq<seq<Event>>)
    ensures |cols| == 7
    ensures forall i, e :: 0 <= i < 7 && e in cols[i] <==>
              0 <= i < 7 && e in events && DayOf(e.start) == WeekDays(currentWeek)[0] + i
    ensures forall i, e :: 0 <= i < 7 ==>
              multiset(cols[i])[e] == if DayOf(e.start) == WeekDays(currentWeek)[0] + i then multiset(events)[e] else 0
    ensures forall i :: 0 <= i < 7 ==> SortedByStart(cols[i])
    ensures forall i :: 0 <= i < 7 ==> cols[i] == EventsForDay(events, WeekDays(currentWeek)[i])
  {
    var days := WeekDays(currentWeek);
    seq(7, i requires 0 <= i < 7 => EventsForDay(events, days[i]))
  }

  /** The schedule page's state. */
  class SchedulePage {
    const events: seq<Event>
    var currentWeek: Instant
    var selectedEvent: Option<Event>
    var isModalOpen: bool

    /** Opens on the week of `now`, with no event selected and the dialog closed. */
    constructor (events: seq<Event>, now: Instant)
      ensures this.events == events && currentWeek == now
      ensures selectedEvent == None && !isModalOpen
    {
      this.events := events;
      currentWeek := now;
      selectedEvent := None;
      isModalOpen := false;
    }

    function Columns(): seq<seq<Event>>
      reads this
    {
      WeekColumns(events, currentWeek)
    }

    function Dialog(): Option<EventDetailsModal.Dialog>
      reads this
    {
      EventDetailsModal.Render(selectedEvent, isModalOpen)
    }

    /** `subWeeks(currentWeek, 1)`: the displayed week starts exactly seven days earlier. */
    method PreviousWeek()
      modifies this
      ensures currentWeek == old(currentWeek) - MsPerWeek
      ensures WeekDays(currentWeek)[0] == old(WeekDays(currentWeek)[0]) - 7
      ensures selectedEvent == old(selectedEvent) && isModalOpen == old(isModalOpen)
    {
      WeekStartShift(currentWeek, -1);
      currentWeek := currentWeek - MsPerWeek;
    }

    /** `addWeeks(currentWeek, 1)`: the displayed week starts exactly seven days later. */
    method NextWeek()
      modifies this
      ensures currentWeek == old(currentWeek) + MsPerWeek
      ensures WeekDays(currentWeek)[0] == old(WeekDays(currentWeek)[0]) + 7
      ensures selectedEvent == old(selectedEvent) && isModalOpen == old(isModalOpen)
    {
      WeekStartShift(currentWeek, 1);
      currentWeek := currentWeek + MsPerWeek;
    }

    /** `goToToday`: back to the week containing `now`. */
    method GoToToday(now: Instant)
      modifies this
      ensures currentWeek == now
      ensures selectedEvent == old(selectedEvent) && isModalOpen == old(isModalOpen)
    {
      currentWeek := now;
    }

    /** `handleEventClick`: select the event and open the dialog on it. */
    method HandleEventClick(e: Event)
      modifies this
      ensures selectedEvent == Some(e) && isModalOpen
      ensures currentWeek == old(currentWeek)
      ensures Dialog().Some? && Dialog().value.open && Dialog().value.title == e.title
    {
      selectedEvent := Some(e);
      isModalOpen := true;
    }

    /** `closeModal`: close the dialog; the selection stays as it was. */
    method CloseModal()
      modifies this
      ensures !isModalOpen
      ensures selectedEvent == old(selectedEvent) && currentWeek == old(currentWeek)
    {
      isModalOpen := false;
    }
  }

  /** Going forward a week and back again shows the same seven days. */
  method NextThenPrevious(page: SchedulePage)
    modifies page
    ensures page.currentWeek == old(page.currentWeek)
    ensures WeekDays(page.currentWeek) == old(WeekDays(page.currentWeek))
  {
    page.NextWeek();
    page.PreviousWeek();
  }
}
