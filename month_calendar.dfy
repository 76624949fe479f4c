/**
 * The month grid: one cell per day of the displayed month, each listing at
 * most three of the day's events and counting the rest.
 */
module MonthCalendar {
  import opened Wrappers
  import opened Seqs
  import opened Time
  import opened Events

  /**
   * `getEventsForDay`: the events starting on day `d`, in input order (no sort),
   * each as often as it occurs in `events`.
   */
  function EventsForDay(events: seq<Event>, d: Day): (r: seq<Event>)
    ensures forall e :: e in r <==> e in events && StartsOn(e, d)
    ensures forall e {:trigger multiset(r)[e]} :: multiset(r)[e] == if StartsOn(e, d) then multiset(events)[e] else 0
    ensures IsSubsequence(r, events)
  {
    FilterCount(events, DayFilter(d));
    FilterIsSubsequence(events, DayFilter(d));
    Filter(events, DayFilter(d))
  }

  /** A multi-day event is listed only under the day it starts on. */
  lemma ListedOnlyOnStartDay(events: seq<Event>, e: Event, d: Day)
    requires e in events
    ensures e in EventsForDay(events, d) <==> d == DayOf(e.start)
  {
  }

  /** `eachDayOfInterval(startOfMonth, endOfMonth)`: every day of the month, consecutive and in order. */
  function MonthDays(ym: YearMonth): (r: seq<Day>)
    ensures |r| == DaysInMonth(ym)
    ensures r[0] == MonthStart(ym)
    ensures forall i :: 0 < i < |r| ==> r[i] == r[i - 1] + 1
    ensures forall d :: d in r <==> InMonth(d, ym)
  {
    var r := seq(DaysInMonth(ym), i => MonthStart(ym) + i);
    assert forall d :: InMonth(d, ym) ==> r[d - MonthStart(ym)] == d;
    r
  }

  /** What a cell lists: the first events of the day, and the "+ N more" count if any. */
  datatype CellContent = CellContent(shown: seq<Event>, more: Option<nat>)

  /**
   * `dayEvents.slice(0, 3)` and `dayEvents.length > 3 && "+ {length - 3} more"`:
   * at most three events, the first ones; the count appears exactly when
   * some are left over, and shown plus counted is the whole day.
   */
  function CellContentOf(dayEvents: seq<Event>): (c: CellContent)
    ensures |c.shown| <= 3 && |c.shown| <= |dayEvents| && c.shown == dayEvents[..|c.shown|]
    ensures c.more.Some? <==> |dayEvents| > 3
    ensures c.more.Some? ==> |c.shown| == 3
    ensures |c.shown| + (if c.more.Some? then c.more.value else 0) == |dayEvents|
  {
    var n := if |dayEvents| < 3 then |dayEvents| else 3;
    CellContent(dayEvents[..n], if |dayEvents| > 3 then Some(|dayEvents| - 3) else None)
  }

  /** One grid cell; `dimmed` is the `!isSameMonth(day, currentMonth)` styling. */
  datatype Cell = Cell(day: Day, content: CellContent, dimmed: bool)

  function CellFor(events: seq<Event>, d: Day, current: YearMonth): Cell
  {
    Cell(d, CellContentOf(EventsForDay(events, d)), !InMonth(d, current))
  }

  /**
   * The grid of the displayed month: one cell per day, in order, none of
   * them dimmed, since every cell is a day of the displayed month.
   */
  function Grid(events: seq<Event>, current: YearMonth): (g: seq<Cell>)
    ensures |g| == DaysInMonth(current)
    ensures forall i :: 0 <= i < |g| ==> g[i].day == MonthStart(current) + i && !g[i].dimmed
    ensures forall i :: 0 <= i < |g| ==> g[i].content == CellContentOf(EventsForDay(events, g[i].day))
  {
    var days := MonthDays(current);
    assert forall i :: 0 <= i < |days| ==> days[i] == MonthStart(current) + i by {
      forall i | 0 <= i < |days| ensures days[i] == MonthStart(current) + i {
        DaysAreConsecutive(days, i);
      }
    }
    seq(|days|, i requires 0 <= i < |days| => CellFor(events, days[i], current))
  }

  lemma {:induction false} DaysAreConsecutive(days: seq<Day>, i: nat)
    requires i < |days|
    requires forall j :: 0 < j < |days| ==> days[j] == days[j - 1] + 1
    ensures days[i] == days[0] + i
  {
    if i > 0 {
      DaysAreConsecutive(days, i - 1);
    }
  }

  /** The month-view component's state: the month on display. */
  class MonthCalendarState {
    var currentMonth: YearMonth
    const events: seq<Event>

    /** `useState(new Date())`: opens on the month of `today`. */
    constructor (events: seq<Event>, today: YearMonth)
      ensures this.events == events && currentMonth == today
    {
      this.events := events;
      currentMonth := today;
    }

    function Cells(): seq<Cell>
      reads this
    {
      Grid(events, currentMonth)
    }

    /** `previousMonth`: the grid moves to the month that ends the day before the old one began. */
    method PreviousMonth()
      modifies this
      ensures currentMonth == PrevMonth(old(currentMonth))
      ensures MonthStart(currentMonth) + DaysInMonth(currentMonth) == old(MonthStart(currentMonth))
    {
      NextPrevInverse(currentMonth);
      MonthsTile(PrevMonth(currentMonth));
      currentMonth := PrevMonth(currentMonth);
    }

    /** `nextMonth`: the grid moves to the month that starts the day after the old one ended. */
    method NextMonth()
      modifies this
      ensures currentMonth == Time.NextMonth(old(currentMonth))
      ensures MonthStart(currentMonth) == old(MonthStart(currentMonth) + DaysInMonth(currentMonth))
    {
      MonthsTile(currentMonth);
      currentMonth := Time.NextMonth(currentMonth);
    }

    /** The "Today" button: back to the month of `today`. */
    method GoToToday(today: YearMonth)
      modifies this
      ensures currentMonth == today
    {
      currentMonth := today;
    }
  }
}
