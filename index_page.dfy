/**
 * The dashboard home page: the month grid over all events, the upcoming
 * panel over the events of the next five days, and the details dialog.
 */
module Index {
  import opened Wrappers
  import opened Seqs
  import opened Time
  import opened Events
  import EventDetailsModal

  /** Length of the upcoming window in days. */
  const Horizon: int := 5

  /**
   * The upcoming test, with `today` at local midnight of `now`'s day and
   * `fiveDaysLater` at local midnight five days on: both ends are inclusive.
   */
  predicate IsUpcoming(e: Event, now: Instant)
  {
    var today := StartOfDay(now);
    var fiveDaysLater := today + Horizon * MsPerDay;
    today <= e.start <= fiveDaysLater
  }

  /** The upcoming test as the callback handed to `filter`. */
  function UpcomingFilter(now: Instant): Event -> bool
  {
    e => IsUpcoming(e, now)
  }

  /**
   * `upcomingEvents`: the events whose start lies between today 00:00 and
   * today + 5 days 00:00, both included, in input order (no sort here).
   */
  function UpcomingEvents(events: seq<Event>, now: Instant): (r: seq<Event>)
    ensures forall e :: e in r <==>
              (e in events && DayOf(now) * MsPerDay <= e.start <= (DayOf(now) + Horizon) * MsPerDay)
    ensures forall e {:trigger multiset(r)[e]} :: multiset(r)[e] == if IsUpcoming(e, now) then multiset(events)[e] else 0
    ensures IsSubsequence(r, events)
  {
    FilterCount(events, UpcomingFilter(now));
    FilterIsSubsequence(events, UpcomingFilter(now));
    Filter(events, UpcomingFilter(now))
  }

  /**
   * By calendar day: an event is upcoming when it starts on today or one of
   * the next four days, or exactly at midnight that begins the fifth day after today.
   */
  lemma UpcomingByDay(e: Event, now: Instant)
    ensures IsUpcoming(e, now) <==>
            (DayOf(now) <= DayOf(e.start) < DayOf(now) + Horizon ||
             e.start == (DayOf(now) + Horizon) * MsPerDay)
  {
    var d, s := DayOf(now), DayOf(e.start);
    if s < d {
      assert e.start < (s + 1) * MsPerDay <= d * MsPerDay;
    } else if s >= d + Horizon && e.start != (d + Horizon) * MsPerDay {
      assert (d + Horizon) * MsPerDay <= s * MsPerDay <= e.start;
    }
  }

  /** Events that start on an earlier day than `now` (yesterday's, say) are never upcoming. */
  lemma EarlierDaysExcluded(events: seq<Event>, e: Event, now: Instant)
    requires DayOf(e.start) < DayOf(now)
    ensures e !in UpcomingEvents(events, now)
  {
    UpcomingByDay(e, now);
  }

  /** The time of day of `now` does not matter: only its local date does. */
  lemma OnlyTodayMatters(events: seq<Event>, now1: Instant, now2: Instant)
    requires DayOf(now1) == DayOf(now2)
    ensures UpcomingEvents(events, now1) == UpcomingEvents(events, now2)
  {
    FilterCongruent(events, UpcomingFilter(now1), UpcomingFilter(now2));
  }

  /** The home page's state: the selected event and whether the dialog is open. */
  class IndexPage {
    const events: seq<Event>
    var selectedEvent: Option<Event>
    var isModalOpen: bool

    constructor (events: seq<Event>)
      ensures this.events == events
      ensures selectedEvent == None && !isModalOpen
      ensures Dialog() == None
    {
      this.events := events;
      selectedEvent := None;
      isModalOpen := false;
    }

    /** The events handed to the upcoming panel when the page renders at `now`. */
    function Upcoming(now: Instant): seq<Event>
      reads this
    {
      UpcomingEvents(events, now)
    }

    function Dialog(): Option<EventDetailsModal.Dialog>
      reads this
    {
      EventDetailsModal.Render(selectedEvent, isModalOpen)
    }

    /** `handleEventClick`: select the event and open the dialog on it. */
    method HandleEventClick(e: Event)
      modifies this
      ensures selectedEvent == Some(e) && isModalOpen
      ensures Dialog().Some? && Dialog().value.open && Dialog().value.title == e.title
    {
      selectedEvent := Some(e);
      isModalOpen := true;
    }

    /**
     * `closeModal`: only the open flag is cleared. The selection stays, so
     * the dialog still holds the last event, closed.
     */
    method CloseModal()
      modifies this
      ensures !isModalOpen && selectedEvent == old(selectedEvent)
      ensures old(selectedEvent).Some? ==> Dialog().Some? && !Dialog().value.open
    {
      isModalOpen := false;
    }
  }
}
