/**
 * The fixture the pages display, built around the moment `now` the module
 * is loaded, and the concrete scenarios it gives.
 */
module MockEvents {
  import opened Wrappers
  import opened Time
  import opened Events
  import opened Seqs
  import opened EventOrder
  import MonthCalendar
  import Schedule
  import Index

  /**
   * `setTime(addDays(today, days), h, m)`: the local date `days` after `now`
   * at h:m. Seconds and milliseconds are kept from `now`, as `setHours` and
   * `setMinutes` leave them alone.
   */
  function At(now: Instant, days: int, h: int, m: int): (t: Instant)
    requires 0 <= h < 24 && 0 <= m < 60
    ensures DayOf(t) == DayOf(now) + days
    ensures StartOfDay(t) + h * MsPerHour + m * MsPerMinute <= t < StartOfDay(t) + h * MsPerHour + (m + 1) * MsPerMinute
  {
    var t := (DayOf(now) + days) * MsPerDay + h * MsPerHour + m * MsPerMinute + now % MsPerMinute;
    DayOfUnique(t, DayOf(now) + days);
    t
  }

  function E1(now: Instant): Event
  {
    Event("1", "Smith vs. State", Hearing, At(now, 1, 10, 30), At(now, 1, 12, 0),
      Some("Supreme Court, Room 304"), Some("John Smith"), Some("SC-2023-781"),
      Some("Final hearing for the case. Review evidence documents and witness statements before the hearing."))
  }

  function E2(now: Instant): Event
  {
    Event("2", "Meeting with James Wilson", Meeting, At(now, 2, 14, 0), At(now, 2, 15, 0),
      Some("Office"), Some("James Wilson"), None,
      Some("Initial consultation regarding property dispute. Bring property law reference documents."))
  }

  function E3(now: Instant): Event
  {
    Event("3", "Document Submission", Deadline, At(now, 3, 17, 0), At(now, 3, 17, 30),
      None, None, Some("HC-2023-456"),
      Some("Last date to submit the revised affidavit for the Johnson case."))
  }

  function E4(now: Instant): Event
  {
    Event("4", "Conference Call with Legal Team", Meeting, At(now, 0, 11, 0), At(now, 0, 12, 0),
      Some("Virtual (Zoom)"), None, None,
      Some("Discuss strategy for upcoming corporate case."))
  }

  function E5(now: Instant): Event
  {
    Event("5", "Client Intake - Sarah Brown", Meeting, At(now, 0, 15, 30), At(now, 0, 16, 30),
      Some("Office"), Some("Sarah Brown"), None,
      Some("New client consultation regarding divorce proceedings."))
  }

  function E6(now: Instant): Event
  {
    Event("6", "Appeal Filing", Deadline, At(now, 5, 16, 0), At(now, 5, 16, 30),
      None, None, Some("AC-2023-112"),
      Some("Final date to file appeal for the Peterson case."))
  }

  function E7(now: Instant): Event
  {
    Event("7", "Martinez vs. City Corporation", Hearing, At(now, 4, 9, 0), At(now, 4, 11, 0),
      Some("District Court, Room 201"), Some("Elena Martinez"), Some("DC-2023-567"),
      Some("Evidence presentation phase. Bring all supporting documents."))
  }

  function E8(now: Instant): Event
  {
    Event("8", "Bar Association Meeting", Other, At(now, 10, 18, 0), At(now, 10, 20, 0),
      Some("City Law Club"), None, None,
      Some("Quarterly meeting of the local bar association."))
  }

  function E9(now: Instant): Event
  {
    Event("9", "Legal Research", Other, At(now, -1, 14, 0), At(now, -1, 17, 0),
      None, None, None,
      Some("Allocated time for property law research for the Wilson case."))
  }

  function E10(now: Instant): Event
  {
    Event("10", "Hughes Consultation", Meeting, At(now, 7, 10, 0), At(now, 7, 11, 0),
      Some("Office"), Some("Thomas Hughes"), None,
      Some("Follow-up meeting regarding trademark dispute."))
  }

  /** `mockEvents`, in its declared order. */
  function Fixture(now: Instant): seq<Event>
  {
    [E1(now), E2(now), E3(now), E4(now), E5(now), E6(now), E7(now), E8(now), E9(now), E10(now)]
  }

  /** The start day of each fixture event, counted from `now`'s day. */
  const DayOffsets: seq<int> := [1, 2, 3, 0, 0, 5, 4, 10, -1, 7]

  lemma FixtureStartDays(now: Instant)
    ensures |Fixture(now)| == |DayOffsets|
    ensures forall k :: 0 <= k < |DayOffsets| ==> DayOf(Fixture(now)[k].start) == DayOf(now) + DayOffsets[k]
  {
    var s := Fixture(now);
    assert DayOf(s[0].start) == DayOf(now) + 1;
    assert DayOf(s[1].start) == DayOf(now) + 2;
    assert DayOf(s[2].start) == DayOf(now) + 3;
    assert DayOf(s[3].start) == DayOf(now);
    assert DayOf(s[4].start) == DayOf(now);
    assert DayOf(s[5].start) == DayOf(now) + 5;
    assert DayOf(s[6].start) == DayOf(now) + 4;
    assert DayOf(s[7].start) == DayOf(now) + 10;
    assert DayOf(s[8].start) == DayOf(now) - 1;
    assert DayOf(s[9].start) == DayOf(now) + 7;
  }

  /**
   * When the start days of `s` are `day + offsets[k]`, the events starting
   * on `day + offset` are the slice `[i, j)` of `s` if that is where `offset`
   * occurs in `offsets`.
   */
  lemma DayIsSlice(s: seq<Event>, day: Day, offsets: seq<int>, offset: int, i: nat, j: nat)
    requires |s| == |offsets| && i <= j <= |s|
    requires forall k :: 0 <= k < |s| ==> DayOf(s[k].start) == day + offsets[k]
    requires forall k :: 0 <= k < |s| ==> (offsets[k] == offset <==> i <= k < j)
    ensures MonthCalendar.EventsForDay(s, day + offset) == s[i..j]
  {
    var p := DayFilter(day + offset);
    forall k | 0 <= k < |s| ensures p(s[k]) <==> i <= k < j {
      assert p(s[k]) == StartsOn(s[k], day + offset);
    }
    FilterIsSlice(s, p, i, j);
  }

  /** The month grid's cell for today lists events 4 and 5, in fixture order. */
  lemma TodayCell(now: Instant)
    ensures MonthCalendar.EventsForDay(Fixture(now), DayOf(now)) == [E4(now), E5(now)]
  {
    FixtureStartDays(now);
    DayIsSlice(Fixture(now), DayOf(now), DayOffsets, 0, 3, 5);
  }

  /** Yesterday's cell holds event 9 alone. */
  lemma YesterdayCell(now: Instant)
    ensures MonthCalendar.EventsForDay(Fixture(now), DayOf(now) - 1) == [E9(now)]
  {
    FixtureStartDays(now);
    DayIsSlice(Fixture(now), DayOf(now), DayOffsets, -1, 8, 9);
  }

  /** Today's column of the weekly schedule holds events 4 and 5, at 11:00 before 15:30. */
  lemma TodayColumn(now: Instant)
    ensures Schedule.EventsForDay(Fixture(now), DayOf(now)) == [E4(now), E5(now)]
  {
    var a, b := E4(now), E5(now);
    assert a.start < b.start;
    TodayCell(now);
    assert SortedByStart([a, b]);
    Schedule.OrderedBucketUnchanged(Fixture(now), DayOf(now));
  }

  /**
   * When the start days of `s` are `DayOf(now) + offsets[k]` and none of
   * them starts exactly at the window's closing midnight, an event is
   * upcoming exactly when its offset is 0 to 4.
   */
  lemma UpcomingByOffsets(s: seq<Event>, now: Instant, offsets: seq<int>)
    requires |s| == |offsets|
    requires forall k :: 0 <= k < |s| ==> DayOf(s[k].start) == DayOf(now) + offsets[k]
    requires forall k :: 0 <= k < |s| ==> s[k].start != (DayOf(now) + Index.Horizon) * MsPerDay
    ensures forall k :: 0 <= k < |s| ==> (Index.IsUpcoming(s[k], now) <==> 0 <= offsets[k] < Index.Horizon)
  {
    forall k | 0 <= k < |s|
      ensures Index.IsUpcoming(s[k], now) <==> 0 <= offsets[k] < Index.Horizon
    {
      Index.UpcomingByDay(s[k], now);
    }
  }

  /** No fixture event starts at midnight: each has an hour of 9 or later. */
  lemma FixtureNotAtMidnight(now: Instant)
    ensures forall k :: 0 <= k < |Fixture(now)| ==> Fixture(now)[k].start != DayOf(Fixture(now)[k].start) * MsPerDay
  {
    var s := Fixture(now);
    forall k | 0 <= k < |s| ensures s[k].start != DayOf(s[k].start) * MsPerDay {
      assert s[k].start >= StartOfDay(s[k].start) + 9 * MsPerHour;
    }
  }

  /** Which fixture events fall in the upcoming window of `now`: all but events 6, 8, 9 and 10. */
  lemma FixtureUpcoming(now: Instant)
    ensures forall k :: 0 <= k < |Fixture(now)| ==>
      (Index.IsUpcoming(Fixture(now)[k], now) <==> k < 5 || k == 6)
  {
    var s := Fixture(now);
    FixtureStartDays(now);
    FixtureNotAtMidnight(now);
    UpcomingByOffsets(s, now, DayOffsets);
  }

  /** Keeping the first five of ten elements and the seventh. */
  lemma {:induction false} KeepFirstFiveAndSeventh<T(!new)>(s: seq<T>, p: T -> bool)
    requires |s| == 10
    requires forall k :: 0 <= k < |s| ==> (p(s[k]) <==> k < 5 || k == 6)
    ensures Filter(s, p) == s[..5] + [s[6]]
  {
    assert s[10..] == [];
    FilterSkip(s, p, 7, 10);
    FilterStep(s, p, 6);
    FilterStep(s, p, 5);
    assert s == s[..5] + s[5..];
    FilterKeepsPrefix(s[..5], s[5..], p);
  }

  /**
   * Rendered on the day the fixture was built (`loaded`, at any time of
   * that day), the upcoming panel is handed events 1 to 5 and 7 (indices 0
   * to 4 and 6), in fixture order: event 6 starts at 16:00 five days on, after the
   * window's closing midnight; event 9 (yesterday) and events 8 and 10 lie
   * outside the window.
   */
  lemma UpcomingFromFixture(loaded: Instant, now: Instant)
    requires DayOf(now) == DayOf(loaded)
    ensures Index.UpcomingEvents(Fixture(loaded), now) == Fixture(loaded)[..5] + [Fixture(loaded)[6]]
  {
    FixtureUpcoming(loaded);
    UpcomingFirstFiveAndSeventh(Fixture(loaded), loaded);
    Index.OnlyTodayMatters(Fixture(loaded), now, loaded);
  }

  /** The upcoming filter over ten events of which the first five and the seventh are in the window. */
  lemma UpcomingFirstFiveAndSeventh(s: seq<Event>, now: Instant)
    requires |s| == 10
    requires forall k :: 0 <= k < |s| ==> (Index.IsUpcoming(s[k], now) <==> k < 5 || k == 6)
    ensures Index.UpcomingEvents(s, now) == s[..5] + [s[6]]
  {
    var p := Index.UpcomingFilter(now);
    forall k | 0 <= k < |s| ensures p(s[k]) <==> k < 5 || k == 6 {
      assert p(s[k]) == Index.IsUpcoming(s[k], now);
    }
    KeepFirstFiveAndSeventh(s, p);
  }
}
