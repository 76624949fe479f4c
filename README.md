# advocate-scheduler calendar view-model

advocate-scheduler is a lawyer's planner. It has a dashboard with a month grid and an
"Upcoming Events" panel, a weekly schedule, an event details dialog, and searchable
lists of cases and clients. This project models the logic behind those views:

- which events belong to a calendar day (the month cell keeps input order; the
  schedule column sorts by start);
- the five-day upcoming window, which is closed at both ends, and the panel's
  sorted copy;
- the Sunday-to-Saturday week, the days of a month, and week and month navigation;
- the case and client search filters;
- the category and status lookup tables with their default branches;
- the selection and dialog state of the pages;
- the mock event fixture, which is built around the moment the page loads.

Modelling choices:

- An instant is an integer count of milliseconds on the local wall clock.
  `Time.DayOf` maps it to a local day number.
- Two instants share a local date, month and year exactly when they share a day number.
- Weekdays count from Sunday = 0.
- Months are proleptic Gregorian ranges of day numbers.
- Filtering is modelled by `Seqs.Filter`, JavaScript's `Array.prototype.filter`.
- Sorting by start is a stable insertion sort, `EventOrder.SortByStart`.
  JavaScript's sort has been stable since ES2019.
- The pages that hold state are classes, with `modifies` on their handlers:
  `Schedule.SchedulePage`, `Index.IndexPage` and `MonthCalendar.MonthCalendarState`.
- The current time (`new Date()`) is a parameter `now` or `today`.

Modules: `Wrappers`, `Seqs`, `Text`, `Time`, `Events`, `EventOrder`, `CalendarEvent`,
`EventDetailsModal`, `UpcomingEvents`, `MonthCalendar`, `Schedule`, `Index`, `Cases`,
`Clients`, `MockEvents`.

## Model

| member | source | states |
|---|---|---|
| Events.Classify | src/types/events.ts:2-12 | The `switch (type)` case analysis: hearing, meeting and deadline are recognised exactly, and every other string falls to the default branch |
| Events.ClassifyKindName | src/types/events.ts:5 | The four category strings are classified back to their own category |
| Events.LookupSeparatesKinds | src/components/calendar/EventDetailsModal.tsx:23-49 | A lookup table with distinct entries returns the same value for two type strings exactly when they fall in the same branch |
| Events.StartsOn | src/pages/Schedule.tsx:51-57 | The shared day-match rule: an event belongs to day d exactly when its start lies in d's 24 hours; time of day and end play no part |
| Events.DayFilter | src/components/calendar/MonthCalendar.tsx:42-49 | The day-match rule as the callback both call sites hand to `filter` |
| Time.DayOf | src/pages/Schedule.tsx:52-56 | The local day of an instant is the one whose 24 hours contain it |
| Time.DayOfUnique | src/pages/Schedule.tsx:52-56 | Only one day number contains a given instant, so same date, month and year means same day number |
| Time.DayOfIff | src/pages/Schedule.tsx:52-56 | An instant falls on day d exactly when it lies in d's 24 hours |
| Time.DayOfMonotone | src/pages/Schedule.tsx:58-60 | A later instant never falls on an earlier day |
| Time.StartOfDay | src/pages/Index.tsx:27 | `setHours(0, 0, 0, 0)` gives a multiple of a whole day (a midnight) in the same day as the instant, at or before it and less than a day before it |
| Time.DayOfShift | src/pages/Index.tsx:29-30 | Adding n whole days moves the day number by n |
| Time.Weekday | src/pages/Schedule.tsx:25 | A weekday number lies in 0..6 |
| Time.WeekStart | src/pages/Schedule.tsx:25 | `startOfWeek(…, { weekStartsOn: 0 })` is a Sunday, on or at most six days before the day |
| Time.WeekStartUnique | src/pages/Schedule.tsx:25 | Exactly one Sunday lies in that range |
| Time.WeekStartShift | src/pages/Schedule.tsx:29-35 | Shifting an instant by n weeks shifts its week's Sunday by 7n days |
| Time.YearLength | src/components/calendar/MonthCalendar.tsx:27-29 | A year has 365 or 366 days |
| Time.DaysInMonth | src/components/calendar/MonthCalendar.tsx:27-29 | A month has 28 to 31 days |
| Time.NextMonth | src/components/calendar/MonthCalendar.tsx:37-39 | `addMonths(m, 1)` moves to the following year-month |
| Time.PrevMonth | src/components/calendar/MonthCalendar.tsx:33-35 | `subMonths(m, 1)` moves to the preceding year-month |
| Time.MonthIndexInjective | src/components/calendar/MonthCalendar.tsx:33-39 | Distinct year-months have distinct month counts |
| Time.NextPrevInverse | src/components/calendar/MonthCalendar.tsx:33-39 | Next then previous month, or previous then next, returns to the same month |
| Time.YearStartStep | src/components/calendar/MonthCalendar.tsx:27-29 | New Year's Days of consecutive years lie one year length apart |
| Time.MonthsTile | src/components/calendar/MonthCalendar.tsx:27-29 | The next month starts the day after the last day of this month |
| Time.MonthsOrdered | src/components/calendar/MonthCalendar.tsx:27-29 | A later month starts after every day of an earlier month |
| Time.MonthStart | src/components/calendar/MonthCalendar.tsx:27 | `startOfMonth`: the day number of the 1st; MonthsTile and CalendarAnchors tie it to the calendar |
| Time.InMonth | src/components/calendar/MonthCalendar.tsx:106 | `isSameMonth`: the day lies between the month's 1st and its last day; InMonthIff shows this is the day's own month |
| Time.InMonthUnique | src/components/calendar/MonthCalendar.tsx:106 | A day lies in at most one month |
| Time.MonthFrom | src/components/calendar/MonthCalendar.tsx:106 | Walking month by month from any month reaches the month that contains the day |
| Time.MonthOf | src/components/calendar/MonthCalendar.tsx:106 | Every day lies in a month: the day's own year and month |
| Time.InMonthIff | src/components/calendar/MonthCalendar.tsx:106 | `isSameMonth(day, m)` holds exactly when m is the day's own month, so each day lies in exactly one month |
| Time.CalendarAnchors | src/components/calendar/MonthCalendar.tsx:27-29 | The day numbering matches the calendar: 1970-01-01 was a Thursday and 2024-03-01 a Friday |
| Seqs.Filter | src/pages/Schedule.tsx:51 | `filter` keeps exactly the elements that satisfy the predicate |
| Seqs.FilterCount | src/pages/Schedule.tsx:51-57 | Each kept element appears as often as in the input, and every other element not at all |
| Seqs.FilterIsSubsequence | src/components/calendar/MonthCalendar.tsx:42-49 | The survivors keep their input order |
| Seqs.FilterStep | src/pages/Index.tsx:24-33 | A filter over a suffix keeps or drops its first element, then filters the rest |
| Seqs.FilterSkip | src/pages/Index.tsx:24-33 | A run of rejected elements contributes nothing |
| Seqs.FilterKeepsPrefix | src/pages/Index.tsx:24-33 | An accepted prefix is kept whole, at the front |
| Seqs.FilterIsSlice | src/components/calendar/MonthCalendar.tsx:41-50 | When the accepted elements form one contiguous run, the filter returns exactly that slice |
| Seqs.FilterKeepsAll | src/pages/Cases.tsx:84-89 | A predicate that accepts everything keeps the whole sequence |
| Seqs.FilterCongruent | src/pages/Index.tsx:24-33 | Predicates that agree on the elements give the same result |
| Seqs.FilterEmptyIff | src/pages/Cases.tsx:196-202 | The result is empty exactly when no element is accepted |
| Text.LowerChar | src/pages/Cases.tsx:85-88 | ASCII lower-casing of one character: upper-case letters move by 32 and everything else stays |
| Text.UpperChar | src/pages/Cases.tsx:175 | ASCII upper-casing of one character: lower-case letters move by 32 and everything else stays |
| Text.Lower | src/pages/Cases.tsx:85-88 | `toLowerCase` lower-cases character by character and keeps the length |
| Text.Upper | src/pages/Cases.tsx:175 | `toUpperCase` upper-cases character by character and keeps the length |
| Text.LowerOfUpper | src/pages/Cases.tsx:85-88 | Upper-casing first does not change the lower-cased form |
| Text.LowerOfLowerCase | src/pages/Cases.tsx:85-88 | A string with no upper-case letter is its own lower-cased form |
| Text.LowerIdempotent | src/pages/Cases.tsx:85-88 | Lower-casing twice is lower-casing once |
| Text.Contains | src/pages/Cases.tsx:85-88 | `includes` holds exactly when the needle occurs at some index |
| Text.EmptyAlwaysContained | src/pages/Cases.tsx:85-88 | Every string includes the empty string |
| Text.Capitalize | src/pages/Cases.tsx:175 | `charAt(0).toUpperCase() + slice(1)` upper-cases the first character and keeps the rest and the length |
| Text.CapitalizeOnlyChangesCase | src/pages/Cases.tsx:175 | Capitalising keeps the lower-cased form and is idempotent |
| Text.CapitalizeLowerWord | src/pages/Cases.tsx:175 | A capitalised lower-case word starts with a capital and lower-cases back to the word |
| EventOrder.StartingAt | src/pages/Schedule.tsx:58-60 | The events of a list that start at a given instant: exactly those, each as often as in the list, in list order |
| EventOrder.Insert | src/pages/Schedule.tsx:58-60 | Insertion adds exactly one copy of the event and nothing else |
| EventOrder.InsertSorted | src/pages/Schedule.tsx:58-60 | Inserting into a sorted list keeps it sorted |
| EventOrder.StartingAtCons | src/pages/Schedule.tsx:58-60 | The events starting at an instant in `[a] + t` are `a` if it starts then, followed by those of `t` |
| EventOrder.InsertStable | src/pages/Schedule.tsx:58-60 | Insertion puts the event ahead of the events with the same start |
| EventOrder.SortByStart | src/pages/Schedule.tsx:58-60 | The comparator sort returns a permutation of its input (same multiset), ascending by start |
| EventOrder.SortStable | src/pages/Schedule.tsx:58-60 | Stability: for every start instant, the events with that start keep their input order |
| EventOrder.SortKeepsSorted | src/pages/Schedule.tsx:58-60 | A list already in start order is returned unchanged |
| EventOrder.SortIdempotent | src/components/calendar/UpcomingEvents.tsx:42-44 | Sorting twice is sorting once |
| EventOrder.SortSameMembers | src/pages/Schedule.tsx:58-60 | Sorting keeps the length and the members |
| EventOrder.StartsAt | src/pages/Schedule.tsx:58-60 | The equal-start test, as a filter callback, that StartingAt filters with |
| CalendarEvent.EventTypeColor | src/components/calendar/CalendarEvent.tsx:12-24 | hearing gives the red trio, meeting the blue trio and deadline the amber trio; 'other' and every unrecognised string give the purple trio, and each of these holds in both directions |
| CalendarEvent.EventTypeColorImage | src/components/calendar/CalendarEvent.tsx:12-24 | The lookup is total and its image is exactly the four class trios |
| EventDetailsModal.EventTypeColor | src/components/calendar/EventDetailsModal.tsx:23-35 | Each named category has its own class, 'other' and unknown strings share purple, in both directions |
| EventDetailsModal.EventTypeLabel | src/components/calendar/EventDetailsModal.tsx:37-49 | "Court Hearing", "Client Meeting", "Case Deadline", and "Other Event" for 'other' and unknown strings, in both directions |
| EventDetailsModal.DefaultBranchesAgree | src/components/calendar/EventDetailsModal.tsx:23-49 | The colour and the label take their default branch on exactly the same strings |
| EventDetailsModal.Shown | src/components/calendar/EventDetailsModal.tsx:87-117 | `{field && …}`: a field is shown when present and not the empty string |
| EventDetailsModal.BadgeColorMatchesLabel | src/components/calendar/EventDetailsModal.tsx:63-70 | Two type strings get the same badge colour exactly when they get the same label |
| EventDetailsModal.Sections | src/components/calendar/EventDetailsModal.tsx:87-122 | Location, client, case-number and notes sections each appear exactly when that field is present and non-empty, carrying its value; there is one section per shown field, so none appears twice |
| EventDetailsModal.SectionsInDisplayOrder | src/components/calendar/EventDetailsModal.tsx:87-122 | The sections come in the dialog's order: location, then client, then case number, then notes |
| EventDetailsModal.Render | src/components/calendar/EventDetailsModal.tsx:20-72 | Nothing is rendered exactly when the event is null, whatever `isOpen` says; otherwise the dialog's open flag is `isOpen`, and its title, badge and sections follow the event |
| UpcomingEvents.EventTypeColor | src/components/calendar/UpcomingEvents.tsx:13-25 | One class per named category; 'other' and unknown strings share purple, in both directions |
| UpcomingEvents.EventTypeLabel | src/components/calendar/UpcomingEvents.tsx:27-39 | "Hearing", "Meeting", "Deadline", and "Other" for 'other' and unknown strings, in both directions |
| UpcomingEvents.SortedEvents | src/components/calendar/UpcomingEvents.tsx:42-44 | The sorted copy is ascending by start, a permutation of the events, and stable for equal starts |
| UpcomingEvents.SortedEventsIdempotent | src/components/calendar/UpcomingEvents.tsx:42-44 | Sorting the sorted copy again changes nothing |
| UpcomingEvents.Render | src/components/calendar/UpcomingEvents.tsx:51-99 | "No upcoming events" appears exactly for the empty list; otherwise there is one card per event, in sorted order, each with the label and the badge colour of the event's category |
| MonthCalendar.EventsForDay | src/components/calendar/MonthCalendar.tsx:41-50 | A day's list holds exactly the events whose start falls on that day, each as often as in the input, as a subsequence of the input in input order |
| MonthCalendar.ListedOnlyOnStartDay | src/components/calendar/MonthCalendar.tsx:43-48 | Only the start is consulted, so an event is listed on exactly one day, its start day |
| MonthCalendar.MonthDays | src/components/calendar/MonthCalendar.tsx:27-29 | The month's days run from the 1st, consecutive, one per day of the month, and are exactly the days in the month |
| MonthCalendar.CellContentOf | src/components/calendar/MonthCalendar.tsx:121-133 | A cell shows at most three events, the first ones; "+ N more" appears exactly when there are more than three, and shown plus N is the day's count |
| MonthCalendar.Grid | src/components/calendar/MonthCalendar.tsx:97-137 | One cell per day of the month, in order, each holding its day's content; no cell is dimmed, so the `!isSameMonth` branch never fires |
| MonthCalendar.DaysAreConsecutive | src/components/calendar/MonthCalendar.tsx:27-29 | In a run of consecutive days, the i-th is the first plus i |
| MonthCalendar.MonthCalendarState.constructor | src/components/calendar/MonthCalendar.tsx:25 | The view opens on the month of today |
| MonthCalendar.MonthCalendarState.PreviousMonth | src/components/calendar/MonthCalendar.tsx:33-35 | The new month ends the day before the old one began |
| MonthCalendar.MonthCalendarState.NextMonth | src/components/calendar/MonthCalendar.tsx:37-39 | The new month starts the day after the old one ended |
| MonthCalendar.MonthCalendarState.GoToToday | src/components/calendar/MonthCalendar.tsx:69 | The Today button returns to today's month |
| Schedule.EventTypeColor | src/pages/Schedule.tsx:63-75 | One class per named category; 'other' and unknown strings share purple, in both directions |
| Schedule.EventsForDay | src/pages/Schedule.tsx:50-61 | A column holds exactly the events starting on that day, each as often as it occurs in the input, in ascending start order |
| Schedule.EventsForDayIsSortedMonthBucket | src/pages/Schedule.tsx:50-61 | The schedule's column is the month cell's list, sorted: both call sites share one day-match rule |
| Schedule.OrderedBucketUnchanged | src/pages/Schedule.tsx:58-60 | A day whose events already come in start order is shown as the month cell shows it |
| Schedule.EventsForDayStable | src/pages/Schedule.tsx:58-60 | Events with equal starts keep their input order within a column |
| Schedule.WeekDays | src/pages/Schedule.tsx:25-27 | The week is seven consecutive days from a Sunday, and it contains `currentWeek`'s day |
| Schedule.WeekColumns | src/pages/Schedule.tsx:130-167 | There are seven columns; an event of the week appears in exactly the column of its start day, as many times as in the input, and each column is in start order; column `i` is `getEventsForDay` of the week's `i`-th day |
| Schedule.SchedulePage.constructor | src/pages/Schedule.tsx:21-23 | The page opens on the week of now, with nothing selected and the dialog closed |
| Schedule.SchedulePage.PreviousWeek | src/pages/Schedule.tsx:29-31 | `subWeeks` moves the reference back one week and the week's Sunday back seven days; the selection and dialog stay |
| Schedule.SchedulePage.NextWeek | src/pages/Schedule.tsx:33-35 | `addWeeks` moves the reference forward one week and the week's Sunday forward seven days; the selection and dialog stay |
| Schedule.SchedulePage.GoToToday | src/pages/Schedule.tsx:37-39 | Back to the week of now; the selection and dialog stay |
| Schedule.SchedulePage.HandleEventClick | src/pages/Schedule.tsx:41-44 | The event is selected, the dialog opens and shows its title, and the week stays |
| Schedule.SchedulePage.CloseModal | src/pages/Schedule.tsx:46-48 | The dialog closes; the selection and the week stay |
| Schedule.NextThenPrevious | src/pages/Schedule.tsx:29-35 | Next week then previous week restores the reference and the seven days shown |
| Index.UpcomingEvents | src/pages/Index.tsx:24-33 | An event is kept exactly when today 00:00 <= start <= today+5 days 00:00, with both ends inclusive, as often as it occurs; the result is a subsequence of the input in input order |
| Index.IsUpcoming | src/pages/Index.tsx:25-32 | The window test: midnight of now's day at most the start, and the start at most five days after that midnight; UpcomingByDay restates it by calendar day |
| Index.UpcomingFilter | src/pages/Index.tsx:24-33 | The window test as the callback handed to `filter` |
| Index.UpcomingByDay | src/pages/Index.tsx:26-32 | Upcoming means starting on today or one of the next four days, or exactly at the midnight that closes the window |
| Index.EarlierDaysExcluded | src/pages/Index.tsx:27-32 | Events that start on an earlier day than today are never upcoming |
| Index.OnlyTodayMatters | src/pages/Index.tsx:26-27 | The time of day of now does not change the result, only its date |
| Index.IndexPage.constructor | src/pages/Index.tsx:11-12 | Nothing is selected and no dialog is shown |
| Index.IndexPage.HandleEventClick | src/pages/Index.tsx:14-17 | The event is selected and the dialog opens, showing its title |
| Index.IndexPage.CloseModal | src/pages/Index.tsx:19-21 | Only the open flag is cleared; the selection stays, so the dialog still holds the last event, closed |
| Cases.FilteredCases | src/pages/Cases.tsx:84-89 | A case is kept exactly when the lower-cased term occurs in its lower-cased title, case number, client or court; each kept case appears as often as in the input, in input order |
| Cases.Matches | src/pages/Cases.tsx:84-89 | The search predicate; the empty term matches every case |
| Cases.ShowsNoCasesRow | src/pages/Cases.tsx:196 | `filteredCases.length === 0`, characterised by NoCasesRowIff |
| Cases.EmptyTermKeepsAll | src/pages/Cases.tsx:84-89 | The empty term keeps every case |
| Cases.SearchIgnoresCase | src/pages/Cases.tsx:85-88 | Terms equal up to case select the same cases |
| Cases.UpperCasedTermSameResult | src/pages/Cases.tsx:85-88 | A term and its upper-cased form give the same list |
| Cases.NoCasesRowIff | src/pages/Cases.tsx:196-202 | The "No cases found" row appears exactly when no case matches |
| Cases.StatusColor | src/pages/Cases.tsx:91-102 | 'active' is green, 'pending' is yellow, and 'closed' and every other string are gray, in both directions |
| Cases.StatusNameIsLowerWord | src/pages/Cases.tsx:14-22 | Each status value is a non-empty lower-case word |
| Cases.StatusLabel | src/pages/Cases.tsx:175 | The badge text is the status with its first letter upper-cased and the rest unchanged; it lower-cases back to the status |
| Cases.StatusLabels | src/pages/Cases.tsx:175 | "Active", "Closed", "Pending" |
| Cases.FormatDate | src/pages/Cases.tsx:104-115 | A null or empty date reads "No hearing scheduled"; anything else goes to the formatter |
| Clients.FilteredClients | src/pages/Clients.tsx:37-41 | A client is kept exactly when the lower-cased term occurs in the lower-cased name or email, or the raw term occurs in the phone; each kept client appears as often as in the input, in input order |
| Clients.Matches | src/pages/Clients.tsx:37-41 | The search predicate, with the phone matched as typed; the empty term matches every client |
| Clients.ShowsNoClientsRow | src/pages/Clients.tsx:130 | `filteredClients.length === 0`, characterised by NoClientsRowIff |
| Clients.EmptyTermKeepsAll | src/pages/Clients.tsx:37-41 | The empty term keeps every client |
| Clients.PhoneMatchIsCaseSensitive | src/pages/Clients.tsx:40 | The phone is matched as typed: a client found by "x" is lost when the term is upper-cased |
| Text.NotFound | src/pages/Clients.tsx:40 | A one-character term absent from a string is not included in it |
| Clients.NoClientsRowIff | src/pages/Clients.tsx:130-136 | The "No clients found" row appears exactly when no client matches |
| Clients.StatusColor | src/pages/Clients.tsx:43-54 | 'active' is green, 'pending' is yellow, and 'inactive' and every other string are gray, in both directions |
| Clients.StatusNameIsLowerWord | src/pages/Clients.tsx:14-21 | Each status value is a non-empty lower-case word |
| Clients.StatusLabel | src/pages/Clients.tsx:110 | The badge text is the status with its first letter upper-cased and the rest unchanged; it lower-cases back to the status |
| Clients.StatusLabels | src/pages/Clients.tsx:110 | "Active", "Inactive", "Pending" |
| MockEvents.At | src/data/mockEvents.ts:5-13 | `setTime(addDays(today, n), h, m)` falls on the local day n after today, within minute h:m |
| MockEvents.Fixture | src/data/mockEvents.ts:15-112 | The ten events of `mockEvents`, in declared order, built from the load time |
| MockEvents.FixtureStartDays | src/data/mockEvents.ts:15-112 | The ten events start 1, 2, 3, 0, 0, 5, 4, 10, -1 and 7 days from today |
| MockEvents.DayIsSlice | src/components/calendar/MonthCalendar.tsx:41-50 | When the events for one day offset form a contiguous run, the day's list is that run |
| MockEvents.TodayCell | src/data/mockEvents.ts:46-64 | Today's month cell lists events 4 and 5, in fixture order |
| MockEvents.YesterdayCell | src/data/mockEvents.ts:94-101 | Yesterday's cell holds event 9 alone |
| MockEvents.TodayColumn | src/data/mockEvents.ts:46-64 | Today's schedule column holds event 4 (11:00), then event 5 (15:30) |
| MockEvents.UpcomingByOffsets | src/pages/Index.tsx:24-33 | With no event at the closing midnight, an event is upcoming exactly when its day offset is 0 to 4 |
| MockEvents.FixtureNotAtMidnight | src/data/mockEvents.ts:15-112 | No fixture event starts at midnight |
| MockEvents.FixtureUpcoming | src/data/mockEvents.ts:15-112 | Every event but events 6, 8, 9 and 10 is in today's upcoming window |
| MockEvents.KeepFirstFiveAndSeventh | src/pages/Index.tsx:24-33 | A filter that accepts the first five and the seventh of ten elements returns those, in order |
| MockEvents.UpcomingFromFixture | src/pages/Index.tsx:24-33 | Rendered at any time on the day the fixture was built, the upcoming panel receives events 1 to 5 and 7, in fixture order |
| MockEvents.UpcomingFirstFiveAndSeventh | src/pages/Index.tsx:24-33 | The upcoming filter over ten events, with the first five and the seventh in the window, returns those |

## Left out

- Time zones, daylight saving and ISO-string parsing are not modelled. `new Date(startTime)`, `toISOString` and the local getters are abstracted: instants are local wall-clock milliseconds. An unparseable `startTime` (NaN getters, NaN comparator) has no defined behaviour in the source and is not modelled.
- date-fns and `Intl.DateTimeFormat` formatting of dates and times is not modelled. It produces display strings only.
- `Cases.FormatDate`: the non-empty branch is left to a formatter passed in as a parameter; only the null branch is fixed.
- `isToday` highlighting is not modelled. Neither is the grid's missing weekday padding before day 1: both are styling only.
- `new Date()` is a parameter (`now`, `today`). In `src/pages/Index.tsx` it is re-read for each event; the model treats it as one fixed instant for the whole filter.
- `MonthCalendar.MonthCalendarState`: `currentMonth` is held as a year and month. The day of month that `addMonths`/`subMonths` clamp is never read by the grid, so it is not modelled.
- `toLowerCase`, `toUpperCase` and `includes` are modelled on ASCII letters only, not Unicode case mapping.
- React rendering, hooks, CSS and the click wiring of cards and cells are not modelled. The Settings, TopBar, Layout and Sidebar components are not modelled either.
- The `mockCases` and `mockClients` tables are not modelled as data. The filters and lookups are proved for every list.
- Input arrays are never mutated by `filter` or by sorting the spread copy. This holds by value semantics in the model and is not a separate contract.
- `MockEvents.UpcomingFromFixture` states the panel's input by fixture positions rather than as a list of event records.
- The fixture scenarios assume the page renders on the day the fixture module was loaded. `Index.OnlyTodayMatters` covers any time of that day; rendering on a later day is not stated.
- The panel's concrete sorted order for the fixture is not stated. `UpcomingEvents.SortedEvents` proves sortedness and permutation for every input.
- The upcoming window is closed at both ends, `>=` and `<=`, as the code in `src/pages/Index.tsx:32` has it. A description of the window as ending before the fifth midnight would exclude an event starting exactly then; the code includes it (`Index.UpcomingByDay`).
