/** The calendar event record and the vocabulary every calendar view shares. */
module Events {
  import opened Wrappers
  import opened Time

  /** The closed set of event categories. */
  datatype EventType = Hearing | Meeting | Deadline | Other

  /**
   * One calendar entry. `start` and `end` are the parsed `startTime` and
   * `endTime`; nothing requires `end` to be after `start`.
   */
  datatype Event = Event(
    id: string,
    title: string,
    kind: EventType,
    start: Instant,
    end: Instant,
    location: Option<string>,
    client: Option<string>,
    caseNumber: Option<string>,
    notes: Option<string>)

  /** The string a category carries at run time. */
  function KindName(t: EventType): string
  {
    match t
    case Hearing => "hearing"
    case Meeting => "meeting"
    case Deadline => "deadline"
    case Other => "other"
  }

  /**
   * The case analysis of every `switch (type)` in the views: the three named
   * categories are recognised, and 'other' and any unrecognised string fall
   * to the default branch.
   */
  function Classify(kind: string): (t: EventType)
    ensures t == Hearing <==> kind == "hearing"
    ensures t == Meeting <==> kind == "meeting"
    ensures t == Deadline <==> kind == "deadline"
  {
    if kind == "hearing" then Hearing
    else if kind == "meeting" then Meeting
    else if kind == "deadline" then Deadline
    else Other
  }

  /** Classifying the name of a category gives the category back. */
  lemma ClassifyKindName(t: EventType)
    ensures Classify(KindName(t)) == t
  {
  }

  /** A per-category table of display strings, one entry per branch of a `switch`. */
  datatype ByKind = ByKind(hearing: string, meeting: string, deadline: string, other: string)
  {
    function Of(t: EventType): string
    {
      match t
      case Hearing => hearing
      case Meeting => meeting
      case Deadline => deadline
      case Other => other
    }

    predicate Distinct()
    {
      hearing != meeting && hearing != deadline && hearing != other &&
      meeting != deadline && meeting != other && deadline != other
    }
  }

  /**
   * With distinct entries, a table lookup keyed by a type string returns the
   * same value for two strings exactly when they fall in the same branch.
   */
  lemma LookupSeparatesKinds(table: ByKind, a: string, b: string)
    requires table.Distinct()
    ensures table.Of(Classify(a)) == table.Of(Classify(b)) <==> Classify(a) == Classify(b)
  {
  }

  /**
   * The shared day-match rule: an event belongs to a day when its start's
   * local date, month and year are the day's. Time of day and `end` play no part.
   */
  predicate StartsOn(e: Event, d: Day)
    ensures StartsOn(e, d) <==> d * MsPerDay <= e.start < (d + 1) * MsPerDay
  {
    DayOfIff(e.start, d);
    DayOf(e.start) == d
  }

  /** The day-match rule as the filter callback both day-bucketing call sites pass. */
  function DayFilter(d: Day): Event -> bool
  {
    e => StartsOn(e, d)
  }
}
