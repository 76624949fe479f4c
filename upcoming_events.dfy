/** The "Upcoming Events" panel: the events it is given, as cards ordered by start. */
module UpcomingEvents {
  import opened Events
  import opened EventOrder

  const Colors: ByKind := ByKind(
    "bg-red-100 text-red-700 border-red-300",
    "bg-blue-100 text-blue-700 border-blue-300",
    "bg-amber-100 text-amber-700 border-amber-300",
    "bg-purple-100 text-purple-700 border-purple-300")

  const Labels: ByKind := ByKind("Hearing", "Meeting", "Deadline", "Other")

  /** `getEventTypeColor`: one class per named category; 'other' and unknown strings share purple. */
  function EventTypeColor(kind: string): (r: string)
    ensures r == "bg-red-100 text-red-700 border-red-300" <==> kind == "hearing"
    ensures r == "bg-blue-100 text-blue-700 border-blue-300" <==> kind == "meeting"
    ensures r == "bg-amber-100 text-amber-700 border-amber-300" <==> kind == "deadline"
    ensures r == "bg-purple-100 text-purple-700 border-purple-300" <==> Classify(kind) == Other
  {
    Colors.Of(Classify(kind))
  }

  /** `getEventTypeLabel`: "Hearing", "Meeting", "Deadline", and "Other" for 'other' and unknown strings. */
  function EventTypeLabel(kind: string): (r: string)
    ensures r == "Hearing" <==> kind == "hearing"
    ensures r == "Meeting" <==> kind == "meeting"
    ensures r == "Deadline" <==> kind == "deadline"
    ensures r == "Other" <==> Classify(kind) == Other
  {
    Labels.Of(Classify(kind))
  }

  /**
   * `[...events].sort(byStart)`: the copy is sorted, so the caller's list is
   * left as it was; the result holds the same events, ascending by start.
   */
  function SortedEvents(events: seq<Event>): (r: seq<Event>)
    ensures SortedByStart(r)
    ensures multiset(r) == multiset(events)
    ensures forall k :: StartingAt(r, k) == StartingAt(events, k)
  {
    forall k ensures StartingAt(SortByStart(events), k) == StartingAt(events, k) {
      SortStable(events, k);
    }
    SortByStart(events)
  }

  /** Sorting the panel's list again changes nothing. */
  lemma SortedEventsIdempotent(events: seq<Event>)
    ensures SortedEvents(SortedEvents(events)) == SortedEvents(events)
  {
    SortIdempotent(events);
  }

  /** One card of the panel. */
  datatype Card = Card(event: Event, badgeLabel: string, badgeColor: string)

  datatype Panel = NoUpcomingEvents | Cards(cards: seq<Card>)

  function CardOf(e: Event): Card
  {
    Card(e, EventTypeLabel(KindName(e.kind)), EventTypeColor(KindName(e.kind)))
  }

  /**
   * The panel: the "No upcoming events" message exactly when the list is
   * empty, otherwise one card per event in start order.
   */
  function Render(events: seq<Event>): (r: Panel)
    ensures r.NoUpcomingEvents? <==> events == []
    ensures r.Cards? ==>
      && |r.cards| == |events|
      && forall i :: 0 <= i < |r.cards| ==>
           r.cards[i].event == SortedEvents(events)[i] &&
           r.cards[i].badgeLabel == Labels.Of(r.cards[i].event.kind) &&
           r.cards[i].badgeColor == Colors.Of(r.cards[i].event.kind)
  {
    var sorted := SortedEvents(events);
    assert |sorted| == |multiset(sorted)| == |multiset(events)| == |events|;
    if |sorted| == 0 then NoUpcomingEvents
    else
      forall t: EventType ensures Classify(KindName(t)) == t { ClassifyKindName(t); }
      Cards(seq(|sorted|, i requires 0 <= i < |sorted| => CardOf(sorted[i])))
  }
}
