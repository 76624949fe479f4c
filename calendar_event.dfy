/** One entry inside a month-grid cell: its colour depends on the event's category. */
module CalendarEvent {
  import opened Events

  /** The class trios of the `switch` in the cell entry. */
  const Classes: ByKind := ByKind(
    "bg-red-100 border-red-300 text-red-700",
    "bg-blue-100 border-blue-300 text-blue-700",
    "bg-amber-100 border-amber-300 text-amber-700",
    "bg-purple-100 border-purple-300 text-purple-700")

  /**
   * `getEventTypeColor`: red for hearings, blue for meetings, amber for
   * deadlines, and purple for 'other' and for every unrecognised string.
   */
  function EventTypeColor(kind: string): (r: string)
    ensures r == "bg-red-100 border-red-300 text-red-700" <==> kind == "hearing"
    ensures r == "bg-blue-100 border-blue-300 text-blue-700" <==> kind == "meeting"
    ensures r == "bg-amber-100 border-amber-300 text-amber-700" <==> kind == "deadline"
    ensures r == "bg-purple-100 border-purple-300 text-purple-700" <==>
              kind != "hearing" && kind != "meeting" && kind != "deadline"
  {
    Classes.Of(Classify(kind))
  }

  /** The lookup is total and its image is exactly the four class trios. */
  lemma EventTypeColorImage(c: string)
    ensures c in {Classes.hearing, Classes.meeting, Classes.deadline, Classes.other} <==>
            exists kind :: EventTypeColor(kind) == c
  {
    if c in {Classes.hearing, Classes.meeting, Classes.deadline, Classes.other} {
      var t := if c == Classes.hearing then Hearing else if c == Classes.meeting then Meeting
               else if c == Classes.deadline then Deadline else Other;
      assert EventTypeColor(KindName(t)) == c;
    }
  }
}
