/**
 * The event details dialog: a category badge, the event's optional
 * sections, and nothing at all when no event is selected.
 */
module EventDetailsModal {
  import opened Wrappers
  import opened Events

  const Colors: ByKind := ByKind(
    "bg-red-100 text-red-700",
    "bg-blue-100 text-blue-700",
    "bg-amber-100 text-amber-700",
    "bg-purple-100 text-purple-700")

  const Labels: ByKind := ByKind("Court Hearing", "Client Meeting", "Case Deadline", "Other Event")

  /** `getEventTypeColor`: one class per named category; 'other' and unknown strings share purple. */
  function EventTypeColor(kind: string): (r: string)
    ensures r == "bg-red-100 text-red-700" <==> kind == "hearing"
    ensures r == "bg-blue-100 text-blue-700" <==> kind == "meeting"
    ensures r == "bg-amber-100 text-amber-700" <==> kind == "deadline"
    ensures r == "bg-purple-100 text-purple-700" <==> Classify(kind) == Other
  {
    Colors.Of(Classify(kind))
  }

  /** `getEventTypeLabel`: one label per named category; 'other' and unknown strings read "Other Event". */
  function EventTypeLabel(kind: string): (r: string)
    ensures r == "Court Hearing" <==> kind == "hearing"
    ensures r == "Client Meeting" <==> kind == "meeting"
    ensures r == "Case Deadline" <==> kind == "deadline"
    ensures r == "Other Event" <==> Classify(kind) == Other
  {
    Labels.Of(Classify(kind))
  }

  /** The colour and the label lookups take their default branch on exactly the same strings. */
  lemma DefaultBranchesAgree(kind: string)
    ensures EventTypeColor(kind) == Colors.other <==> EventTypeLabel(kind) == Labels.other
  {
  }

  /** Two type strings get the same badge colour exactly when they get the same label. */
  lemma BadgeColorMatchesLabel(a: string, b: string)
    ensures EventTypeColor(a) == EventTypeColor(b) <==> EventTypeLabel(a) == EventTypeLabel(b)
  {
    LookupSeparatesKinds(Colors, a, b);
    LookupSeparatesKinds(Labels, a, b);
  }

  /** The optional sections of the dialog body, in display order. */
  datatype Section =
    | LocationSection(location: string)
    | ClientSection(client: string)
    | CaseNumberSection(caseNumber: string)
    | NotesSection(notes: string)
  {
    /** Position in the dialog body: location, client, case number, notes. */
    function Rank(): nat
    {
      match this
      case LocationSection(_) => 0
      case ClientSection(_) => 1
      case CaseNumberSection(_) => 2
      case NotesSection(_) => 3
    }
  }

  /** `{field && …}`: a field is shown when it is present and not the empty string. */
  predicate Shown(field: Option<string>)
  {
    field.Some? && field.value != ""
  }

  /**
   * Each optional section appears exactly when its field is present and
   * non-empty, and at most once; `SectionsInDisplayOrder` gives their order.
   */
  function Sections(e: Event): (r: seq<Section>)
    ensures |r| == (if Shown(e.location) then 1 else 0) + (if Shown(e.client) then 1 else 0) +
                   (if Shown(e.caseNumber) then 1 else 0) + (if Shown(e.notes) then 1 else 0)
    ensures forall v :: LocationSection(v) in r <==> e.location == Some(v) && v != ""
    ensures forall v :: ClientSection(v) in r <==> e.client == Some(v) && v != ""
    ensures forall v :: CaseNumberSection(v) in r <==> e.caseNumber == Some(v) && v != ""
    ensures forall v :: NotesSection(v) in r <==> e.notes == Some(v) && v != ""
  {
    (if Shown(e.location) then [LocationSection(e.location.value)] else []) +
    (if Shown(e.client) then [ClientSection(e.client.value)] else []) +
    (if Shown(e.caseNumber) then [CaseNumberSection(e.caseNumber.value)] else []) +
    (if Shown(e.notes) then [NotesSection(e.notes.value)] else [])
  }

  /** Ranks strictly increase along `r`. */
  predicate InDisplayOrder(r: seq<Section>)
  {
    forall i, j :: 0 <= i < j < |r| ==> r[i].Rank() < r[j].Rank()
  }

  /** Two ordered runs, the first ranked below the second, make an ordered run. */
  lemma JoinInDisplayOrder(a: seq<Section>, b: seq<Section>)
    requires InDisplayOrder(a) && InDisplayOrder(b)
    requires forall x, y :: x in a && y in b ==> x.Rank() < y.Rank()
    ensures InDisplayOrder(a + b)
  {
    forall i, j | 0 <= i < j < |a + b|
      ensures (a + b)[i].Rank() < (a + b)[j].Rank()
    {
      if j < |a| {
      } else if i >= |a| {
        assert (a + b)[i] == b[i - |a|] && (a + b)[j] == b[j - |a|];
      } else {
        assert (a + b)[i] in a && (a + b)[j] in b;
      }
    }
  }

  /** Four runs of ranks 0, 1, 2 and 3, each at most one long, joined in that order, are in display order. */
  lemma FourRunsInDisplayOrder(l: seq<Section>, c: seq<Section>, n: seq<Section>, o: seq<Section>)
    requires |l| <= 1 && |c| <= 1 && |n| <= 1 && |o| <= 1
    requires forall x :: x in l ==> x.Rank() == 0
    requires forall x :: x in c ==> x.Rank() == 1
    requires forall x :: x in n ==> x.Rank() == 2
    requires forall x :: x in o ==> x.Rank() == 3
    ensures InDisplayOrder(l + c + n + o)
  {
    JoinInDisplayOrder(n, o);
    JoinInDisplayOrder(c, n + o);
    JoinInDisplayOrder(l, c + (n + o));
    assert l + c + n + o == l + (c + (n + o));
  }

  /** The sections come in display order: location, client, case number, notes. */
  lemma SectionsInDisplayOrder(e: Event)
    ensures InDisplayOrder(Sections(e))
  {
    FourRunsInDisplayOrder(
      if Shown(e.location) then [LocationSection(e.location.value)] else [],
      if Shown(e.client) then [ClientSection(e.client.value)] else [],
      if Shown(e.caseNumber) then [CaseNumberSection(e.caseNumber.value)] else [],
      if Shown(e.notes) then [NotesSection(e.notes.value)] else []);
  }

  /** What the dialog shows for one event; `open` is the dialog's `open` prop. */
  datatype Dialog = Dialog(open: bool, title: string, badgeLabel: string, badgeColor: string, sections: seq<Section>)

  /**
   * The component: nothing when `event` is null, whatever `isOpen` says;
   * otherwise a dialog whose badge follows the event's category.
   */
  function Render(event: Option<Event>, isOpen: bool): (r: Option<Dialog>)
    ensures r.None? <==> event.None?
    ensures r.Some? ==>
      && r.value.open == isOpen
      && r.value.title == event.value.title
      && r.value.badgeLabel == Labels.Of(event.value.kind)
      && r.value.badgeColor == Colors.Of(event.value.kind)
      && r.value.sections == Sections(event.value)
  {
    match event
    case None => None
    case Some(e) =>
      ClassifyKindName(e.kind);
      Some(Dialog(isOpen, e.title, EventTypeLabel(KindName(e.kind)), EventTypeColor(KindName(e.kind)), Sections(e)))
  }
}
