/** The case list: a search box over the cases, a status badge and the next-hearing column. */
module Cases {
  import opened Wrappers
  import opened Seqs
  import opened Text

  datatype CaseStatus = Active | Closed | Pending

  /** The status string a case carries at run time. */
  function StatusName(s: CaseStatus): string
  {
    match s
    case Active => "active"
    case Closed => "closed"
    case Pending => "pending"
  }

  /** A case record; `nextHearing` is null when no hearing is scheduled. */
  datatype Case = Case(
    id: string,
    caseNumber: string,
    title: string,
    client: string,
    court: string,
    nextHearing: Option<string>,
    status: CaseStatus)

  /** The search predicate: the lower-cased term occurs in the lower-cased title, case number, client or court. */
  predicate Matches(c: Case, term: string)
    ensures term == "" ==> Matches(c, term)
  {
    EmptyAlwaysContained(Lower(c.title));
    var t := Lower(term);
    Contains(Lower(c.title), t) || Contains(Lower(c.caseNumber), t) ||
    Contains(Lower(c.client), t) || Contains(Lower(c.court), t)
  }

  /** `filteredCases`: the matching cases, in their original order, each as often as in `cases`. */
  function FilteredCases(cases: seq<Case>, term: string): (r: seq<Case>)
    ensures forall c :: c in r <==> c in cases && Matches(c, term)
    ensures forall c {:trigger multiset(r)[c]} :: multiset(r)[c] == if Matches(c, term) then multiset(cases)[c] else 0
    ensures IsSubsequence(r, cases)
  {
    var matching := c => Matches(c, term);
    FilterCount(cases, matching);
    FilterIsSubsequence(cases, matching);
    Filter(cases, matching)
  }

  /** The empty search term keeps every case. */
  lemma EmptyTermKeepsAll(cases: seq<Case>)
    ensures FilteredCases(cases, "") == cases
  {
    FilterKeepsAll(cases, c => Matches(c, ""));
  }

  /** Search ignores case: two terms equal up to case select the same cases. */
  lemma SearchIgnoresCase(cases: seq<Case>, t1: string, t2: string)
    requires Lower(t1) == Lower(t2)
    ensures FilteredCases(cases, t1) == FilteredCases(cases, t2)
  {
    FilterCongruent(cases, c => Matches(c, t1), c => Matches(c, t2));
  }

  /** In particular, a term and its upper-cased form give the same list. */
  lemma UpperCasedTermSameResult(cases: seq<Case>, term: string)
    ensures FilteredCases(cases, Upper(term)) == FilteredCases(cases, term)
  {
    LowerOfUpper(term);
    SearchIgnoresCase(cases, Upper(term), term);
  }

  /** The "No cases found" row: shown when the filtered list is empty. */
  function ShowsNoCasesRow(cases: seq<Case>, term: string): bool
  {
    |FilteredCases(cases, term)| == 0
  }

  /** The "No cases found" row appears exactly when no case matches the term. */
  lemma NoCasesRowIff(cases: seq<Case>, term: string)
    ensures ShowsNoCasesRow(cases, term) <==> forall c :: c in cases ==> !Matches(c, term)
  {
    FilterEmptyIff(cases, c => Matches(c, term));
  }

  /** `getStatusColor`: green for active, yellow for pending, and gray for closed and every other string. */
  function StatusColor(status: string): (r: string)
    ensures r == "bg-green-100 text-green-700" <==> status == "active"
    ensures r == "bg-yellow-100 text-yellow-700" <==> status == "pending"
    ensures r == "bg-gray-100 text-gray-700" <==> status != "active" && status != "pending"
  {
    if status == "active" then "bg-green-100 text-green-700"
    else if status == "closed" then "bg-gray-100 text-gray-700"
    else if status == "pending" then "bg-yellow-100 text-yellow-700"
    else "bg-gray-100 text-gray-700"
  }

  lemma StatusNameIsLowerWord(s: CaseStatus)
    ensures IsLowerWord(StatusName(s))
  {
  }

  /** The status badge text: the status with its first letter upper-cased and the rest unchanged. */
  function StatusLabel(s: CaseStatus): (r: string)
    ensures Lower(r) == StatusName(s)
    ensures r != [] && IsUpperLetter(r[0])
    ensures r[0] == UpperChar(StatusName(s)[0]) && r[1..] == StatusName(s)[1..]
  {
    StatusNameIsLowerWord(s);
    CapitalizeLowerWord(StatusName(s));
    Capitalize(StatusName(s))
  }

  lemma StatusLabels()
    ensures StatusLabel(Active) == "Active"
    ensures StatusLabel(Closed) == "Closed"
    ensures StatusLabel(Pending) == "Pending"
  {
    assert UpperChar('a') == 'A' && UpperChar('c') == 'C' && UpperChar('p') == 'P';
    assert Capitalize("active") == ['A'] + "ctive" == "Active";
    assert Capitalize("closed") == ['C'] + "losed" == "Closed";
    assert Capitalize("pending") == ['P'] + "ending" == "Pending";
  }

  /**
   * `formatDate`: a null or empty date string reads "No hearing scheduled";
   * anything else is handed to the locale formatter `format`.
   */
  function FormatDate(dateString: Option<string>, format: string -> string): (r: string)
    ensures dateString.None? || dateString.value == "" ==> r == "No hearing scheduled"
    ensures dateString.Some? && dateString.value != "" ==> r == format(dateString.value)
  {
    if dateString.None? || dateString.value == "" then "No hearing scheduled"
    else format(dateString.value)
  }
}
