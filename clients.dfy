/** The client list: a search box over the clients and a status badge. */
module Clients {
  import opened Seqs
  import opened Text

  datatype ClientStatus = Active | Inactive | Pending

  function StatusName(s: ClientStatus): string
  {
    match s
    case Active => "active"
    case Inactive => "inactive"
    case Pending => "pending"
  }

  datatype Client = Client(id: string, name: string, email: string, phone: string, caseCount: int, status: ClientStatus)

  /**
   * The search predicate: the lower-cased term occurs in the lower-cased
   * name or email, or the term as typed occurs in the phone number.
   */
  predicate Matches(c: Client, term: string)
    ensures term == "" ==> Matches(c, term)
  {
    EmptyAlwaysContained(c.phone);
    Contains(Lower(c.name), Lower(term)) || Contains(Lower(c.email), Lower(term)) ||
    Contains(c.phone, term)
  }

  /** `filteredClients`: the matching clients, in their original order, each as often as in `clients`. */
  function FilteredClients(clients: seq<Client>, term: string): (r: seq<Client>)
    ensures forall c :: c in r <==> c in clients && Matches(c, term)
    ensures forall c {:trigger multiset(r)[c]} :: multiset(r)[c] == if Matches(c, term) then multiset(clients)[c] else 0
    ensures IsSubsequence(r, clients)
  {
    var matching := c => Matches(c, term);
    FilterCount(clients, matching);
    FilterIsSubsequence(clients, matching);
    Filter(clients, matching)
  }

  /** The empty search term keeps every client. */
  lemma EmptyTermKeepsAll(clients: seq<Client>)
    ensures FilteredClients(clients, "") == clients
  {
    FilterKeepsAll(clients, c => Matches(c, ""));
  }

  /**
   * The phone number is matched as typed: a client found by a term can be
   * lost when the term is upper-cased, which never happens on the case list.
   */
  lemma PhoneMatchIsCaseSensitive()
    ensures var c := Client("9", "Bo", "b@c", "x", 0, Active);
            Matches(c, "x") && !Matches(c, Upper("x"))
  {
    var c := Client("9", "Bo", "b@c", "x", 0, Active);
    assert OccursAt(c.phone, "x", 0);
    assert Upper("x") == "X" && Lower("X") == "x";
    assert Lower("Bo") == "bo" && Lower("b@c") == "b@c";
    NotFound("x", "X");
    NotFound("bo", "x");
    NotFound("b@c", "x");
  }

  /** The "No clients found" row: shown when the filtered list is empty. */
  function ShowsNoClientsRow(clients: seq<Client>, term: string): bool
  {
    |FilteredClients(clients, term)| == 0
  }

  /** The "No clients found" row appears exactly when no client matches the term. */
  lemma NoClientsRowIff(clients: seq<Client>, term: string)
    ensures ShowsNoClientsRow(clients, term) <==> forall c :: c in clients ==> !Matches(c, term)
  {
    FilterEmptyIff(clients, c => Matches(c, term));
  }

  /** `getStatusColor`: green for active, yellow for pending, and gray for inactive and every other string. */
  function StatusColor(status: string): (r: string)
    ensures r == "bg-green-100 text-green-700" <==> status == "active"
    ensures r == "bg-yellow-100 text-yellow-700" <==> status == "pending"
    ensures r == "bg-gray-100 text-gray-700" <==> status != "active" && status != "pending"
  {
    if status == "active" then "bg-green-100 text-green-700"
    else if status == "inactive" then "bg-gray-100 text-gray-700"
    else if status == "pending" then "bg-yellow-100 text-yellow-700"
    else "bg-gray-100 text-gray-700"
  }

  lemma StatusNameIsLowerWord(s: ClientStatus)
    ensures IsLowerWord(StatusName(s))
  {
  }

  /** The status badge text: the status with its first letter upper-cased and the rest unchanged. */
  function StatusLabel(s: ClientStatus): (r: string)
    ensures Lower(r) == StatusName(s)
    ensures r != [] && IsUpperLetter(r[0])
    ensures r[0] == UpperChar(StatusName(s)[0]) && r[1..] == StatusName(s)[1..]
  {
    StatusNameIsLowerWord(s);
    CapitalizeLowerWord(StatusName(s));
    Capitalize(StatusName(s))
  }

  lemma StatusLabels()
    ensures StatusLabel(Active) == "Active"
    ensures StatusLabel(Inactive) == "Inactive"
    ensures StatusLabel(Pending) == "Pending"
  {
    assert UpperChar('a') == 'A' && UpperChar('i') == 'I' && UpperChar('p') == 'P';
    assert Capitalize("active") == ['A'] + "ctive" == "Active";
    assert Capitalize("inactive") == ['I'] + "nactive" == "Inactive";
    assert Capitalize("pending") == ['P'] + "ending" == "Pending";
  }
}
