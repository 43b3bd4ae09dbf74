/**
 * The orbiting-body dropdown (`FilterDropdown`): a search box that narrows
 * the list of bodies, an "All" entry and one entry per remaining body, and a
 * button that opens and closes the list and shows the current choice.
 */
module Filter {
  import opened Wrappers
  import opened Strings
  import opened Arrays

  /** The bodies whose lower-cased name contains the lower-cased search term,
      in their original order. */
  function Search(bodies: seq<string>, term: string): seq<string>
  {
    KeepIf(bodies, (body: string) => Includes(ToLower(body), ToLower(term)))
  }

  lemma SearchMembers(bodies: seq<string>, term: string)
    ensures forall b :: b in Search(bodies, term) <==>
      b in bodies && exists i :: OccursAt(ToLower(b), ToLower(term), i)
  {
    KeepIfMembers(bodies, (body: string) => Includes(ToLower(body), ToLower(term)));
    forall b: string
      ensures Includes(ToLower(b), ToLower(term)) <==> exists i :: OccursAt(ToLower(b), ToLower(term), i)
    {
      IncludesOccurs(ToLower(b), ToLower(term));
    }
  }

  /** The result keeps the input's order, so a sorted, duplicate-free list of
      bodies stays sorted and duplicate-free. */
  lemma SearchKeepsOrder(bodies: seq<string>, term: string)
    ensures IsSubsequence(Search(bodies, term), bodies)
    ensures Ascending(bodies) ==> Ascending(Search(bodies, term))
    ensures NoDup(bodies) ==> NoDup(Search(bodies, term))
  {
    var p := (body: string) => Includes(ToLower(body), ToLower(term));
    KeepIfSubsequence(bodies, p);
    if Ascending(bodies) {
      SubsequenceAscending(Search(bodies, term), bodies);
    }
    if NoDup(bodies) {
      SubsequenceNoDup(Search(bodies, term), bodies);
    }
  }

  /** An empty search box lists every body. */
  lemma SearchEmptyTerm(bodies: seq<string>)
    ensures Search(bodies, "") == bodies
  {
    KeepIfAll(bodies, (body: string) => Includes(ToLower(body), ToLower("")));
  }

  /** Typing a body's full name, in any letter case, keeps that body listed. */
  lemma SearchFindsBody(bodies: seq<string>, term: string)
    requires term in bodies
    ensures forall t :: SameUpToCase(t, term) ==> term in Search(bodies, t)
  {
    forall t | SameUpToCase(t, term)
      ensures term in Search(bodies, t)
    {
      SameUpToCaseLower(t, term);
      IncludesItself(ToLower(term));
      KeepIfMembers(bodies, (body: string) => Includes(ToLower(body), ToLower(t)));
    }
  }

  /** Only the letters typed matter, not their case. */
  lemma SearchIgnoresCase(bodies: seq<string>, term: string, other: string)
    requires SameUpToCase(term, other)
    ensures Search(bodies, term) == Search(bodies, other)
  {
    SameUpToCaseLower(term, other);
  }

  lemma SearchUpperCase(bodies: seq<string>, term: string)
    ensures Search(bodies, ToUpper(term)) == Search(bodies, term)
  {
    UpperSameUpToCase(term);
    SearchIgnoresCase(bodies, ToUpper(term), term);
  }

  /** JavaScript truthiness of the optional `selectedOrbit` property. */
  predicate Chosen(selectedOrbit: Option<string>)
  {
    selectedOrbit.Some? && selectedOrbit.value != ""
  }

  /** Text of the toggle button: the chosen body, or "All". */
  function Label(selectedOrbit: Option<string>): (caption: string)
    ensures Chosen(selectedOrbit) ==> caption == "Orbiting Body (" + selectedOrbit.value + ")"
    ensures !Chosen(selectedOrbit) ==> caption == "Orbiting Body (All)"
  {
    "Orbiting Body (" + (if Chosen(selectedOrbit) then selectedOrbit.value else "All") + ")"
  }

  /** The "All" entry is marked as selected. */
  predicate AllHighlighted(selectedOrbit: Option<string>)
  {
    !Chosen(selectedOrbit)
  }

  /** The entry for `body` is marked as selected. */
  predicate BodyHighlighted(selectedOrbit: Option<string>, body: string)
  {
    selectedOrbit == Some(body)
  }

  /** At most one entry is marked: a chosen body excludes "All", and vice versa
      unless the body itself is the empty string. */
  lemma HighlightExclusive(selectedOrbit: Option<string>, body: string, other: string)
    ensures BodyHighlighted(selectedOrbit, body) && BodyHighlighted(selectedOrbit, other) ==> body == other
    ensures BodyHighlighted(selectedOrbit, body) && body != "" ==> !AllHighlighted(selectedOrbit)
  {
  }

  class FilterDropdown {
    var searchTerm: string
    var isDropdownOpen: bool

    constructor ()
      ensures searchTerm == "" && !isDropdownOpen
    {
      searchTerm := "";
      isDropdownOpen := false;
    }

    /** The entries shown under "All" for the bodies passed in. */
    function FilteredBodies(orbitalBodies: seq<string>): (shown: seq<string>)
      reads this
      ensures forall b :: b in shown ==> b in orbitalBodies
      ensures searchTerm == "" ==> shown == orbitalBodies
    {
      SearchMembers(orbitalBodies, searchTerm);
      SearchEmptyTerm(orbitalBodies);
      Search(orbitalBodies, searchTerm)
    }

    /** The toggle button. */
    method ToggleDropdown()
      modifies this`isDropdownOpen
      ensures isDropdownOpen == !old(isDropdownOpen)
    {
      isDropdownOpen := !isDropdownOpen;
    }

    /** Typing in the search box. */
    method SetSearchTerm(term: string)
      modifies this`searchTerm
      ensures searchTerm == term
    {
      searchTerm := term;
    }

    /** Clicking "All": reports the empty string and closes the list. */
    method ChooseAll() returns (reported: string)
      requires isDropdownOpen
      modifies this`isDropdownOpen
      ensures reported == "" && !isDropdownOpen
    {
      reported := "";
      isDropdownOpen := false;
    }

    /** Clicking one of the listed bodies: reports it and closes the list. */
    method ChooseBody(orbitalBodies: seq<string>, body: string) returns (reported: string)
      requires isDropdownOpen && body in FilteredBodies(orbitalBodies)
      modifies this`isDropdownOpen
      ensures reported == body && reported in orbitalBodies && !isDropdownOpen
    {
      reported := body;
      isDropdownOpen := false;
    }
  }

  /** Two clicks on the toggle button leave the list as it was. */
  method ToggleTwice(d: FilterDropdown)
    modifies d
    ensures d.isDropdownOpen == old(d.isDropdownOpen) && d.searchTerm == old(d.searchTerm)
  {
    d.ToggleDropdown();
    d.ToggleDropdown();
  }
}
