/** The spaces list page: the search box's filter and what each space's
    card shows. */
module SpacesPage {
  import opened Common
  import opened Policy

  /** A space is kept when its name, or its non-empty description,
      contains the query, ignoring case. The query is matched untrimmed. */
  predicate SpaceMatches(space: Space, query: string) {
    ContainsIgnoreCase(space.name, query) ||
    (space.description.Some? && space.description.value != "" &&
     ContainsIgnoreCase(space.description.value, query))
  }

  /** `handleSearch`: a blank query lists every space; otherwise the
      matching spaces, in their order. */
  function HandleSearch(spaces: seq<Space>, query: string): (r: seq<Space>)
    ensures AllWhitespace(query) ==> r == spaces
    ensures !AllWhitespace(query) ==> forall s :: s in r <==> s in spaces && SpaceMatches(s, query)
    ensures IsSubsequence(r, spaces)
  {
    TrimEmptyIffBlank(query);
    if Trim(query) == "" then
      SubsequenceOfItself(spaces);
      spaces
    else
      FilterIsSubsequence(spaces, (s: Space) => SpaceMatches(s, query));
      Filter(spaces, (s: Space) => SpaceMatches(s, query))
  }

  /** A query that is not blank keeps each matching space as often as the list holds it. */
  lemma HandleSearchCounts(spaces: seq<Space>, query: string)
    ensures !AllWhitespace(query) ==>
              forall s :: multiset(HandleSearch(spaces, query))[s] == if SpaceMatches(s, query) then multiset(spaces)[s] else 0
  {
    TrimEmptyIffBlank(query);
    FilterCounts(spaces, (s: Space) => SpaceMatches(s, query));
  }

  /** Surrounding blanks decide only whether the query is blank: a name
      equal to the trimmed query is not found when the query has a leading
      space. */
  lemma {:induction false} QueryNotTrimmed(w: string)
    requires !AllWhitespace(w)
    ensures HandleSearch([Space("id", w, None)], " " + w) == []
  {
    var q := " " + w;
    assert !AllWhitespace(q) by { var i :| 0 <= i < |w| && !IsWhitespace(w[i]); assert q[i + 1] == w[i]; }
    NoLongerMatch(Lower(w), Lower(q));
    assert Filter([Space("id", w, None)], (s: Space) => SpaceMatches(s, q)) == [];
  }

  /** The card's description: absent or empty shows nothing; otherwise at
      most 100 characters and "...". */
  function CardDescription(description: Option<string>): (r: Option<string>)
    ensures r.None? <==> description.None? || description.value == ""
    ensures r.Some? ==> r.value == Truncate(description.value, 100)
  {
    if description.Some? && description.value != "" then Some(Truncate(description.value, 100)) else None
  }

  /** A slot's line on the card: `description: start.substring(0, 5) -
      end.substring(0, 5)`. */
  function SlotTimes(slot: TimeSlot): (r: string)
    ensures StartsWith(r, slot.description + ": ")
    ensures r == slot.description + ": " + slot.start[..if |slot.start| < 5 then |slot.start| else 5] + " - " +
                 slot.end[..if |slot.end| < 5 then |slot.end| else 5]
  {
    slot.description + ": " + Prefix(slot.start, 5) + " - " + Prefix(slot.end, 5)
  }
}
