/** The food trucks list page: the search box's filter and the card's
    description. */
module FoodTrucksPage {
  import opened Common
  import opened Policy

  /** A truck is kept when its name (if it has one) or its non-empty
      description contains the query, ignoring case. */
  predicate TruckMatches(truck: FoodTruck, query: string) {
    (truck.name.Some? && ContainsIgnoreCase(truck.name.value, query)) ||
    (truck.description.Some? && truck.description.value != "" &&
     ContainsIgnoreCase(truck.description.value, query))
  }

  /** `handleSearch`: a blank query lists every truck; otherwise the
      matching trucks, in their order. */
  function HandleSearch(trucks: seq<FoodTruck>, query: string): (r: seq<FoodTruck>)
    ensures AllWhitespace(query) ==> r == trucks
    ensures !AllWhitespace(query) ==> forall t :: t in r <==> t in trucks && TruckMatches(t, query)
    ensures IsSubsequence(r, trucks)
  {
    TrimEmptyIffBlank(query);
    if Trim(query) == "" then
      SubsequenceOfItself(trucks);
      trucks
    else
      FilterIsSubsequence(trucks, (t: FoodTruck) => TruckMatches(t, query));
      Filter(trucks, (t: FoodTruck) => TruckMatches(t, query))
  }

  /** A query that is not blank keeps each matching truck as often as the list holds it. */
  lemma HandleSearchCounts(trucks: seq<FoodTruck>, query: string)
    ensures !AllWhitespace(query) ==>
              forall t :: multiset(HandleSearch(trucks, query))[t] == if TruckMatches(t, query) then multiset(trucks)[t] else 0
  {
    TrimEmptyIffBlank(query);
    FilterCounts(trucks, (t: FoodTruck) => TruckMatches(t, query));
  }

  /** A truck without name or description is found by no query that is
      not blank, and the empty query lists every truck. */
  lemma {:induction false} TruckSearchCases(trucks: seq<FoodTruck>, query: string, t: FoodTruck)
    requires t in trucks && t.name.None? && t.description.None?
    requires !AllWhitespace(query)
    ensures t !in HandleSearch(trucks, query)
    ensures HandleSearch(trucks, "") == trucks
  {
  }

  /** The card's description: absent or empty shows nothing; otherwise at
      most 200 characters and "...". */
  function CardDescription(description: Option<string>): (r: Option<string>)
    ensures r.None? <==> description.None? || description.value == ""
    ensures r.Some? ==> r.value == Truncate(description.value, 200)
  {
    if description.Some? && description.value != "" then Some(Truncate(description.value, 200)) else None
  }
}
