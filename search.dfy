/** The live search: the district's records whose lower-cased sort key contains
    the lower-cased query. */
module Search {
  import opened Voies
  import opened Sequences
  import opened Text
  import opened Sorting

  /** The search's test for one record. */
  predicate Matches(query: string, v: Voie) {
    Includes(ToLower(SortKey(v)), ToLower(query))
  }

  /** `ruesFiltered.filter(voie => key(voie).toLowerCase().includes(query.toLowerCase()))`. */
  function SearchFilter(rues: seq<Voie>, query: string): seq<Voie> {
    Filter(v => Matches(query, v), rues)
  }

  /** The search keeps, in their order, exactly the records whose lower-cased key
      contains the lower-cased query somewhere, each as often as it occurs. */
  lemma SearchFilterContents(rues: seq<Voie>, query: string)
    ensures IsSubsequence(SearchFilter(rues, query), rues)
    ensures forall v :: v in SearchFilter(rues, query) <==>
      v in rues && exists i :: OccursAt(ToLower(SortKey(v)), ToLower(query), i)
    ensures forall v :: multiset(SearchFilter(rues, query))[v] ==
                        (if Matches(query, v) then multiset(rues)[v] else 0)
  {
    FilterIsSubsequence(v => Matches(query, v), rues);
    FilterCounts(v => Matches(query, v), rues);
    forall v | v in rues
      ensures Matches(query, v) <==> exists i :: OccursAt(ToLower(SortKey(v)), ToLower(query), i)
    {
      IncludesIffOccurs(ToLower(SortKey(v)), ToLower(query));
    }
  }

  /** The empty query keeps every record. */
  lemma SearchEmptyQuery(rues: seq<Voie>)
    ensures SearchFilter(rues, "") == rues
  {
    assert ToLower("") == "";
    forall v | v in rues ensures Matches("", v) {
      IncludesEmpty(ToLower(SortKey(v)));
    }
    FilterKeepsAll(v => Matches("", v), rues);
  }

  /** The query's case does not matter. */
  lemma SearchIgnoresCase(rues: seq<Voie>, query: string)
    ensures SearchFilter(rues, ToLower(query)) == SearchFilter(rues, query)
  {
    ToLowerIdempotent(query);
    FilterAgreeing(v => Matches(ToLower(query), v), v => Matches(query, v), rues);
  }

  /** Searching the sorted district list gives a list that is already in order, so
      the sort that follows leaves it as it is; with the empty query the search
      shows the district list unchanged. */
  lemma SearchOfSorted(rues: seq<Voie>, query: string)
    requires SortedByKey(rues)
    ensures SortedByKey(SearchFilter(rues, query))
    ensures SortByKey(SearchFilter(rues, query)) == SearchFilter(rues, query)
    ensures SortByKey(SearchFilter(rues, "")) == rues
  {
    FilterSorted(v => Matches(query, v), rues);
    SortByKeyOfSorted(SearchFilter(rues, query));
    SearchEmptyQuery(rues);
    SortByKeyOfSorted(rues);
  }
}
