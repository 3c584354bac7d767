/**
 * The shop page's listing: the catalogue filtered by a case-insensitive text
 * search, an optional category and an inclusive price range.
 */
module Shop {
  import opened Wrappers
  import opened Sequences
  import opened Text
  import opened SweetTypes

  /** `priceRange`: the inclusive bounds `[lo, hi]`. */
  datatype PriceRange = PriceRange(lo: real, hi: real)

  /** The page starts at `[0, 100]`, and the search panel is never given a way to change it. */
  const DefaultPriceRange: PriceRange := PriceRange(0.0, 100.0)

  /** The query occurs, ignoring case, in the name or in the description. */
  predicate MatchesSearch(x: Sweet, query: string) {
    Contains(Lower(x.name), Lower(query)) || Contains(Lower(x.description), Lower(query))
  }

  /** No category selected, or the item's is the selected one. */
  predicate MatchesCategory(x: Sweet, selected: Option<Category>) {
    selected.None? || x.category == selected.value
  }

  predicate MatchesPrice(x: Sweet, range: PriceRange) {
    x.price >= range.lo && x.price <= range.hi
  }

  function Keep(query: string, selected: Option<Category>, range: PriceRange): Sweet -> bool {
    (x: Sweet) => MatchesSearch(x, query) && MatchesCategory(x, selected) && MatchesPrice(x, range)
  }

  /** `filteredSweets` */
  function FilteredSweets(s: seq<Sweet>, query: string, selected: Option<Category>, range: PriceRange): seq<Sweet> {
    Filter(s, Keep(query, selected, range))
  }

  /**
   * The listing holds exactly the items that match all three conditions, each
   * as many times as in the catalogue, in catalogue order.
   */
  lemma FilteredExactly(s: seq<Sweet>, query: string, selected: Option<Category>, range: PriceRange, x: Sweet)
    ensures IsSubsequence(FilteredSweets(s, query, selected, range), s)
    ensures x in FilteredSweets(s, query, selected, range) <==>
              x in s && MatchesSearch(x, query) && MatchesCategory(x, selected) && MatchesPrice(x, range)
    ensures multiset(FilteredSweets(s, query, selected, range))[x] ==
              if MatchesSearch(x, query) && MatchesCategory(x, selected) && MatchesPrice(x, range)
              then multiset(s)[x] else 0
  {
    var keep := Keep(query, selected, range);
    FilterIsSubsequence(s, keep);
    FilterMembership(s, keep, x);
    FilterMultiplicity(s, keep, x);
  }

  /** An empty query matches every item. */
  lemma EmptyQueryMatchesAll(x: Sweet)
    ensures MatchesSearch(x, "")
  {
  }

  /** The search ignores the case of the query. */
  lemma SearchIgnoresQueryCase(x: Sweet, query: string)
    ensures MatchesSearch(x, Lower(query)) == MatchesSearch(x, query)
  {
    LowerIdempotent(query);
  }

  /** With no query, no category and every price in range, the whole catalogue is listed. */
  lemma NoFilterListsAll(s: seq<Sweet>, range: PriceRange)
    requires forall i :: 0 <= i < |s| ==> MatchesPrice(s[i], range)
    ensures FilteredSweets(s, "", None, range) == s
  {
    forall i | 0 <= i < |s| ensures Keep("", None, range)(s[i]) {
      EmptyQueryMatchesAll(s[i]);
    }
    FilterKeepsAll(s, Keep("", None, range));
  }

  /** Under the default range, an item priced above 100 or below 0 is never listed. */
  lemma DefaultRangeHidesOutOfRange(s: seq<Sweet>, query: string, selected: Option<Category>, x: Sweet)
    requires x.price > 100.0 || x.price < 0.0
    ensures x !in FilteredSweets(s, query, selected, DefaultPriceRange)
  {
    FilterMembership(s, Keep(query, selected, DefaultPriceRange), x);
  }

  /** Filtering the listing again with the same inputs gives the same listing. */
  lemma FilterAgainChangesNothing(s: seq<Sweet>, query: string, selected: Option<Category>, range: PriceRange)
    ensures FilteredSweets(FilteredSweets(s, query, selected, range), query, selected, range)
            == FilteredSweets(s, query, selected, range)
  {
    FilterIdempotent(s, Keep(query, selected, range));
  }
}
