/** The search filter that is also the key of the search cache. */
module Criteria {
  import opened Wrappers

  /**
   * Four optional filters; None is Java's null and means "do not filter on this field".
   * As a Java record it is immutable and compared by value, which is what a datatype is:
   * two criteria built separately from the same four values are the same cache key.
   */
  datatype SearchCriteria = SearchCriteria(
    category: Option<string>,
    brand: Option<string>,
    minPrice: Option<int>,
    maxPrice: Option<int>)

  /** The criteria that filter on nothing. */
  const NoFilters := SearchCriteria(None, None, None, None)

  /** Two criteria are the same key exactly when category, brand, minimum and maximum price are pairwise equal. */
  lemma EqualByComponents(a: SearchCriteria, b: SearchCriteria)
    ensures a == b <==> a.category == b.category && a.brand == b.brand &&
                        a.minPrice == b.minPrice && a.maxPrice == b.maxPrice
  {
  }
}
