/** The per-listing tests the catalogue pages filter with. */
module ListingFilters {
  import opened Rental
  import opened Text

  /** `text.toLowerCase().includes(term.toLowerCase())`. */
  predicate MatchesTerm(text: string, term: string) {
    Contains(ToLower(text), ToLower(term))
  }

  /** The same test through optional chaining: an absent column never
      matches. */
  predicate OptionalMatches(text: Option<string>, term: string) {
    text.Some? && MatchesTerm(text.value, term)
  }

  /** `listing.category === category`: exact, case-sensitive equality. */
  function CategoryIs(category: string): Listing -> bool {
    (l: Listing) => l.category == category
  }

  /** `listing.price >= min`: the lower bound is inclusive. */
  function PriceAtLeast(min: int): Listing -> bool {
    (l: Listing) => l.price >= min
  }

  /** `listing.price <= max`: the upper bound is inclusive. */
  function PriceAtMost(max: int): Listing -> bool {
    (l: Listing) => l.price <= max
  }

  /** The test lower-cases the term itself, so the case the term was typed
      in makes no difference. */
  lemma TermCaseIgnored(text: string, term: string)
    ensures MatchesTerm(text, ToLower(term)) == MatchesTerm(text, term)
  {
    ToLowerIdempotent(term);
  }

  /** An empty search term matches every text, so case-insensitive search
      for nothing keeps everything. */
  lemma EmptyTermMatches(text: string)
    ensures MatchesTerm(text, "")
  {
    ContainsEmpty(ToLower(text));
  }
}
