/** The home page's quick filters: a search over title and description,
    a category and an inclusive price range, applied one after another to
    the fetched listings, which keep their order. */
module Home {
  import opened Rental
  import opened ListingFilters
  import Seqs
  import Listings

  /** The filter inputs; an empty price box is `None`. */
  datatype HomeFilters = HomeFilters(searchTerm: string, category: string, minPrice: Option<int>, maxPrice: Option<int>)

  /** The home page's search: title or description contains the term,
      ignoring case. The category is not searched here. */
  function TermIn(term: string): Listing -> bool {
    (l: Listing) => MatchesTerm(l.title, term) || OptionalMatches(l.description, term)
  }

  function MinBound(f: HomeFilters): Listing -> bool {
    PriceAtLeast(if f.minPrice.Some? then f.minPrice.value else 0)
  }

  function MaxBound(f: HomeFilters): Listing -> bool {
    PriceAtMost(if f.maxPrice.Some? then f.maxPrice.value else 0)
  }

  /** Every filter whose input is set accepts the listing; with no input
      set every listing is accepted. */
  predicate Accepts(l: Listing, f: HomeFilters): (r: bool)
    ensures f.searchTerm == "" && f.category == "" && f.minPrice.None? && f.maxPrice.None? ==> r
    ensures r && f.category != "" ==> l.category == f.category
  {
    && (f.searchTerm != "" ==> TermIn(f.searchTerm)(l))
    && (f.category != "" ==> CategoryIs(f.category)(l))
    && (f.minPrice.Some? ==> MinBound(f)(l))
    && (f.maxPrice.Some? ==> MaxBound(f)(l))
  }

  /** The spelled-out definition of `Accepts`, stated for the reader rather
      than proved: it unfolds the filter helpers. The search is
      case-insensitive over the title and the description only, the
      category must be equal and both price bounds are inclusive. */
  lemma AcceptsMeaning(l: Listing, f: HomeFilters)
    ensures Accepts(l, f) <==>
      && (f.searchTerm != "" ==>
            MatchesTerm(l.title, f.searchTerm) || (l.description.Some? && MatchesTerm(l.description.value, f.searchTerm)))
      && (f.category != "" ==> l.category == f.category)
      && (f.minPrice.Some? ==> l.price >= f.minPrice.value)
      && (f.maxPrice.Some? ==> l.price <= f.maxPrice.value)
  {
  }

  /** `filterListings`: a copy of the fetched list is narrowed by each filter
      whose input is set. The result keeps the fetched order, holds exactly
      the accepted listings, and is the whole list when no input is set. */
  method FilterListings(listings: seq<Listing>, f: HomeFilters) returns (filtered: seq<Listing>)
    ensures Seqs.IsSubsequence(filtered, listings)
    ensures forall l :: l in filtered <==> l in listings && Accepts(l, f)
    ensures f.searchTerm == "" && f.category == "" && f.minPrice.None? && f.maxPrice.None? ==> filtered == listings
  {
    filtered := listings;
    Seqs.SubsequenceReflexive(listings);
    var before := filtered;
    filtered := Seqs.FilterIf(filtered, f.searchTerm != "", TermIn(f.searchTerm));
    Seqs.SubsequenceTransitive(filtered, before, listings);
    before := filtered;
    filtered := Seqs.FilterIf(filtered, f.category != "", CategoryIs(f.category));
    Seqs.SubsequenceTransitive(filtered, before, listings);
    before := filtered;
    filtered := Seqs.FilterIf(filtered, f.minPrice.Some?, MinBound(f));
    Seqs.SubsequenceTransitive(filtered, before, listings);
    before := filtered;
    filtered := Seqs.FilterIf(filtered, f.maxPrice.Some?, MaxBound(f));
    Seqs.SubsequenceTransitive(filtered, before, listings);
  }

  /** The same inputs on the catalogue page, with no location. */
  function OnCatalogue(f: HomeFilters): Listings.Filters {
    Listings.Filters(f.searchTerm, f.category, f.minPrice, f.maxPrice, "")
  }

  /** Whatever the home page shows the catalogue page shows too under the
      same inputs: its search looks at the category as well, and the other
      filters are the same. */
  lemma HomeWithinCatalogue(l: Listing, f: HomeFilters)
    requires Accepts(l, f)
    ensures Listings.Selected(l, OnCatalogue(f))
  {
  }

  /** The "Clear all filters" button: every input emptied, after which
      every listing is accepted. */
  function ClearAll(f: HomeFilters): (r: HomeFilters)
    ensures forall l :: Accepts(l, r)
    ensures r.searchTerm == "" && r.category == "" && r.minPrice.None? && r.maxPrice.None?
  {
    HomeFilters("", "", None, None)
  }
}
