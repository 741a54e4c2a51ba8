/** The listings catalogue page: five optional filters applied one after
    the other, a sort chosen from a fixed table of options, the badge that
    counts the active filters and the button that clears them. */
module Listings {
  import opened Rental
  import opened ListingFilters
  import Seqs
  import Text

  /** The filter inputs. An empty price box is `None`; a filled one holds
      the number it parses to. */
  datatype Filters = Filters(
    search: string,
    category: string,
    minPrice: Option<int>,
    maxPrice: Option<int>,
    location: string)

  /** The free-text search: title, description or category contains the
      query, ignoring case. */
  predicate MatchesSearch(l: Listing, query: string): (r: bool)
    ensures query == "" ==> r
  {
    EmptyTermMatches(l.title);
    MatchesTerm(l.title, query) || OptionalMatches(l.description, query) || MatchesTerm(l.category, query)
  }

  /** Typing the query in upper or lower case selects the same listings. */
  lemma SearchIgnoresQueryCase(l: Listing, query: string)
    ensures MatchesSearch(l, Text.ToLower(query)) == MatchesSearch(l, query)
  {
    TermCaseIgnored(l.title, query);
    TermCaseIgnored(l.category, query);
    if l.description.Some? {
      TermCaseIgnored(l.description.value, query);
    }
  }

  function SearchFor(query: string): Listing -> bool {
    (l: Listing) => MatchesSearch(l, query)
  }

  /** The location filter: the listing has a location containing the input,
      ignoring case. */
  function LocatedIn(place: string): Listing -> bool {
    (l: Listing) => OptionalMatches(l.location, place)
  }

  /** The lower bound the price filter applies when its box is filled. */
  function MinBound(f: Filters): Listing -> bool {
    PriceAtLeast(if f.minPrice.Some? then f.minPrice.value else 0)
  }

  /** The upper bound the price filter applies when its box is filled. */
  function MaxBound(f: Filters): Listing -> bool {
    PriceAtMost(if f.maxPrice.Some? then f.maxPrice.value else 0)
  }

  /** Every filter whose input is set accepts the listing; with no input
      set every listing is selected, and a set category admits only that
      category. */
  predicate Selected(l: Listing, f: Filters): (r: bool)
    ensures f.search == "" && f.category == "" && f.minPrice.None? && f.maxPrice.None? && f.location == "" ==> r
    ensures r && f.category != "" ==> l.category == f.category
  {
    && (f.search != "" ==> SearchFor(f.search)(l))
    && (f.category != "" ==> CategoryIs(f.category)(l))
    && (f.minPrice.Some? ==> MinBound(f)(l))
    && (f.maxPrice.Some? ==> MaxBound(f)(l))
    && (f.location != "" ==> LocatedIn(f.location)(l))
  }

  /** The spelled-out definition of `Selected`, stated for the reader
      rather than proved: it unfolds the filter helpers. The search is case-insensitive
      over three columns, the category must be equal, both price bounds are
      inclusive and the location must be present and contain the input. */
  lemma SelectedMeaning(l: Listing, f: Filters)
    ensures Selected(l, f) <==>
      && (f.search != "" ==> MatchesSearch(l, f.search))
      && (f.category != "" ==> l.category == f.category)
      && (f.minPrice.Some? ==> l.price >= f.minPrice.value)
      && (f.maxPrice.Some? ==> l.price <= f.maxPrice.value)
      && (f.location != "" ==> l.location.Some? && MatchesTerm(l.location.value, f.location))
  {
  }

  /** The filtering half of `applyFilters`: each filter with a non-empty
      input narrows the list in turn. The result keeps the fetched order and
      holds exactly the listings every active filter accepts. */
  function Filtered(listings: seq<Listing>, f: Filters): (r: seq<Listing>)
    ensures Seqs.IsSubsequence(r, listings)
    ensures forall l :: l in r <==> l in listings && Selected(l, f)
  {
    var s1 := Seqs.FilterIf(listings, f.search != "", SearchFor(f.search));
    var s2 := Seqs.FilterIf(s1, f.category != "", CategoryIs(f.category));
    var s3 := Seqs.FilterIf(s2, f.minPrice.Some?, MinBound(f));
    var s4 := Seqs.FilterIf(s3, f.maxPrice.Some?, MaxBound(f));
    var s5 := Seqs.FilterIf(s4, f.location != "", LocatedIn(f.location));
    Seqs.SubsequenceTransitive(s2, s1, listings);
    Seqs.SubsequenceTransitive(s3, s2, listings);
    Seqs.SubsequenceTransitive(s4, s3, listings);
    Seqs.SubsequenceTransitive(s5, s4, listings);
    s5
  }

  /** The column a sort option orders by. */
  datatype SortField = CreatedAt | Price

  datatype SortOption = SortOption(id: string, field: SortField, ascending: bool)

  /** The options of the sort drop-down, in menu order. */
  const SortOptions: seq<SortOption> := [
    SortOption("newest", CreatedAt, false),
    SortOption("oldest", CreatedAt, true),
    SortOption("price-low", Price, true),
    SortOption("price-high", Price, false),
    SortOption("popular", CreatedAt, false)
  ]

  /** `options.find(option => option.id === id)`. */
  function FindIn(options: seq<SortOption>, id: string): (r: Option<SortOption>)
    ensures r.Some? ==> r.value in options && r.value.id == id
    ensures r.None? <==> forall o :: o in options ==> o.id != id
  {
    if options == [] then None
    else if options[0].id == id then Some(options[0])
    else FindIn(options[1..], id)
  }

  /** The sort option chosen by the drop-down value, if any. */
  function FindSortOption(id: string): (r: Option<SortOption>)
    ensures r.Some? ==> r.value in SortOptions && r.value.id == id
    ensures r.None? <==> forall o :: o in SortOptions ==> o.id != id
  {
    FindIn(SortOptions, id)
  }

  /** "Most popular" has no popularity data behind it: it sorts exactly as
      "newest first" does; every menu entry is found. */
  lemma PopularIsNewest()
    ensures FindSortOption("popular") == Some(SortOption("popular", CreatedAt, false))
    ensures FindSortOption("newest") == Some(SortOption("newest", CreatedAt, false))
    ensures forall o :: o in SortOptions ==> FindSortOption(o.id) == Some(o)
  {
    var opts := SortOptions;
    // The ids differ in length, or, for the two of length six, in their
    // first letter.
    assert |opts[0].id| == 6 && |opts[1].id| == 6 && |opts[2].id| == 9;
    assert |opts[3].id| == 10 && |opts[4].id| == 7;
    assert opts[0].id[0] != opts[1].id[0];
    forall k | 0 <= k < |opts|
      ensures FindIn(opts, opts[k].id) == Some(opts[k])
    {
      FindFirst(opts, k);
    }
  }

  /** Looking up the id of the k-th option finds that option when no
      earlier option has the same id. */
  lemma {:induction false} FindFirst(options: seq<SortOption>, k: int)
    requires 0 <= k < |options|
    requires forall m :: 0 <= m < k ==> options[m].id != options[k].id
    ensures FindIn(options, options[k].id) == Some(options[k])
  {
    if k > 0 {
      FindFirst(options[1..], k - 1);
    }
  }

  /** The value of the column a field names. */
  function Key(l: Listing, field: SortField): int {
    match field
    case CreatedAt => l.createdAt
    case Price => l.price
  }

  /** A number that grows along the order an option asks for: the key
      itself when ascending, its negation when descending. */
  function Rank(l: Listing, o: SortOption): int {
    if o.ascending then Key(l, o.field) else -Key(l, o.field)
  }

  /** `a` may come before `b` under the option. */
  predicate InOrder(a: Listing, b: Listing, o: SortOption) {
    Rank(a, o) <= Rank(b, o)
  }

  /** The order in plain terms: ascending keeps keys non-decreasing,
      descending keeps them non-increasing. */
  lemma InOrderMeaning(a: Listing, b: Listing, o: SortOption)
    ensures InOrder(a, b, o) <==>
      if o.ascending then Key(a, o.field) <= Key(b, o.field) else Key(a, o.field) >= Key(b, o.field)
  {
  }

  predicate SortedBy(s: seq<Listing>, o: SortOption) {
    forall i, j :: 0 <= i < j < |s| ==> InOrder(s[i], s[j], o)
  }

  /** `filtered.sort(...)` with the option's comparator, in place: the
      array ends up ordered and holds the same listings as before. Which of
      two listings with equal keys comes first is not fixed by the
      comparator, and not promised here either. */
  method SortInPlace(a: array<Listing>, o: SortOption)
    modifies a
    ensures SortedBy(a[..], o)
    ensures multiset(a[..]) == multiset(old(a[..]))
  {
    var i := 0;
    while i < a.Length
      invariant 0 <= i <= a.Length
      invariant SortedPrefix(a[..], i, o)
      invariant multiset(a[..]) == multiset(old(a[..]))
    {
      InsertLast(a, i, o);
      i := i + 1;
    }
  }

  /** The first n elements are in order. */
  ghost predicate SortedPrefix(s: seq<Listing>, n: int, o: SortOption)
    requires 0 <= n <= |s|
  {
    forall p, q :: 0 <= p < q < n ==> Rank(s[p], o) <= Rank(s[q], o)
  }

  /** One pass of the insertion sort: the element at i sinks into the
      ordered prefix before it by adjacent swaps. */
  method InsertLast(a: array<Listing>, i: int, o: SortOption)
    requires 0 <= i < a.Length
    requires SortedPrefix(a[..], i, o)
    modifies a
    ensures SortedPrefix(a[..], i + 1, o)
    ensures multiset(a[..]) == multiset(old(a[..]))
  {
    var j := i;
    while j > 0 && Rank(a[j - 1], o) > Rank(a[j], o)
      invariant 0 <= j <= i
      invariant forall p, q :: 0 <= p < q <= i && p != j && q != j ==> Rank(a[p], o) <= Rank(a[q], o)
      invariant forall q :: j < q <= i ==> Rank(a[j], o) < Rank(a[q], o)
      invariant multiset(a[..]) == multiset(old(a[..]))
    {
      Swap(a, j - 1, j);
      j := j - 1;
    }
  }

  /** Exchanges two cells and nothing else. */
  method Swap(a: array<Listing>, i: int, j: int)
    requires 0 <= i < a.Length && 0 <= j < a.Length
    modifies a
    ensures a[i] == old(a[j]) && a[j] == old(a[i])
    ensures forall k :: 0 <= k < a.Length && k != i && k != j ==> a[k] == old(a[k])
    ensures multiset(a[..]) == multiset(old(a[..]))
  {
    a[i], a[j] := a[j], a[i];
  }

  /** `applyFilters`: the filters narrow a copy of the fetched list one
      after another, and a known sort option then orders the result. The
      page shows the listings the active filters accept, each as often as
      it was fetched, in the option's order; an unknown option leaves them
      in fetched order. */
  method ApplyFilters(listings: seq<Listing>, f: Filters, sortBy: string) returns (result: seq<Listing>)
    ensures forall l :: l in result <==> l in listings && Selected(l, f)
    ensures multiset(result) == multiset(Filtered(listings, f))
    ensures FindSortOption(sortBy).Some? ==> SortedBy(result, FindSortOption(sortBy).value)
    ensures FindSortOption(sortBy).None? ==> result == Filtered(listings, f)
  {
    var filtered := listings;
    filtered := Seqs.FilterIf(filtered, f.search != "", SearchFor(f.search));
    filtered := Seqs.FilterIf(filtered, f.category != "", CategoryIs(f.category));
    filtered := Seqs.FilterIf(filtered, f.minPrice.Some?, MinBound(f));
    filtered := Seqs.FilterIf(filtered, f.maxPrice.Some?, MaxBound(f));
    filtered := Seqs.FilterIf(filtered, f.location != "", LocatedIn(f.location));
    assert filtered == Filtered(listings, f);

    var option := FindSortOption(sortBy);
    if option.Some? {
      result := SortedCopy(filtered, option.value);
    } else {
      result := filtered;
    }
  }

  /** The `sort` step of `applyFilters`: the filtered listings, copied and
      put in the order of the chosen option. */
  method SortedCopy(listings: seq<Listing>, o: SortOption) returns (result: seq<Listing>)
    ensures SortedBy(result, o)
    ensures multiset(result) == multiset(listings)
    ensures forall l :: l in result <==> l in listings
  {
    var a := new Listing[|listings|](k requires 0 <= k < |listings| => listings[k]);
    assert a[..] == listings;
    SortInPlace(a, o);
    result := a[..];
    forall l | l in result
      ensures l in listings
    {
      assert l in multiset(result);
    }
    forall l | l in listings
      ensures l in result
    {
      assert l in multiset(listings);
    }
  }

  /** Filters with every input empty. */
  const NoFilters := Filters("", "", None, None, "")

  /** The badge on the filters button: how many of the five inputs are
      non-empty. */
  function ActiveFiltersCount(f: Filters): (n: nat)
    ensures n <= 5
    ensures n == 0 <==> f == NoFilters
  {
    (if f.search != "" then 1 else 0) +
    (if f.category != "" then 1 else 0) +
    (if f.minPrice.Some? then 1 else 0) +
    (if f.maxPrice.Some? then 1 else 0) +
    (if f.location != "" then 1 else 0)
  }

  /** With no filter set, every fetched listing is shown, in fetched order
      before sorting. */
  lemma {:induction false} NoFiltersKeepEverything(listings: seq<Listing>)
    ensures Filtered(listings, NoFilters) == listings
  {
  }

  /** The state of the page's inputs. */
  datatype PageState = PageState(filters: Filters, sortBy: string)

  /** `clearFilters`: every input emptied and the sort reset to newest
      first. */
  function ClearFilters(st: PageState): (r: PageState)
    ensures ActiveFiltersCount(r.filters) == 0
    ensures FindSortOption(r.sortBy) == Some(SortOption("newest", CreatedAt, false))
  {
    PageState(NoFilters, "newest")
  }

  /** After clearing, the page shows every fetched listing, newest first. */
  lemma ClearedShowsAll(st: PageState, listings: seq<Listing>)
    ensures Filtered(listings, ClearFilters(st).filters) == listings
    ensures FindSortOption(ClearFilters(st).sortBy).value.field == CreatedAt
    ensures !FindSortOption(ClearFilters(st).sortBy).value.ascending
  {
    NoFiltersKeepEverything(listings);
  }
}
