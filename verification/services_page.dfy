/** The browse page (src/pages/Services.tsx): the filters a visitor sets,
    and the effect that turns the loaded listings into the ones shown —
    category, then search, then price, then one of five orders. */
module ServicesPage {
  import opened Common
  import opened Types
  import Seqs
  import Text

  datatype PriceRange = PriceRange(min: int, max: int)

  datatype Filters = Filters(searchTerm: string, category: string, priceRange: PriceRange, sortBy: string)

  /** The filters the page starts with and `handleClearFilters` restores. */
  const DefaultFilters := Filters("", "", PriceRange(0, 1000), "newest")

  datatype SortOrder = Newest | Oldest | PriceLow | PriceHigh | Rating | Unsorted

  /** The `sortBy` values the effect's `switch` knows; any other value
      leaves the filtered order as it is. */
  function ParseSortOrder(sortBy: string): (o: SortOrder)
    ensures o == Newest <==> sortBy == "newest"
    ensures o == Oldest <==> sortBy == "oldest"
    ensures o == PriceLow <==> sortBy == "price-low"
    ensures o == PriceHigh <==> sortBy == "price-high"
    ensures o == Rating <==> sortBy == "rating"
  {
    match sortBy
    case "newest" => Newest
    case "oldest" => Oldest
    case "price-low" => PriceLow
    case "price-high" => PriceHigh
    case "rating" => Rating
    case _ => Unsorted
  }

  // The three filter predicates, as the effect's callbacks.

  function InCategory(category: string): Service -> bool {
    (s: Service) => s.category == category
  }

  /** `term` is already lower-cased. */
  function MatchesTerm(term: string): Service -> bool {
    (s: Service) => Text.Contains(Text.Lower(s.title), term) || Text.Contains(Text.Lower(s.description), term)
  }

  function InPriceRange(range: PriceRange): Service -> bool {
    (s: Service) => range.min <= s.price <= range.max
  }

  // The effect's steps, in its order. An empty category or term is falsy
  // in JavaScript and skips its step.

  function ByCategory(xs: seq<Service>, category: string): seq<Service> {
    if category == "" then xs else Seqs.Filter(xs, InCategory(category))
  }

  function BySearch(xs: seq<Service>, searchTerm: string): seq<Service> {
    if searchTerm == "" then xs else Seqs.Filter(xs, MatchesTerm(Text.Lower(searchTerm)))
  }

  function ByPrice(xs: seq<Service>, range: PriceRange): seq<Service> {
    Seqs.Filter(xs, InPriceRange(range))
  }

  /** Which listings the filters let through, stated on its own terms: the
      category if one is chosen, a case-insensitive occurrence of the term
      in the title or the description if one is typed, and a price within
      both bounds inclusive. */
  ghost predicate Visible(f: Filters, s: Service) {
    && (f.category == "" || s.category == f.category)
    && (|| f.searchTerm == ""
        || Text.IsInfix(Text.Lower(f.searchTerm), Text.Lower(s.title))
        || Text.IsInfix(Text.Lower(f.searchTerm), Text.Lower(s.description)))
    && f.priceRange.min <= s.price <= f.priceRange.max
  }

  /** `Visible` in one pass, for filtering. */
  function VisibleTest(f: Filters): Service -> bool {
    (s: Service) =>
      && (f.category == "" || InCategory(f.category)(s))
      && (f.searchTerm == "" || MatchesTerm(Text.Lower(f.searchTerm))(s))
      && InPriceRange(f.priceRange)(s)
  }

  lemma VisibleTestIsVisible(f: Filters)
    ensures forall s :: VisibleTest(f)(s) <==> Visible(f, s)
  {
    forall s: Service ensures VisibleTest(f)(s) <==> Visible(f, s) {
      var t := Text.Lower(f.searchTerm);
      assert MatchesTerm(t)(s) <==> Text.IsInfix(t, Text.Lower(s.title)) || Text.IsInfix(t, Text.Lower(s.description));
    }
  }

  /** The listings the filters let through, in their loaded order. */
  function Selected(services: seq<Service>, f: Filters): (r: seq<Service>)
    ensures forall s :: s in r <==> s in services && Visible(f, s)
    ensures forall s :: multiset(r)[s] == if Visible(f, s) then multiset(services)[s] else 0
  {
    VisibleTestIsVisible(f);
    Seqs.Filter(services, VisibleTest(f))
  }

  /** The three filter steps in a row select exactly what one pass by
      `Visible` selects, in the same order. */
  lemma PipelineIsSelected(services: seq<Service>, f: Filters)
    ensures ByPrice(BySearch(ByCategory(services, f.category), f.searchTerm), f.priceRange)
         == Selected(services, f)
  {
    var c := InCategory(f.category);
    var m := MatchesTerm(Text.Lower(f.searchTerm));
    var p := InPriceRange(f.priceRange);
    var v := VisibleTest(f);
    if f.category == "" && f.searchTerm == "" {
      Seqs.FilterCongruent(services, p, v);
    } else if f.category == "" {
      Seqs.FilterFuse(services, m, p, v);
    } else if f.searchTerm == "" {
      Seqs.FilterFuse(services, c, p, v);
    } else {
      var cm := (s: Service) => c(s) && m(s);
      Seqs.FilterFuse(services, c, m, cm);
      Seqs.FilterFuse(services, cm, p, v);
    }
  }

  // Sort keys, each ascending; the descending orders negate the key, which
  // is what the comparators `b - a` amount to.

  function NewestKey(s: Service): real { -(s.createdAt as real) }
  function OldestKey(s: Service): real { s.createdAt as real }
  function PriceLowKey(s: Service): real { s.price as real }
  function PriceHighKey(s: Service): real { -(s.price as real) }
  function RatingKey(s: Service): real { -s.rating }
  function NoKey(s: Service): real { 0.0 }

  /** The key each order sorts by; without a known order every listing
      ties. */
  function SortKey(o: SortOrder): Service -> real {
    match o
    case Newest => NewestKey
    case Oldest => OldestKey
    case PriceLow => PriceLowKey
    case PriceHigh => PriceHighKey
    case Rating => RatingKey
    case Unsorted => NoKey
  }

  /** The effect's `switch (sortBy)`: a rearrangement of the filtered
      listings in the requested order, or the filtered order unchanged. */
  function Order(xs: seq<Service>, o: SortOrder): (r: seq<Service>)
    ensures multiset(r) == multiset(xs)
    ensures o == Newest ==> forall i, j :: 0 <= i < j < |r| ==> r[i].createdAt >= r[j].createdAt
    ensures o == Oldest ==> forall i, j :: 0 <= i < j < |r| ==> r[i].createdAt <= r[j].createdAt
    ensures o == PriceLow ==> forall i, j :: 0 <= i < j < |r| ==> r[i].price <= r[j].price
    ensures o == PriceHigh ==> forall i, j :: 0 <= i < j < |r| ==> r[i].price >= r[j].price
    ensures o == Rating ==> forall i, j :: 0 <= i < j < |r| ==> r[i].rating >= r[j].rating
    ensures o == Unsorted ==> r == xs
  {
    match o
    case Newest => Seqs.SortBy(xs, NewestKey)
    case Oldest => Seqs.SortBy(xs, OldestKey)
    case PriceLow => Seqs.SortBy(xs, PriceLowKey)
    case PriceHigh => Seqs.SortBy(xs, PriceHighKey)
    case Rating => Seqs.SortBy(xs, RatingKey)
    case Unsorted => xs
  }

  /** Listings that tie on the order's key keep their relative order, as
      JavaScript's stable `sort` keeps them. */
  lemma OrderIsStable(xs: seq<Service>, o: SortOrder, k: real)
    ensures Seqs.OfKey(Order(xs, o), SortKey(o), k) == Seqs.OfKey(xs, SortKey(o), k)
  {
    if o != Unsorted {
      Seqs.SortByStable(xs, SortKey(o), k);
    }
  }

  /** The listings shown for `services` under `f`. They are exactly the
      visible ones, each as often as it was loaded; every one of them has
      the chosen category, contains the term and is within the price range;
      they are in the requested order, and in loaded order when the order
      is not one the page knows. */
  function Browse(services: seq<Service>, f: Filters): (r: seq<Service>)
    ensures multiset(r) == multiset(Selected(services, f))
    ensures forall s :: s in r <==> s in services && Visible(f, s)
    ensures f.category != "" ==> forall s :: s in r ==> s.category == f.category
    ensures f.searchTerm != "" ==> forall s :: s in r ==>
      || Text.IsInfix(Text.Lower(f.searchTerm), Text.Lower(s.title))
      || Text.IsInfix(Text.Lower(f.searchTerm), Text.Lower(s.description))
    ensures forall s :: s in r ==> f.priceRange.min <= s.price <= f.priceRange.max
    ensures f.sortBy == "newest" ==> forall i, j :: 0 <= i < j < |r| ==> r[i].createdAt >= r[j].createdAt
    ensures f.sortBy == "oldest" ==> forall i, j :: 0 <= i < j < |r| ==> r[i].createdAt <= r[j].createdAt
    ensures f.sortBy == "price-low" ==> forall i, j :: 0 <= i < j < |r| ==> r[i].price <= r[j].price
    ensures f.sortBy == "price-high" ==> forall i, j :: 0 <= i < j < |r| ==> r[i].price >= r[j].price
    ensures f.sortBy == "rating" ==> forall i, j :: 0 <= i < j < |r| ==> r[i].rating >= r[j].rating
    ensures ParseSortOrder(f.sortBy) == Unsorted ==> r == Selected(services, f)
  {
    PipelineIsSelected(services, f);
    var r := Order(ByPrice(BySearch(ByCategory(services, f.category), f.searchTerm), f.priceRange),
                   ParseSortOrder(f.sortBy));
    Seqs.SameMembers(r, Selected(services, f));
    r
  }

  /** Shown listings that tie on the sort key appear in loaded order. */
  lemma BrowseIsStable(services: seq<Service>, f: Filters, k: real)
    ensures var key := SortKey(ParseSortOrder(f.sortBy));
      Seqs.OfKey(Browse(services, f), key, k) == Seqs.OfKey(Selected(services, f), key, k)
  {
    PipelineIsSelected(services, f);
    OrderIsStable(Selected(services, f), ParseSortOrder(f.sortBy), k);
  }

  /** The effect as a whole: with no listings loaded it does not run, and
      what is shown stays as it was. */
  function BrowseEffect(services: seq<Service>, f: Filters, shown: seq<Service>): (r: seq<Service>)
    ensures |services| == 0 ==> r == shown
    ensures |services| > 0 ==> r == Browse(services, f)
  {
    if |services| > 0 then Browse(services, f) else shown
  }

  /** A search term is matched without regard to ASCII case: two terms
      that lower-case alike show the same listings in the same order. */
  lemma SearchIgnoresCase(services: seq<Service>, f: Filters, term: string)
    requires Text.Lower(term) == Text.Lower(f.searchTerm)
    ensures Browse(services, f.(searchTerm := term)) == Browse(services, f)
  {
    assert term == "" <==> f.searchTerm == "" by {
      assert |Text.Lower(term)| == |term|;
    }
  }

  /** Searching for a term and for its lower-cased form shows the same
      listings: the page's own lower-casing of the term is idempotent. */
  lemma SearchByLoweredTerm(services: seq<Service>, f: Filters)
    ensures Browse(services, f.(searchTerm := Text.Lower(f.searchTerm))) == Browse(services, f)
  {
    Text.LowerIdempotent(f.searchTerm);
    SearchIgnoresCase(services, f, Text.Lower(f.searchTerm));
  }

  /** A range whose lower bound exceeds its upper one shows nothing. */
  lemma EmptyRangeShowsNothing(services: seq<Service>, f: Filters)
    requires f.priceRange.min > f.priceRange.max
    ensures Browse(services, f) == []
  {
  }

  datatype Bound = Min | Max

  /** `handlePriceRangeChange`: the named bound becomes the parsed number,
      or 0 when the input does not parse (`parseInt(value) || 0`); the other
      bound and every other filter are kept. */
  function ChangePriceRange(f: Filters, which: Bound, parsed: Option<int>): (g: Filters)
    ensures g.(priceRange := f.priceRange) == f
    ensures which == Min ==> g.priceRange.max == f.priceRange.max
    ensures which == Max ==> g.priceRange.min == f.priceRange.min
    ensures which == Min ==> g.priceRange.min == (if parsed.Some? then parsed.value else 0)
    ensures which == Max ==> g.priceRange.max == (if parsed.Some? then parsed.value else 0)
  {
    var v := parsed.GetOr(0);
    match which
    case Min => f.(priceRange := f.priceRange.(min := v))
    case Max => f.(priceRange := f.priceRange.(max := v))
  }

  /** Changing the two bounds commutes, and changing one bound twice keeps
      only the second value. */
  lemma PriceRangeChanges(f: Filters, lo: Option<int>, hi: Option<int>, again: Option<int>)
    ensures ChangePriceRange(ChangePriceRange(f, Min, lo), Max, hi)
         == ChangePriceRange(ChangePriceRange(f, Max, hi), Min, lo)
    ensures ChangePriceRange(ChangePriceRange(f, Min, lo), Min, again) == ChangePriceRange(f, Min, again)
    ensures ChangePriceRange(ChangePriceRange(f, Max, hi), Max, again) == ChangePriceRange(f, Max, again)
  {
  }

  /** `handleClearFilters`: whatever was set, the defaults again. */
  function ClearFilters(f: Filters): (g: Filters)
    ensures g.searchTerm == "" && g.category == ""
    ensures g.priceRange == PriceRange(0, 1000) && g.sortBy == "newest"
  {
    DefaultFilters
  }

  /** Under the cleared filters `Browse` yields every loaded listing priced
      from 0 to 1000 inclusive, newest first, and that is what the page
      shows once some listing is loaded. With none loaded the effect does
      not run, so the page keeps showing what it showed before, whatever
      the filters say. */
  lemma ClearedFiltersShowAffordableNewestFirst(services: seq<Service>, f: Filters, shown: seq<Service>)
    ensures var r := Browse(services, ClearFilters(f));
      && (forall s :: s in r <==> s in services && 0 <= s.price <= 1000)
      && (forall i, j :: 0 <= i < j < |r| ==> r[i].createdAt >= r[j].createdAt)
    ensures |services| > 0 ==> BrowseEffect(services, ClearFilters(f), shown) == Browse(services, ClearFilters(f))
    ensures |services| == 0 ==> BrowseEffect(services, ClearFilters(f), shown) == shown
  {
  }
}
