/** The listing page: the client-side filter over the catalogue and the sort
    selected in its drop-down. */
module ProductsPage {
  import opened Text
  import opened FrontItem
  import opened Collections

  /** The page's filter state: search box, category and condition selects
      ("All" for no constraint) and the inclusive price range. */
  datatype Criteria = Criteria(searchTerm: string, category: string, condition: string, low: int, high: int)

  /** The page's initial filter state. */
  const InitialCriteria: Criteria := Criteria("", "All", "All", 0, 100000)

  predicate MatchesSearch(term: string, p: Item)
  {
    Contains(ToLower(p.title), ToLower(term)) || Contains(ToLower(p.description), ToLower(term))
  }

  /** The four conditions of the filter callback, all required. */
  predicate Keeps(c: Criteria, p: Item)
  {
    && MatchesSearch(c.searchTerm, p)
    && (c.category == "All" || p.category == c.category)
    && (c.condition == "All" || p.condition == c.condition)
    && c.low <= p.price <= c.high
  }

  /** `filter` with the callback above: the kept products, in catalogue order. */
  function FilterProducts(c: Criteria, s: seq<Item>): (r: seq<Item>)
    ensures forall x :: x in r <==> x in s && Keeps(c, x)
    ensures multiset(r) <= multiset(s)
  {
    if s == [] then []
    else
      assert s == [s[0]] + s[1..];
      if Keeps(c, s[0]) then [s[0]] + FilterProducts(c, s[1..]) else FilterProducts(c, s[1..])
  }

  /** The filter works piecewise: filtering a catalogue split in two is filtering
      each part, so the kept products keep their catalogue order. */
  lemma {:induction false} FilterProductsConcat(c: Criteria, a: seq<Item>, b: seq<Item>)
    ensures FilterProducts(c, a + b) == FilterProducts(c, a) + FilterProducts(c, b)
  {
    if a != [] {
      assert (a + b)[0] == a[0];
      assert (a + b)[1..] == a[1..] + b;
      FilterProductsConcat(c, a[1..], b);
    } else {
      assert a + b == b;
    }
  }

  /** One product is kept, once, exactly when it passes the filter. */
  lemma FilterProductsSingle(c: Criteria, p: Item)
    ensures FilterProducts(c, [p]) == (if Keeps(c, p) then [p] else [])
  {
    assert [p][1..] == [];
  }

  /** When nothing fails the filter, the catalogue comes back unchanged. */
  lemma {:induction false} FilterKeepsAll(c: Criteria, s: seq<Item>)
    requires forall i :: 0 <= i < |s| ==> Keeps(c, s[i])
    ensures FilterProducts(c, s) == s
  {
    if s != [] {
      FilterKeepsAll(c, s[1..]);
    }
  }

  /** An empty search, "All" for both selects and a range that covers the price keep a product. */
  lemma OpenCriteriaKeep(p: Item, low: int, high: int)
    requires low <= p.price <= high
    ensures Keeps(Criteria("", "All", "All", low, high), p)
  {
    ContainsEmpty(ToLower(p.title));
  }

  /** The ascending key whose difference is the comparator of each sort option;
      an unrecognised option compares everything equal. */
  function SortKey(sortBy: string, p: Item): int
  {
    match sortBy
    case "newest" => -p.datePosted
    case "oldest" => p.datePosted
    case "price-low" => p.price
    case "price-high" => -p.price
    case "popular" => -(p.views + p.likes)
    case "eco-impact" => -(p.ecoImpact.co2Saved + p.ecoImpact.waterSaved)
    case _ => 0
  }

  predicate KnownSort(sortBy: string)
  {
    sortBy in {"newest", "oldest", "price-low", "price-high", "popular", "eco-impact"}
  }

  /** `filteredProducts`: the filter followed by the stable sort. */
  function Listing(c: Criteria, sortBy: string, all: seq<Item>): (r: seq<Item>)
    ensures multiset(r) == multiset(FilterProducts(c, all))
    ensures forall x :: x in r <==> x in all && Keeps(c, x)
    ensures SortedBy(r, (p: Item) => SortKey(sortBy, p))
  {
    var kept := FilterProducts(c, all);
    var r := SortBy(kept, (p: Item) => SortKey(sortBy, p));
    assert forall x :: x in r <==> x in multiset(r);
    assert forall x :: x in kept <==> x in multiset(kept);
    r
  }

  /** Each named option orders the page as its label says. */
  lemma ListingOrder(c: Criteria, sortBy: string, all: seq<Item>)
    ensures var r := Listing(c, sortBy, all);
      && (sortBy == "price-low" ==> forall i, j :: 0 <= i < j < |r| ==> r[i].price <= r[j].price)
      && (sortBy == "price-high" ==> forall i, j :: 0 <= i < j < |r| ==> r[i].price >= r[j].price)
      && (sortBy == "newest" ==> forall i, j :: 0 <= i < j < |r| ==> r[i].datePosted >= r[j].datePosted)
      && (sortBy == "oldest" ==> forall i, j :: 0 <= i < j < |r| ==> r[i].datePosted <= r[j].datePosted)
      && (sortBy == "popular" ==> forall i, j :: 0 <= i < j < |r| ==>
            r[i].views + r[i].likes >= r[j].views + r[j].likes)
      && (sortBy == "eco-impact" ==> forall i, j :: 0 <= i < j < |r| ==>
            r[i].ecoImpact.co2Saved + r[i].ecoImpact.waterSaved >= r[j].ecoImpact.co2Saved + r[j].ecoImpact.waterSaved)
  {
    var r := Listing(c, sortBy, all);
    forall i, j | 0 <= i < j < |r| ensures SortKey(sortBy, r[i]) <= SortKey(sortBy, r[j]) {
      assert SortedBy(r, (p: Item) => SortKey(sortBy, p));
    }
  }

  /** An unrecognised option keeps the filtered catalogue order. */
  lemma UnknownSortKeepsOrder(c: Criteria, sortBy: string, all: seq<Item>)
    requires !KnownSort(sortBy)
    ensures Listing(c, sortBy, all) == FilterProducts(c, all)
  {
    SortByEqualKeysIsIdentity(FilterProducts(c, all), (p: Item) => SortKey(sortBy, p));
  }
}
