/**
 * The category page's catalogue query: a gender filter chosen by the route,
 * then price-range, colour and size filters, then one of three sort orders;
 * the de-duplicated colour and size lists offered as filters; and the
 * filter-state updates made by the sidebar controls.
 *
 * Prices are in millimes; the slider works in whole dinars.
 */
module CategoryPage {
  import opened Types
  import opened Seqs

  /** Whether a product belongs under the route's `gender` parameter. */
  predicate GenderMatches(route: Option<string>, p: Product)
  {
    if route == Some("homme") then p.gender == Some(Homme)
    else if route == Some("femme") then p.gender == Some(Femme)
    else if route == Some("enfant") then p.gender == Some(Unisexe)
    else true
  }

  /** `filteredProducts`. */
  function GenderFiltered(catalog: seq<Product>, route: Option<string>): seq<Product>
  {
    Filter(catalog, (p: Product) => GenderMatches(route, p))
  }

  /** 'homme' and 'femme' keep their own gender, 'enfant' keeps 'unisexe', any other route keeps everything. */
  lemma GenderFilterSpec(catalog: seq<Product>, route: Option<string>, p: Product)
    ensures route == Some("homme") ==> (p in GenderFiltered(catalog, route) <==> p in catalog && p.gender == Some(Homme))
    ensures route == Some("femme") ==> (p in GenderFiltered(catalog, route) <==> p in catalog && p.gender == Some(Femme))
    ensures route == Some("enfant") ==> (p in GenderFiltered(catalog, route) <==> p in catalog && p.gender == Some(Unisexe))
    ensures route !in {Some("homme"), Some("femme"), Some("enfant")} ==> GenderFiltered(catalog, route) == catalog
  {
    if route !in {Some("homme"), Some("femme"), Some("enfant")} {
      FilterAll(catalog, (q: Product) => GenderMatches(route, q));
    }
  }

  /** The sidebar state: sort key, price range and the selected colours and sizes. */
  datatype Filters = Filters(
    sortBy: string,
    minPrice: int,
    maxPrice: int,
    selectedColors: seq<string>,
    selectedSizes: seq<string>)

  /** Default state: sorted by name, price range [0, 200] TND, nothing selected. */
  const InitialFilters: Filters := Filters("name", 0, 200 * Millimes, [], [])

  /** `selected.length === 0 || values.some(v => selected.includes(v))`. */
  predicate MatchesSelection(values: seq<string>, selected: seq<string>)
  {
    |selected| == 0 || exists v :: v in values && v in selected
  }

  /** The conjunction `priceInRange && colorMatch && sizeMatch`. */
  predicate PassesFilters(f: Filters, p: Product)
  {
    && f.minPrice <= p.price <= f.maxPrice
    && MatchesSelection(p.colors, f.selectedColors)
    && MatchesSelection(p.sizes, f.selectedSizes)
  }

  /** `finalProducts`. */
  function FinalProducts(catalog: seq<Product>, route: Option<string>, f: Filters): seq<Product>
  {
    Filter(GenderFiltered(catalog, route), (p: Product) => PassesFilters(f, p))
  }

  /**
   * A product survives iff it is in the catalogue, matches the gender, has a
   * price in the inclusive range, and shares a colour and a size with the
   * selections (an empty selection accepts every product); a surviving
   * product is listed as often as in the catalogue.
   */
  lemma FinalProductsSpec(catalog: seq<Product>, route: Option<string>, f: Filters, p: Product)
    ensures p in FinalProducts(catalog, route, f) <==>
      && p in catalog
      && GenderMatches(route, p)
      && f.minPrice <= p.price <= f.maxPrice
      && (|f.selectedColors| == 0 || exists c :: c in p.colors && c in f.selectedColors)
      && (|f.selectedSizes| == 0 || exists s :: s in p.sizes && s in f.selectedSizes)
    ensures multiset(FinalProducts(catalog, route, f))[p] ==
      if GenderMatches(route, p) && PassesFilters(f, p) then multiset(catalog)[p] else 0
  {
    FilterCounts(catalog, (q: Product) => GenderMatches(route, q));
    FilterCounts(GenderFiltered(catalog, route), (q: Product) => PassesFilters(f, q));
  }

  /** The filtered list is a subsequence of the gender list, which is a subsequence of the catalogue. */
  lemma FinalProductsOrder(catalog: seq<Product>, route: Option<string>, f: Filters)
    ensures IsSubsequence(FinalProducts(catalog, route, f), GenderFiltered(catalog, route))
    ensures IsSubsequence(GenderFiltered(catalog, route), catalog)
    ensures IsSubsequence(FinalProducts(catalog, route, f), catalog)
  {
    var g := GenderFiltered(catalog, route);
    FilterIsSubsequence(catalog, (p: Product) => GenderMatches(route, p));
    FilterIsSubsequence(g, (p: Product) => PassesFilters(f, p));
    SubsequenceTrans(FinalProducts(catalog, route, f), g, catalog);
  }

  /** The sort comparator for each key (`localeCompare` is the parameter `compareNames`). */
  function Comparator(sortBy: string, compareNames: (string, string) -> int): (Product, Product) -> int
  {
    (a: Product, b: Product) =>
      if sortBy == "price-low" then a.price - b.price
      else if sortBy == "price-high" then b.price - a.price
      else if sortBy == "name" then compareNames(a.name, b.name)
      else 0
  }

  /** `sortedProducts`: the list the grid shows. */
  function SortedProducts(catalog: seq<Product>, route: Option<string>, f: Filters,
                          compareNames: (string, string) -> int): seq<Product>
  {
    Sort(FinalProducts(catalog, route, f), Comparator(f.sortBy, compareNames))
  }

  /**
   * Sorting only reorders the filtered list, so the "N produit(s) trouvé(s)"
   * count equals the number of products that pass the filters.
   */
  lemma SortedIsPermutation(catalog: seq<Product>, route: Option<string>, f: Filters,
                            compareNames: (string, string) -> int)
    ensures multiset(SortedProducts(catalog, route, f, compareNames)) == multiset(FinalProducts(catalog, route, f))
    ensures |SortedProducts(catalog, route, f, compareNames)| == |FinalProducts(catalog, route, f)|
  {
  }

  /** 'price-low' puts cheaper products first. */
  lemma PriceLowOrder(catalog: seq<Product>, route: Option<string>, f: Filters,
                      compareNames: (string, string) -> int)
    requires f.sortBy == "price-low"
    ensures var r := SortedProducts(catalog, route, f, compareNames);
      forall i, j :: 0 <= i < j < |r| ==> r[i].price <= r[j].price
  {
    var cmp := Comparator(f.sortBy, compareNames);
    assert ConsistentComparator(cmp);
    SortSorted(FinalProducts(catalog, route, f), cmp);
  }

  /** 'price-high' puts dearer products first. */
  lemma PriceHighOrder(catalog: seq<Product>, route: Option<string>, f: Filters,
                       compareNames: (string, string) -> int)
    requires f.sortBy == "price-high"
    ensures var r := SortedProducts(catalog, route, f, compareNames);
      forall i, j :: 0 <= i < j < |r| ==> r[i].price >= r[j].price
  {
    var cmp := Comparator(f.sortBy, compareNames);
    assert ConsistentComparator(cmp);
    SortSorted(FinalProducts(catalog, route, f), cmp);
  }

  /** A name comparator that orders every pair and is transitive, as `localeCompare` is meant to be. */
  ghost predicate ConsistentNameOrder(compareNames: (string, string) -> int)
  {
    && (forall a, b :: compareNames(a, b) <= 0 || compareNames(b, a) <= 0)
    && (forall a, b, c :: compareNames(a, b) <= 0 && compareNames(b, c) <= 0 ==> compareNames(a, c) <= 0)
  }

  /** 'name' orders products by the name comparator. */
  lemma NameOrder(catalog: seq<Product>, route: Option<string>, f: Filters,
                  compareNames: (string, string) -> int)
    requires f.sortBy == "name" && ConsistentNameOrder(compareNames)
    ensures var r := SortedProducts(catalog, route, f, compareNames);
      forall i, j :: 0 <= i < j < |r| ==> compareNames(r[i].name, r[j].name) <= 0
  {
    var cmp := Comparator(f.sortBy, compareNames);
    forall a: Product, b: Product ensures cmp(a, b) == compareNames(a.name, b.name) {
    }
    assert ConsistentComparator(cmp);
    SortSorted(FinalProducts(catalog, route, f), cmp);
  }

  /** Any other sort key compares every pair as equal, and the stable sort keeps the filtered order. */
  lemma OtherKeyKeepsOrder(catalog: seq<Product>, route: Option<string>, f: Filters,
                           compareNames: (string, string) -> int)
    requires f.sortBy !in {"price-low", "price-high", "name"}
    ensures SortedProducts(catalog, route, f, compareNames) == FinalProducts(catalog, route, f)
  {
    SortAllTies(FinalProducts(catalog, route, f), Comparator(f.sortBy, compareNames));
  }

  /** `allColors`: every colour of the gender list, once each, in order of first appearance. */
  function AllColors(catalog: seq<Product>, route: Option<string>): seq<string>
  {
    Dedup(FlatMap(GenderFiltered(catalog, route), (p: Product) => p.colors))
  }

  /** `allSizes`: every size of the gender list, once each, in order of first appearance. */
  function AllSizes(catalog: seq<Product>, route: Option<string>): seq<string>
  {
    Dedup(FlatMap(GenderFiltered(catalog, route), (p: Product) => p.sizes))
  }

  /** The colour list holds exactly the colours of the gender-filtered products, each once. */
  lemma AllColorsSpec(catalog: seq<Product>, route: Option<string>, c: string)
    ensures var g := GenderFiltered(catalog, route);
      multiset(AllColors(catalog, route))[c] == if exists p :: p in g && c in p.colors then 1 else 0
    ensures NoDups(AllColors(catalog, route))
  {
    FlatMapMembers(GenderFiltered(catalog, route), (p: Product) => p.colors, c);
    CountOneNoDups(AllColors(catalog, route));
  }

  /** The size list holds exactly the sizes of the gender-filtered products, each once. */
  lemma AllSizesSpec(catalog: seq<Product>, route: Option<string>, s: string)
    ensures var g := GenderFiltered(catalog, route);
      multiset(AllSizes(catalog, route))[s] == if exists p :: p in g && s in p.sizes then 1 else 0
    ensures NoDups(AllSizes(catalog, route))
  {
    FlatMapMembers(GenderFiltered(catalog, route), (p: Product) => p.sizes, s);
    CountOneNoDups(AllSizes(catalog, route));
  }

  /** The size button: remove every copy of a selected size, append an unselected one. */
  function ToggleSize(selected: seq<string>, size: string): seq<string>
  {
    if size in selected then Filter(selected, (s: string) => s != size) else selected + [size]
  }

  /** The colour checkbox: append when checked, remove every copy when unchecked. */
  function ChangeColor(selected: seq<string>, color: string, checked: bool): seq<string>
  {
    if checked then selected + [color] else Filter(selected, (c: string) => c != color)
  }

  /**
   * Toggling an unselected size appends it; toggling a selected one removes
   * every copy and keeps every copy of the others, in order; toggling an
   * unselected size twice restores the selection.
   */
  lemma ToggleSizeSpec(selected: seq<string>, size: string)
    ensures size !in selected ==> ToggleSize(selected, size) == selected + [size]
    ensures size in selected ==>
      && size !in ToggleSize(selected, size)
      && IsSubsequence(ToggleSize(selected, size), selected)
      && forall s :: multiset(ToggleSize(selected, size))[s] == if s == size then 0 else multiset(selected)[s]
    ensures size !in selected ==> ToggleSize(ToggleSize(selected, size), size) == selected
  {
    var keep := (s: string) => s != size;
    FilterIsSubsequence(selected, keep);
    FilterCounts(selected, keep);
    if size !in selected {
      var t := selected + [size];
      assert ToggleSize(t, size) == Filter(t, keep);
      FilterAppendDropped(selected, size, keep);
      FilterAll(selected, keep);
    }
  }

  lemma {:induction false} FilterAppendDropped(s: seq<string>, x: string, p: string -> bool)
    requires !p(x)
    ensures Filter(s + [x], p) == Filter(s, p)
    decreases |s|
  {
    if s != [] {
      assert (s + [x])[1..] == s[1..] + [x];
      FilterAppendDropped(s[1..], x, p);
    }
  }

  /**
   * The checkbox is rendered `checked` iff the colour is selected, so a
   * click delivers `checked == color !in selected` and acts exactly as the
   * size toggle does.
   */
  lemma ColorCheckboxIsToggle(selected: seq<string>, color: string)
    ensures ChangeColor(selected, color, color !in selected) == ToggleSize(selected, color)
  {
  }

  /** A toggle keeps a selection free of duplicates. */
  lemma ToggleKeepsNoDups(selected: seq<string>, size: string)
    requires NoDups(selected)
    ensures NoDups(ToggleSize(selected, size))
  {
    if size in selected {
      FilterKeepsNoDups(selected, (s: string) => s != size);
    }
  }

  /** A user action on the sidebar. */
  datatype Event =
    | SortSelected(key: string)
    | PriceSlid(dinars: int)
    | ColorClicked(color: string)
    | SizeClicked(size: string)

  /** The state after one action; the slider only ever changes the upper bound. */
  function Apply(f: Filters, e: Event): Filters
  {
    match e
    case SortSelected(key) => f.(sortBy := key)
    case PriceSlid(dinars) => f.(maxPrice := dinars * Millimes)
    case ColorClicked(color) =>
      f.(selectedColors := ChangeColor(f.selectedColors, color, color !in f.selectedColors))
    case SizeClicked(size) => f.(selectedSizes := ToggleSize(f.selectedSizes, size))
  }

  function ApplyAll(f: Filters, events: seq<Event>): Filters
    decreases |events|
  {
    if events == [] then f else ApplyAll(Apply(f, events[0]), events[1..])
  }

  /**
   * From the initial state, after any sequence of actions, the lower price
   * bound is still 0 and neither selection holds a duplicate.
   */
  lemma {:induction false} ReachableFilters(f: Filters, events: seq<Event>)
    requires f.minPrice == 0 && NoDups(f.selectedColors) && NoDups(f.selectedSizes)
    ensures ApplyAll(f, events).minPrice == 0
    ensures NoDups(ApplyAll(f, events).selectedColors) && NoDups(ApplyAll(f, events).selectedSizes)
    decreases |events|
  {
    if events != [] {
      var g := Apply(f, events[0]);
      ColorCheckboxIsToggle(f.selectedColors, if events[0].ColorClicked? then events[0].color else "");
      ToggleKeepsNoDups(f.selectedColors, if events[0].ColorClicked? then events[0].color else "");
      ToggleKeepsNoDups(f.selectedSizes, if events[0].SizeClicked? then events[0].size else "");
      ReachableFilters(g, events[1..]);
    }
  }

  /** The initial state sorts by name over [0, 200] TND and the lower bound stays 0 forever. */
  lemma InitialFiltersSpec(events: seq<Event>)
    ensures InitialFilters.sortBy == "name" && InitialFilters.maxPrice == 200 * Millimes
    ensures ApplyAll(InitialFilters, events).minPrice == 0
  {
    ReachableFilters(InitialFilters, events);
  }
}
