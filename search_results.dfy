/** The client-side search of src/components/search/SearchResults.tsx: text
    normalisation, the query, category and price filters, and the sort by the
    chosen key. The component keeps its result in the `filteredProducts` state,
    which the effect recomputes from the products and the filters. */
module SearchResults {
  import opened Strings
  import opened Seqs
  import opened Catalog
  import opened ProductSort
  import opened Wrappers

  /** The filters of the search page. Prices are whole amounts. */
  datatype FilterOptions = FilterOptions(
    query: string,
    category: string,
    minPrice: int,
    maxPrice: int,
    sortBy: string)

  /** Not removed by `/[-_]/g`. */
  predicate NotJoiner(c: char) { c != '-' && c != '_' }

  /** Not removed by `/[^\w\s]/g`. */
  predicate IsWordOrSpace(c: char) { IsWordChar(c) || IsSpace(c) }

  /** The characters a normalised text is made of. */
  predicate IsNormalChar(c: char) { IsAsciiLower(c) || IsDigit(c) || IsSpace(c) }

  /** `normalizeText`: drop `-` and `_`, drop every character that is neither a
      word character nor white space, then lower-case. */
  function Normalize(text: string): (r: string)
    ensures |r| <= |text|
    ensures forall i :: 0 <= i < |r| ==> IsNormalChar(r[i])
  {
    var kept := Filter(Filter(text, NotJoiner), IsWordOrSpace);
    FilterPreserves(Filter(text, NotJoiner), IsWordOrSpace, NotJoiner);
    ToLower(kept)
  }

  /** A text that is already normalised comes through unchanged. */
  lemma NormalizeOfNormal(s: string)
    requires forall i :: 0 <= i < |s| ==> IsNormalChar(s[i])
    ensures Normalize(s) == s
  {
    forall i | 0 <= i < |s| ensures NotJoiner(s[i]) && IsWordOrSpace(s[i]) && !IsAsciiUpper(s[i]) {
    }
    FilterAllPass(s, NotJoiner);
    FilterAllPass(s, IsWordOrSpace);
    ToLowerOfLower(s);
  }

  /** Normalising twice is normalising once. */
  lemma NormalizeIdempotent(s: string)
    ensures Normalize(Normalize(s)) == Normalize(s)
  {
    NormalizeOfNormal(Normalize(s));
  }

  /** The query test of one product. */
  predicate TextMatches(p: Product, query: string)
  {
    Contains(Normalize(p.name), Normalize(query)) || Contains(Normalize(p.category), Normalize(query))
  }

  /** The query filter runs only for a non-empty query. */
  predicate QueryPasses(f: FilterOptions, p: Product)
  {
    f.query == "" || TextMatches(p, f.query)
  }

  /** The category filter runs only for a non-empty category and compares exactly. */
  predicate CategoryPasses(f: FilterOptions, p: Product)
  {
    f.category == "" || p.category == f.category
  }

  /** Both price bounds are inclusive. */
  predicate PricePasses(f: FilterOptions, p: Product)
  {
    f.minPrice as real <= p.price && p.price <= f.maxPrice as real
  }

  predicate Matches(f: FilterOptions, p: Product)
  {
    QueryPasses(f, p) && CategoryPasses(f, p) && PricePasses(f, p)
  }

  /** The sort keys `sortProducts` knows; any other key leaves the order alone. */
  function OrderOf(sortBy: string): (r: Option<Order>)
    ensures r == Some(NameAsc) <==> sortBy == "name"
    ensures r == Some(NameDesc) <==> sortBy == "name-desc"
    ensures r == Some(PriceAsc) <==> sortBy == "price-asc"
    ensures r == Some(PriceDesc) <==> sortBy == "price-desc"
    ensures r == Some(CategoryAsc) <==> sortBy == "category"
    ensures r != Some(NewestFirst)
  {
    if sortBy == "name" then Some(NameAsc)
    else if sortBy == "name-desc" then Some(NameDesc)
    else if sortBy == "price-asc" then Some(PriceAsc)
    else if sortBy == "price-desc" then Some(PriceDesc)
    else if sortBy == "category" then Some(CategoryAsc)
    else None
  }

  /** `sortProducts`: a sorted copy for a known key, the same order otherwise. */
  function SortProducts(products: seq<Product>, sortBy: string): (r: seq<Product>)
    ensures multiset(r) == multiset(products)
    ensures OrderOf(sortBy).None? ==> r == products
  {
    var o := OrderOf(sortBy);
    if o.Some? then Sort(o.value, products) else products
  }

  /** A known key puts the products in key order. */
  lemma SortProductsSorted(products: seq<Product>, sortBy: string, o: Order)
    requires OrderOf(sortBy) == Some(o)
    ensures Sorted(o, SortProducts(products, sortBy))
  {
    SortSorted(o, products);
  }

  /** Products with equal keys keep their relative order. */
  lemma SortProductsStable(products: seq<Product>, sortBy: string, o: Order, z: Product)
    requires OrderOf(sortBy) == Some(o)
    ensures TiesOf(o, SortProducts(products, sortBy), z) == TiesOf(o, products, z)
  {
    SortStable(o, products, z);
  }

  /** The filters as predicates on products. */
  function QueryTest(query: string): Product -> bool { p => TextMatches(p, query) }
  function CategoryTest(category: string): Product -> bool { (p: Product) => p.category == category }
  function PriceTest(f: FilterOptions): Product -> bool { p => PricePasses(f, p) }
  function QueryPassTest(f: FilterOptions): Product -> bool { p => QueryPasses(f, p) }
  function QueryCategoryTest(f: FilterOptions): Product -> bool { p => QueryPasses(f, p) && CategoryPasses(f, p) }
  function MatchTest(f: FilterOptions): Product -> bool { p => Matches(f, p) }

  /** The products that pass all three filters, in their input order. */
  function Selected(products: seq<Product>, f: FilterOptions): (r: seq<Product>)
    ensures forall p :: p in r <==> p in products && Matches(f, p)
  {
    Filter(products, MatchTest(f))
  }

  /** What the effect stores: the selected products, sorted by the chosen key. */
  function Search(products: seq<Product>, f: FilterOptions): (r: seq<Product>)
    ensures multiset(r) == multiset(Selected(products, f))
  {
    SortProducts(Selected(products, f), f.sortBy)
  }

  /** A product is in the result exactly when it is in the input and passes the
      query, category and price tests. */
  lemma SearchMembership(products: seq<Product>, f: FilterOptions, p: Product)
    ensures p in Search(products, f) <==>
      p in products
      && (f.query == ""
          || Contains(Normalize(p.name), Normalize(f.query))
          || Contains(Normalize(p.category), Normalize(f.query)))
      && (f.category == "" || p.category == f.category)
      && f.minPrice as real <= p.price <= f.maxPrice as real
  {
    assert p in Search(products, f) <==> p in multiset(Search(products, f));
    assert p in Selected(products, f) <==> p in multiset(Selected(products, f));
  }

  /** Before sorting, the result is an order-preserving subsequence of the input. */
  lemma SelectedIsSubsequence(products: seq<Product>, f: FilterOptions)
    ensures IsSubsequence(Selected(products, f), products)
  {
    FilterIsSubsequence(products, MatchTest(f));
  }

  /** An unknown sort key keeps the input order. */
  lemma SearchUnknownKey(products: seq<Product>, f: FilterOptions)
    requires OrderOf(f.sortBy).None?
    ensures Search(products, f) == Selected(products, f)
    ensures IsSubsequence(Search(products, f), products)
  {
    SelectedIsSubsequence(products, f);
  }

  /** A known key gives a permutation of the selected products, in key order. */
  lemma SearchKnownKey(products: seq<Product>, f: FilterOptions, o: Order)
    requires OrderOf(f.sortBy) == Some(o)
    ensures Sorted(o, Search(products, f))
    ensures multiset(Search(products, f)) == multiset(Selected(products, f))
  {
    SortProductsSorted(Selected(products, f), f.sortBy, o);
  }

  /** A query that normalises to nothing (only punctuation, say) keeps every product. */
  lemma BlankQueryKeepsAll(f: FilterOptions, p: Product)
    requires Normalize(f.query) == ""
    ensures QueryPasses(f, p)
  {
    ContainsEmpty(Normalize(p.name));
  }

  /** Every product of the result passes the filters again. */
  lemma SearchAllMatch(products: seq<Product>, f: FilterOptions)
    ensures forall i :: 0 <= i < |Search(products, f)| ==> Matches(f, Search(products, f)[i])
  {
    forall i | 0 <= i < |Search(products, f)| ensures Matches(f, Search(products, f)[i]) {
      var p := Search(products, f)[i];
      assert p in multiset(Search(products, f));
      assert p in Selected(products, f);
    }
  }

  /** Searching the result again with the same filters changes nothing. */
  lemma SearchIdempotent(products: seq<Product>, f: FilterOptions)
    ensures Search(Search(products, f), f) == Search(products, f)
  {
    var r := Search(products, f);
    SearchAllMatch(products, f);
    FilterAllPass(r, MatchTest(f));
    assert Selected(r, f) == r;
    var o := OrderOf(f.sortBy);
    if o.Some? {
      SortProductsSorted(Selected(products, f), f.sortBy, o.value);
      SortOfSorted(o.value, r);
    }
  }

  /** The query filter, when it runs. */
  function QueryStep(s: seq<Product>, f: FilterOptions): seq<Product>
  {
    if f.query != "" then Filter(s, QueryTest(f.query)) else s
  }

  /** The category filter, when it runs. */
  function CategoryStep(s: seq<Product>, f: FilterOptions): seq<Product>
  {
    if f.category != "" then Filter(s, CategoryTest(f.category)) else s
  }

  /** The three filters one after the other select what the combined test selects. */
  lemma PipelineIsSelected(products: seq<Product>, f: FilterOptions)
    ensures Filter(CategoryStep(QueryStep(products, f), f), PriceTest(f)) == Selected(products, f)
  {
    var q := QueryStep(products, f);
    if f.query != "" {
      FilterExt(products, QueryTest(f.query), QueryPassTest(f));
    } else {
      FilterAllPass(products, QueryPassTest(f));
    }
    assert q == Filter(products, QueryPassTest(f));
    var c := CategoryStep(q, f);
    if f.category != "" {
      FilterFilter(products, QueryPassTest(f), CategoryTest(f.category), QueryCategoryTest(f));
    } else {
      FilterAllPass(q, QueryPassTest(f));
      FilterFilter(products, QueryPassTest(f), QueryPassTest(f), QueryCategoryTest(f));
    }
    assert c == Filter(products, QueryCategoryTest(f));
    FilterFilter(products, QueryCategoryTest(f), PriceTest(f), MatchTest(f));
  }

  /** The search page's result state. */
  class SearchView {
    var filteredProducts: seq<Product>

    /** The state starts as the unfiltered products. */
    constructor (products: seq<Product>)
      ensures filteredProducts == products
    {
      filteredProducts := products;
    }

    /** The effect: narrow the list filter by filter, sort it, store it. */
    method Refresh(products: seq<Product>, filters: FilterOptions)
      modifies this
      ensures filteredProducts == Search(products, filters)
    {
      var filtered := products;
      if filters.query != "" {
        filtered := Filter(filtered, QueryTest(filters.query));
      }
      if filters.category != "" {
        filtered := Filter(filtered, CategoryTest(filters.category));
      }
      filtered := Filter(filtered, PriceTest(filters));
      PipelineIsSelected(products, filters);
      filtered := SortProducts(filtered, filters.sortBy);
      filteredProducts := filtered;
    }
  }
}
