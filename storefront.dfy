/** The shopper-facing catalog reads of src/app/actions.ts. The MongoDB
    collection is a sequence of products in its natural order; whether the
    connection and the query succeed is a parameter. */
module Storefront {
  import opened Wrappers
  import opened Strings
  import opened Seqs
  import opened Catalog
  import Enums
  import Slugs
  import Uri

  /** The shop shows only products whose status is `VISIBLE`. */
  predicate IsVisible(p: Product)
  {
    p.status == Enums.Status.Visible.Value()
  }

  function VisibleTest(): Product -> bool { p => IsVisible(p) }
  function VisibleInTest(category: string): Product -> bool { p => IsVisible(p) && p.category == category }
  function VisibleWithIdTest(id: string): Product -> bool { p => IsVisible(p) && p.id == id }
  function OtherIdTest(id: string): Product -> bool { (p: Product) => p.id != id }

  /** The index of the first element satisfying `test`, if any. */
  function FindIndex(s: seq<Product>, test: Product -> bool): (r: Option<nat>)
    ensures r.Some? ==> r.value < |s| && test(s[r.value])
    ensures r.Some? ==> forall k :: 0 <= k < r.value ==> !test(s[k])
    ensures r.None? ==> forall k :: 0 <= k < |s| ==> !test(s[k])
  {
    if s == [] then None
    else if test(s[0]) then Some(0)
    else
      var rest := FindIndex(s[1..], test);
      if rest.Some? then Some(rest.value + 1) else None
  }

  /** `findOne`: the first matching document in natural order. */
  function FindFirst(s: seq<Product>, test: Product -> bool): (r: Option<Product>)
    ensures r.Some? ==> r.value in s && test(r.value)
    ensures r.None? <==> forall k :: 0 <= k < |s| ==> !test(s[k])
  {
    var i := FindIndex(s, test);
    if i.Some? then Some(s[i.value]) else None
  }

  /** `getAllProducts`: the visible products, or the error it throws. */
  function GetAllProducts(store: seq<Product>, dbOk: bool): (r: Result<seq<Product>>)
    ensures !dbOk <==> r == Failure("Failed to fetch category products")
    ensures r.Success? ==> forall p :: p in r.value <==> p in store && IsVisible(p)
  {
    if !dbOk then Failure("Failed to fetch category products") else Success(Filter(store, VisibleTest()))
  }

  /** `getCategoryProducts`: the visible products of one category. */
  function GetCategoryProducts(store: seq<Product>, category: string, dbOk: bool): (r: Result<seq<Product>>)
    ensures !dbOk <==> r == Failure("Failed to fetch category products")
    ensures r.Success? ==> forall p :: p in r.value <==> p in store && IsVisible(p) && p.category == category
  {
    if !dbOk then Failure("Failed to fetch category products")
    else Success(Filter(store, VisibleInTest(category)))
  }

  /** Both listings keep the collection's order. */
  lemma ListingsKeepOrder(store: seq<Product>, category: string)
    ensures IsSubsequence(GetAllProducts(store, true).value, store)
    ensures IsSubsequence(GetCategoryProducts(store, category, true).value, store)
  {
    FilterIsSubsequence(store, VisibleTest());
    FilterIsSubsequence(store, VisibleInTest(category));
  }

  /** A category listing is the category's part of the full listing. */
  lemma CategoryListingIsPartOfAll(store: seq<Product>, category: string)
    ensures GetCategoryProducts(store, category, true).value
         == Filter(GetAllProducts(store, true).value, (p: Product) => p.category == category)
  {
    FilterFilter(store, VisibleTest(), (p: Product) => p.category == category, VisibleInTest(category));
  }

  /** `getProduct`: the visible product with that id; `undefined` when there is
      none and when the read fails, since the error is only logged. */
  function GetProduct(store: seq<Product>, id: string, dbOk: bool): (r: Option<Product>)
    ensures r.Some? ==> r.value in store && r.value.id == id && IsVisible(r.value)
    ensures r.None? <==> !dbOk || forall k :: 0 <= k < |store| ==> !(store[k].id == id && IsVisible(store[k]))
  {
    if !dbOk then None else FindFirst(store, VisibleWithIdTest(id))
  }

  /** Hidden and deleted products are never returned by id. */
  lemma GetProductNeverHidden(store: seq<Product>, id: string, dbOk: bool)
    ensures GetProduct(store, id, dbOk).Some? ==>
      GetProduct(store, id, dbOk).value.status != Enums.Status.Hide.Value()
      && GetProduct(store, id, dbOk).value.status != Enums.Status.Deleted.Value()
  {
  }

  /** The characters that make a regular expression more than a literal. */
  predicate IsRegexMeta(c: char)
  {
    c == '^' || c == '$' || c == '\\' || c == '.' || c == '*' || c == '+' || c == '?'
    || c == '(' || c == ')' || c == '[' || c == ']' || c == '{' || c == '}' || c == '|'
  }

  predicate HasRegexMeta(s: string)
  {
    exists i :: 0 <= i < |s| && IsRegexMeta(s[i])
  }

  /** Equal up to the case of ASCII letters. */
  predicate EqualsIgnoreCase(a: string, b: string)
  {
    ToLower(a) == ToLower(b)
  }

  /** The regular-expression engine, which this model does not define: whether
      `new RegExp('^' + pattern + '$', 'i')` accepts a pattern (it throws a
      SyntaxError otherwise, as for `a(`), and whether the compiled expression
      matches a candidate. */
  datatype Regex = Regex(compiles: string -> bool, test: (string, string) -> bool)

  /** The constructor accepts the pattern. Without metacharacters the pattern is a
      literal, and a literal always compiles. */
  predicate PatternCompiles(pattern: string, regex: Regex)
  {
    !HasRegexMeta(pattern) || regex.compiles(pattern)
  }

  /** The anchored, case-insensitive expression matched against `candidate`.
      Without metacharacters the anchors make the test whole-string equality up to
      case; otherwise the engine decides. */
  predicate NameMatches(candidate: string, pattern: string, regex: Regex)
  {
    if HasRegexMeta(pattern) then regex.test(pattern, candidate) else EqualsIgnoreCase(candidate, pattern)
  }

  function VisibleNamedTest(pattern: string, regex: Regex): Product -> bool
  {
    p => IsVisible(p) && NameMatches(p.name, pattern, regex)
  }

  function VisibleNamedLiterallyTest(name: string): Product -> bool
  {
    p => IsVisible(p) && EqualsIgnoreCase(p.name, name)
  }

  /** `getProductByName`: decode the slug, build the anchored expression, then the
      first visible product whose name matches it. A slug that does not decode
      makes `slugToName` throw, and a decoded name that is not a valid pattern
      makes the `RegExp` constructor throw; the handler turns both into the same
      error as a failed read. */
  function GetProductByName(store: seq<Product>, slug: string, dbOk: bool, regex: Regex)
    : (r: Result<Option<Product>>)
    ensures r.Failure? <==>
      !dbOk || Slugs.SlugToName(slug).None? || !PatternCompiles(Slugs.SlugToName(slug).value, regex)
    ensures r.Failure? ==> r.error == "Failed to fetch product"
    ensures r.Success? && r.value.Some? ==> r.value.value in store && IsVisible(r.value.value)
    ensures r.Success? && r.value.Some? ==>
      NameMatches(r.value.value.name, Slugs.SlugToName(slug).value, regex)
    ensures r.Success? && r.value.None? ==>
      forall p :: p in store && IsVisible(p) ==> !NameMatches(p.name, Slugs.SlugToName(slug).value, regex)
  {
    if !dbOk then Failure("Failed to fetch product")
    else
      var name := Slugs.SlugToName(slug);
      if name.None? then Failure("Failed to fetch product")
      else if !PatternCompiles(name.value, regex) then Failure("Failed to fetch product")
      else Success(FindFirst(store, VisibleNamedTest(name.value, regex)))
  }

  /** The slug `a(` decodes to `a(`, an unterminated group: where the engine
      rejects it, the lookup fails instead of searching. */
  lemma UnterminatedGroupFails(store: seq<Product>, regex: Regex)
    requires !regex.compiles("a(")
    ensures Slugs.SlugToName("a(") == Some("a(")
    ensures GetProductByName(store, "a(", true, regex) == Failure("Failed to fetch product")
  {
    var name := "a(";
    assert '%' !in name by {
      assert name == ['a', '('];
    }
    Uri.DecodeWithoutEscapes(name);
    assert ReplaceChar(name, '-', ' ') == name;
    TrimOfTrimmed(name);
    assert IsRegexMeta(name[1]);
  }

  /** `findOne` with predicates that agree is the same lookup. */
  lemma {:induction false} FindIndexExt(s: seq<Product>, p: Product -> bool, q: Product -> bool)
    requires forall k :: 0 <= k < |s| ==> p(s[k]) == q(s[k])
    ensures FindIndex(s, p) == FindIndex(s, q)
  {
    if s != [] {
      FindIndexExt(s[1..], p, q);
    }
  }

  /** A name of word characters and spaces has no metacharacter, so the lookup is literal. */
  lemma LiteralLookup(store: seq<Product>, decoded: string, regex: Regex)
    requires forall i :: 0 <= i < |decoded| ==> Slugs.IsWordOrSpace(decoded[i])
    ensures PatternCompiles(decoded, regex)
    ensures FindFirst(store, VisibleNamedTest(decoded, regex)) == FindFirst(store, VisibleNamedLiterallyTest(decoded))
  {
    assert !HasRegexMeta(decoded) by {
      forall i | 0 <= i < |decoded| ensures !IsRegexMeta(decoded[i]) {
        assert Slugs.IsWordOrSpace(decoded[i]);
      }
    }
    FindIndexExt(store, VisibleNamedTest(decoded, regex), VisibleNamedLiterallyTest(decoded));
  }

  /** For a slug made by `nameToSlug`, the lookup is a whole-name, case-insensitive
      comparison with the decoded name, whatever the regular-expression engine does
      with metacharacters. */
  lemma LookupBySlugIsLiteral(store: seq<Product>, name: string, regex: Regex)
    ensures Slugs.SlugToName(Slugs.NameToSlug(name)).Some?
    ensures GetProductByName(store, Slugs.NameToSlug(name), true, regex)
         == Success(FindFirst(store, VisibleNamedLiterallyTest(Slugs.SlugToName(Slugs.NameToSlug(name)).value)))
  {
    var slug := Slugs.NameToSlug(name);
    Slugs.DecodedSlugIsWordsAndSpaces(name);
    LiteralLookup(store, Slugs.SlugToName(slug).value, regex);
  }

  /** A simple name is found again from its own slug, up to case. */
  lemma LookupOfSimpleName(store: seq<Product>, name: string, regex: Regex)
    requires Slugs.IsSimpleName(name)
    ensures GetProductByName(store, Slugs.NameToSlug(name), true, regex)
         == Success(FindFirst(store, VisibleNamedLiterallyTest(name)))
  {
    LookupBySlugIsLiteral(store, name, regex);
    Slugs.SlugRoundTrip(name);
  }

  // ---------------------------------------------------------------------------
  // Related products

  /** `[shuffled[i], shuffled[j]] = [shuffled[j], shuffled[i]]`. */
  function Swap(s: seq<Product>, i: nat, j: nat): (r: seq<Product>)
    requires i < |s| && j < |s|
    ensures |r| == |s| && multiset(r) == multiset(s)
  {
    s[i := s[j]][j := s[i]]
  }

  /** The random index choices the loop may make: `choose[i]` lies in `[0, i]`. */
  predicate ValidChoices(choose: seq<nat>, n: nat)
  {
    |choose| == n && forall i :: 0 <= i < n ==> choose[i] <= i
  }

  /** The array after the loop iterations for positions `n - 1` down to `i`. */
  function SwapsFrom(s: seq<Product>, choose: seq<nat>, i: nat): (r: seq<Product>)
    requires ValidChoices(choose, |s|) && 1 <= i <= |s|
    ensures |r| == |s| && multiset(r) == multiset(s)
    decreases |s| - i
  {
    if i == |s| then s else Swap(SwapsFrom(s, choose, i + 1), i, choose[i])
  }

  /** `shuffleArray` with the given index choices. */
  function Shuffled(s: seq<Product>, choose: seq<nat>): (r: seq<Product>)
    requires ValidChoices(choose, |s|)
    ensures |r| == |s| && multiset(r) == multiset(s)
  {
    if s == [] then [] else SwapsFrom(s, choose, 1)
  }

  /** `shuffleArray`: a copy of the input, shuffled in place by the downward loop. */
  method ShuffleArray(input: array<Product>, choose: seq<nat>) returns (shuffled: array<Product>)
    requires ValidChoices(choose, input.Length)
    ensures fresh(shuffled)
    ensures shuffled[..] == Shuffled(input[..], choose)
  {
    ghost var original := input[..];
    shuffled := new Product[input.Length](k reads input requires 0 <= k < input.Length => input[k]);
    assert shuffled[..] == original;
    if input.Length == 0 {
      return;
    }
    var i := input.Length - 1;
    while i > 0
      invariant 0 <= i < input.Length
      invariant input[..] == original
      invariant shuffled[..] == SwapsFrom(original, choose, i + 1)
      decreases i
    {
      var j := choose[i];
      ghost var before := shuffled[..];
      shuffled[i], shuffled[j] := shuffled[j], shuffled[i];
      assert shuffled[..] == Swap(before, i, j);
      i := i - 1;
    }
    assert shuffled[..] == SwapsFrom(original, choose, 1);
  }

  /** The related products: the visible ones shuffled, without `productId`, at most six. */
  function RandomSelection(visible: seq<Product>, productId: string, choose: seq<nat>): seq<Product>
    requires ValidChoices(choose, |visible|)
  {
    Take(Filter(Shuffled(visible, choose), OtherIdTest(productId)), 6)
  }

  /** `getRandomProducts`. */
  method GetRandomProducts(store: seq<Product>, productId: string, dbOk: bool, choose: seq<nat>)
    returns (r: Result<seq<Product>>)
    requires ValidChoices(choose, |Filter(store, VisibleTest())|)
    ensures !dbOk ==> r == Failure("Failed to fetch random products")
    ensures dbOk ==> r == Success(RandomSelection(Filter(store, VisibleTest()), productId, choose))
  {
    if !dbOk {
      return Failure("Failed to fetch random products");
    }
    var allProducts := Filter(store, VisibleTest());
    var input := new Product[|allProducts|](k requires 0 <= k < |allProducts| => allProducts[k]);
    assert input[..] == allProducts;
    var shuffled := ShuffleArray(input, choose);
    var randomProducts := Take(Filter(shuffled[..], OtherIdTest(productId)), 6);
    return Success(randomProducts);
  }

  /** The related products never include the product itself, are all visible and
      come from the store, and there are six of them or every other visible one. */
  lemma RandomSelectionFacts(store: seq<Product>, productId: string, choose: seq<nat>)
    requires ValidChoices(choose, |Filter(store, VisibleTest())|)
    ensures forall p :: p in RandomSelection(Filter(store, VisibleTest()), productId, choose) ==>
      p.id != productId && IsVisible(p) && p in store
    ensures |RandomSelection(Filter(store, VisibleTest()), productId, choose)|
         == Min(6, |Filter(Filter(store, VisibleTest()), OtherIdTest(productId))|)
  {
    var visible := Filter(store, VisibleTest());
    var shuffled := Shuffled(visible, choose);
    var others := Filter(shuffled, OtherIdTest(productId));
    FilterOfPermutation(shuffled, visible, OtherIdTest(productId));
    forall p | p in RandomSelection(visible, productId, choose)
      ensures p.id != productId && IsVisible(p) && p in store
    {
      assert p in others;
      assert p in multiset(shuffled);
    }
  }

  function Min(a: int, b: int): int { if a < b then a else b }
}
