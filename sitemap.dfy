/** The sitemap script of scripts/generateSitemap.js: it reads the visible
    products, then writes an XML sitemap in the format of the Sitemaps protocol,
    version 0.9 (sitemaps.org), with the two static pages, the three category
    pages and one page per product. The database, the file write and the clock
    are inputs: the configured connection string, the error the database
    raised if any, the stored products, and today's date. */
module Sitemap {
  import opened Wrappers
  import opened Strings
  import opened Seqs
  import opened Catalog
  import Uri
  import Enums
  import Site
  import Storefront

  /** One `<url>` element. */
  datatype Entry = Entry(loc: string, changefreq: string, priority: string)

  /** A static page of the site. */
  datatype StaticPage = StaticPage(path: string, changefreq: string, priority: string)

  /** What the script returns after writing the file. */
  datatype Stats = Stats(staticPageCount: nat, categoryCount: nat, productCount: nat)

  const XmlDeclaration := "<?xml version=\"1.0\" encoding=\"UTF-8\"?>"
  const UrlsetOpen := "<urlset xmlns=\"http://www.sitemaps.org/schemas/sitemap/0.9\">"
  const UrlsetClose := "</urlset>"
  const Header := XmlDeclaration + "\n" + UrlsetOpen
  const Footer := "\n" + UrlsetClose
  const ConnectionError := "Sitemap generation requires database connection: "

  /** `staticPages`: the home page and the search page. */
  const StaticPages: seq<StaticPage> := [StaticPage("", "daily", "1.0"), StaticPage("/search", "weekly", "0.7")]

  /** `categories`, in the order of the `ProductCategory` object. */
  const Categories: seq<string> :=
    [Enums.Category.Candles.Value(), Enums.Category.GiftBox.Value(), Enums.Category.NamedGift.Value()]

  /** `<tag>content</tag>`. */
  function Element(tag: string, content: string): string
  {
    "<" + tag + ">" + content + "</" + tag + ">"
  }

  /** The text one `<url>` element adds: a line break and two spaces before it,
      each child on its own line indented by four. */
  function UrlXml(e: Entry, date: string): string
  {
    "\n  " + Element("url",
      "\n    " + Element("loc", e.loc) + "\n    " + Element("lastmod", date)
      + "\n    " + Element("changefreq", e.changefreq) + "\n    " + Element("priority", e.priority) + "\n  ")
  }

  /** `UrlXml` for a fixed date, as a function of the entry. */
  function UrlOn(date: string): Entry -> string
  {
    e => UrlXml(e, date)
  }

  /** The text of each entry, one after the other. */
  function Render(entries: seq<Entry>, element: Entry -> string): string
  {
    if entries == [] then "" else element(entries[0]) + Render(entries[1..], element)
  }

  /** The `<url>` elements of the entries, in order. */
  function UrlsXml(entries: seq<Entry>, date: string): string
  {
    Render(entries, UrlOn(date))
  }

  lemma {:induction false} RenderAppend(entries: seq<Entry>, e: Entry, element: Entry -> string)
    ensures Render(entries + [e], element) == Render(entries, element) + element(e)
  {
    if entries == [] {
      assert entries + [e] == [e];
    } else {
      assert (entries + [e])[1..] == entries[1..] + [e];
      RenderAppend(entries[1..], e, element);
    }
  }

  lemma {:induction false} RenderConcat(a: seq<Entry>, b: seq<Entry>, element: Entry -> string)
    ensures Render(a + b, element) == Render(a, element) + Render(b, element)
  {
    if a == [] {
      assert a + b == b;
    } else {
      assert (a + b)[1..] == a[1..] + b;
      RenderConcat(a[1..], b, element);
    }
  }

  /** Writing the next element of `entries` after the first `i`. */
  lemma RenderStep(text: string, prefix: string, entries: seq<Entry>, i: int, element: Entry -> string)
    requires 0 <= i < |entries|
    requires text == prefix + Render(entries[..i], element)
    ensures text + element(entries[i]) == prefix + Render(entries[..i + 1], element)
  {
    assert entries[..i + 1] == entries[..i] + [entries[i]];
    RenderAppend(entries[..i], entries[i], element);
  }

  lemma XmlStep(text: string, prefix: string, entries: seq<Entry>, i: int, e: Entry, date: string)
    requires 0 <= i < |entries| && e == entries[i]
    requires text == prefix + UrlsXml(entries[..i], date)
    ensures text + UrlXml(e, date) == prefix + UrlsXml(entries[..i + 1], date)
  {
    RenderStep(text, prefix, entries, i, UrlOn(date));
    assert UrlOn(date)(e) == UrlXml(e, date);
  }

  /** The change frequency and priority of a product page, by its category:
      weekly at 0.7 for candles, monthly at 0.6 for every other category. */
  function Freshness(category: string): (r: (string, string))
    ensures r == ("weekly", "0.7") <==> category == Enums.Category.Candles.Value()
    ensures r == ("monthly", "0.6") <==> category != Enums.Category.Candles.Value()
  {
    if category == Enums.Category.Candles.Value() then ("weekly", "0.7") else ("monthly", "0.6")
  }

  function StaticEntry(base: string, page: StaticPage): Entry
  {
    Entry(base + page.path, page.changefreq, page.priority)
  }

  /** A category page: its value percent-encoded, not its slug. */
  function CategoryEntry(base: string, category: string): Entry
  {
    Entry(base + "/" + Uri.EncodeUriComponent(category), "weekly", "0.8")
  }

  function ProductEntry(base: string, p: Product): Entry
  {
    var (changefreq, priority) := Freshness(p.category);
    Entry(base + "/" + Uri.EncodeUriComponent(p.category) + "/" + p.id, changefreq, priority)
  }

  function StaticEntries(base: string): (r: seq<Entry>)
    ensures |r| == |StaticPages|
  {
    seq(|StaticPages|, i requires 0 <= i < |StaticPages| => StaticEntry(base, StaticPages[i]))
  }

  function CategoryEntries(base: string): (r: seq<Entry>)
    ensures |r| == |Categories|
  {
    seq(|Categories|, i requires 0 <= i < |Categories| => CategoryEntry(base, Categories[i]))
  }

  function ProductEntries(base: string, products: seq<Product>): (r: seq<Entry>)
    ensures |r| == |products|
  {
    seq(|products|, i requires 0 <= i < |products| => ProductEntry(base, products[i]))
  }

  /** `Product.find({ status: 'VISIBLE' })`. */
  function VisibleProducts(store: seq<Product>): (r: seq<Product>)
    ensures forall p :: p in r <==> p in store && Storefront.IsVisible(p)
  {
    Filter(store, Storefront.VisibleTest())
  }

  /** Every entry of the sitemap, in the order they are written. */
  function Entries(base: string, products: seq<Product>): (r: seq<Entry>)
    ensures |r| == 2 + 3 + |products|
    ensures r[0] == Entry(base, "daily", "1.0")
    ensures r[1] == Entry(base + "/search", "weekly", "0.7")
    ensures forall i :: 0 <= i < 3 ==> r[2 + i] == CategoryEntry(base, Categories[i])
    ensures forall i :: 0 <= i < |products| ==> r[5 + i] == ProductEntry(base, products[i])
  {
    assert base + "" == base;
    StaticEntries(base) + CategoryEntries(base) + ProductEntries(base, products)
  }

  /** The file the script writes. */
  function Document(entries: seq<Entry>, date: string): string
  {
    Header + UrlsXml(entries, date) + Footer
  }

  /** The document is an XML declaration and a sitemaps.org 0.9 `urlset` that
      the document closes at its end. */
  lemma DocumentFrame(entries: seq<Entry>, date: string)
    ensures StartsWith(Document(entries, date), XmlDeclaration)
    ensures StartsWith(Document(entries, date), Header)
    ensures EndsWith(Document(entries, date), UrlsetClose)
  {
    FrameOf(XmlDeclaration, "\n", UrlsetOpen, UrlsXml(entries, date), UrlsetClose);
  }

  lemma FrameOf(decl: string, nl: string, open: string, body: string, close: string)
    ensures StartsWith(decl + nl + open + body + (nl + close), decl)
    ensures StartsWith(decl + nl + open + body + (nl + close), decl + nl + open)
    ensures EndsWith(decl + nl + open + body + (nl + close), close)
  {
    var d := decl + nl + open + body + (nl + close);
    assert d == decl + (nl + open + body + (nl + close));
    StartsWithConcat(decl, nl + open + body + (nl + close));
    assert d == (decl + nl + open) + (body + (nl + close));
    StartsWithConcat(decl + nl + open, body + (nl + close));
    assert d == (decl + nl + open + body + nl) + close;
    EndsWithConcat(decl + nl + open + body + nl, close);
  }

  /** `generateSitemap`. On success the result is the file written and the counts;
      without a connection string, or when the database fails, nothing is
      written and the error names the cause. */
  method GenerateSitemap(mongoUri: Option<string>, dbError: Option<string>, store: seq<Product>,
                         env: Option<string>, currentDate: string)
    returns (r: Result<Stats>, written: Option<string>)
    ensures (mongoUri.None? || mongoUri.value == "") ==>
      r == Failure(ConnectionError + "MONGODB_URI not found") && written.None?
    ensures mongoUri.Some? && mongoUri.value != "" && dbError.Some? ==>
      r == Failure(ConnectionError + dbError.value) && written.None?
    ensures mongoUri.Some? && mongoUri.value != "" && dbError.None? ==>
      && written == Some(Document(Entries(Site.BaseUrl(env), VisibleProducts(store)), currentDate))
      && r == Success(Stats(2, 3, |VisibleProducts(store)|))
  {
    if mongoUri.None? || mongoUri.value == "" {
      return Failure(ConnectionError + "MONGODB_URI not found"), None;
    }
    if dbError.Some? {
      return Failure(ConnectionError + dbError.value), None;
    }
    var products := VisibleProducts(store);
    var sitemap := WriteSitemap(Site.BaseUrl(env), products, currentDate);
    written := Some(sitemap);
    r := Success(Stats(|StaticPages|, |Categories|, |products|));
  }

  /** The text the script builds: the header, the three loops, the footer. */
  method WriteSitemap(baseUrl: string, products: seq<Product>, date: string) returns (sitemap: string)
    ensures sitemap == Document(Entries(baseUrl, products), date)
  {
    sitemap := Header;
    sitemap := WriteStaticPages(sitemap, baseUrl, date);
    sitemap := WriteCategoryPages(sitemap, baseUrl, date);
    sitemap := WriteProductPages(sitemap, baseUrl, products, date);
    sitemap := sitemap + Footer;
    DocumentOfParts(StaticEntries(baseUrl), CategoryEntries(baseUrl), ProductEntries(baseUrl, products), date);
  }

  /** The loop over `staticPages`. */
  method WriteStaticPages(text: string, baseUrl: string, date: string) returns (sitemap: string)
    ensures sitemap == text + UrlsXml(StaticEntries(baseUrl), date)
  {
    ghost var statics := StaticEntries(baseUrl);
    sitemap := text;
    var i := 0;
    assert statics[..0] == [];
    while i < |StaticPages|
      invariant 0 <= i <= |StaticPages|
      invariant sitemap == text + UrlsXml(statics[..i], date)
    {
      var page := StaticPages[i];
      var e := Entry(baseUrl + page.path, page.changefreq, page.priority);
      XmlStep(sitemap, text, statics, i, e, date);
      sitemap := sitemap + UrlXml(e, date);
      i := i + 1;
    }
    assert statics[..i] == statics;
  }

  /** The loop over `categories`. */
  method WriteCategoryPages(text: string, baseUrl: string, date: string) returns (sitemap: string)
    ensures sitemap == text + UrlsXml(CategoryEntries(baseUrl), date)
  {
    ghost var categories := CategoryEntries(baseUrl);
    sitemap := text;
    var k := 0;
    assert categories[..0] == [];
    while k < |Categories|
      invariant 0 <= k <= |Categories|
      invariant sitemap == text + UrlsXml(categories[..k], date)
    {
      var e := Entry(baseUrl + "/" + Uri.EncodeUriComponent(Categories[k]), "weekly", "0.8");
      XmlStep(sitemap, text, categories, k, e, date);
      sitemap := sitemap + UrlXml(e, date);
      k := k + 1;
    }
    assert categories[..k] == categories;
  }

  /** The loop over the products. */
  method WriteProductPages(text: string, baseUrl: string, products: seq<Product>, date: string)
    returns (sitemap: string)
    ensures sitemap == text + UrlsXml(ProductEntries(baseUrl, products), date)
  {
    ghost var pages := ProductEntries(baseUrl, products);
    sitemap := text;
    var j := 0;
    assert pages[..0] == [];
    while j < |products|
      invariant 0 <= j <= |products|
      invariant sitemap == text + UrlsXml(pages[..j], date)
    {
      var e := ProductPage(baseUrl, products[j]);
      XmlStep(sitemap, text, pages, j, e, date);
      sitemap := sitemap + UrlXml(e, date);
      j := j + 1;
    }
    assert pages[..j] == pages;
  }

  /** The entry of one product, with the loop body's `switch` on the category. */
  method ProductPage(baseUrl: string, p: Product) returns (e: Entry)
    ensures e == ProductEntry(baseUrl, p)
    ensures e.changefreq == "weekly" <==> p.category == Enums.Category.Candles.Value()
  {
    var changefreq := "monthly";
    var priority := "0.6";
    if p.category == Enums.Category.Candles.Value() {
      changefreq := "weekly";
      priority := "0.7";
    } else if p.category == Enums.Category.GiftBox.Value() {
      changefreq := "monthly";
      priority := "0.6";
    } else if p.category == Enums.Category.NamedGift.Value() {
      changefreq := "monthly";
      priority := "0.6";
    }
    e := Entry(baseUrl + "/" + Uri.EncodeUriComponent(p.category) + "/" + p.id, changefreq, priority);
  }

  lemma DocumentOfParts(a: seq<Entry>, b: seq<Entry>, c: seq<Entry>, date: string)
    ensures Header + UrlsXml(a, date) + UrlsXml(b, date) + UrlsXml(c, date) + Footer == Document(a + b + c, date)
  {
    RenderConcat(a + b, c, UrlOn(date));
    RenderConcat(a, b, UrlOn(date));
    Associative(Header, UrlsXml(a, date), UrlsXml(b, date), UrlsXml(c, date));
  }

  lemma Associative(h: string, x: string, y: string, z: string)
    ensures h + x + y + z == h + (x + y + z)
  {
  }

  /** Every product entry the script writes is a visible product of the store. */
  lemma OnlyVisibleProducts(base: string, store: seq<Product>, i: int)
    requires 0 <= i < |VisibleProducts(store)|
    ensures Storefront.IsVisible(VisibleProducts(store)[i])
    ensures VisibleProducts(store)[i] in store
    ensures Entries(base, VisibleProducts(store))[5 + i] == ProductEntry(base, VisibleProducts(store)[i])
  {
    assert VisibleProducts(store)[i] in VisibleProducts(store);
  }

  /** Two unreserved words around a space encode with `%20` in between. */
  lemma EncodeSpacedWords(a: string, b: string)
    requires forall i :: 0 <= i < |a| ==> Uri.IsUriUnreserved(a[i])
    requires forall i :: 0 <= i < |b| ==> Uri.IsUriUnreserved(b[i])
    ensures Uri.EncodeUriComponent(a + " " + b) == a + "%20" + b
  {
    SpaceEncoding();
    Uri.EncodeUriComponentConcat(a + " ", b);
    Uri.EncodeUriComponentConcat(a, " ");
  }

  /** The `gift box` category page is `gift%20box`, not the `gift-box` slug. */
  lemma GiftBoxPage(base: string)
    ensures CategoryEntry(base, "gift box").loc == base + "/" + "gift%20box"
  {
    var gift, box := "gift", "box";
    assert gift + " " + box == "gift box";
    assert gift + "%20" + box == "gift%20box";
    EncodeSpacedWords(gift, box);
    var encoded := Uri.EncodeUriComponent("gift box");
    assert encoded == "gift%20box";
  }

  lemma SpaceEncoding()
    ensures Uri.EncodeUriComponent(" ") == "%20"
  {
    assert !Uri.IsUriUnreserved(' ');
    assert Uri.Utf8(' ') == [32];
    assert Uri.HexDigit(2) == '2' && Uri.HexDigit(0) == '0';
    assert Uri.PercentBytes([32]) == ['%', '2', '0'] + Uri.PercentBytes([]);
    assert Uri.EncodeUriComponent(" ") == Uri.EncodeUriChar(' ') + Uri.EncodeUriComponent("");
  }
}
