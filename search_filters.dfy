/** The filter panel of src/components/search/SearchFilters.tsx: reading the
    filters from the page's query parameters, writing them back into the
    `/search` URL, and the two ways the panel edits them. */
module SearchFilters {
  import opened Wrappers
  import opened Uri
  import opened Numbers
  import SearchResults

  type FilterOptions = SearchResults.FilterOptions

  /** The filters `clearFilters` sets, which are also the defaults of a missing parameter. */
  const Cleared: FilterOptions := SearchResults.FilterOptions("", "", 0, 1000, "name")

  /** `searchParams.get(name) || ''`. */
  function TextParam(ps: seq<Param>, name: string, default: string): (r: string)
    ensures GetParam(ps, name).Some? && GetParam(ps, name).value != "" ==> r == GetParam(ps, name).value
    ensures GetParam(ps, name).None? || GetParam(ps, name).value == "" ==> r == default
  {
    var v := GetParam(ps, name);
    if v.Some? && v.value != "" then v.value else default
  }

  /** `Number(searchParams.get(name)) || default`: a missing parameter is
      `Number(null)`, which is 0, and 0 and NaN are both falsy. */
  function NumberParam(ps: seq<Param>, name: string, default: int): (r: int)
    ensures GetParam(ps, name).None? ==> r == default
    ensures GetParam(ps, name).Some? && ParseNumber(GetParam(ps, name).value).Some?
            && ParseNumber(GetParam(ps, name).value).value != 0
            ==> r == ParseNumber(GetParam(ps, name).value).value
    ensures GetParam(ps, name).Some? && (ParseNumber(GetParam(ps, name).value).None? || ParseNumber(GetParam(ps, name).value).value == 0) ==> r == default
    ensures r == default || r != 0
  {
    var v := GetParam(ps, name);
    if v.None? then default
    else
      var n := ParseNumber(v.value);
      if n.Some? && n.value != 0 then n.value else default
  }

  /** The filters read from the query parameters. */
  function ReadParams(ps: seq<Param>): (f: FilterOptions)
    ensures f.sortBy != ""
    ensures f.maxPrice != 0
  {
    SearchResults.FilterOptions(
      TextParam(ps, "q", ""),
      TextParam(ps, "category", ""),
      NumberParam(ps, "minPrice", 0),
      NumberParam(ps, "maxPrice", 1000),
      TextParam(ps, "sortBy", "name"))
  }

  /** The initial state: the filters handed in, otherwise those of the URL. */
  function InitialFilters(initialFilters: Option<FilterOptions>, ps: seq<Param>): (f: FilterOptions)
    ensures initialFilters.Some? ==> f == initialFilters.value
    ensures initialFilters.None? ==> f == ReadParams(ps)
  {
    if initialFilters.Some? then initialFilters.value else ReadParams(ps)
  }

  /** With no parameters at all the filters are the cleared ones. */
  lemma ReadNoParams()
    ensures ReadParams([]) == Cleared
  {
  }

  /** One conditional `params.set` on a name not set before: the pair, or nothing. */
  function Piece(written: bool, name: string, value: string): (r: seq<Param>)
  {
    if written then [(name, value)] else []
  }

  /** The parameters the effect writes, in the order it writes them, each only under its condition. */
  function WrittenParams(f: FilterOptions): seq<Param>
  {
    Piece(f.query != "", "q", f.query)
    + Piece(f.category != "", "category", f.category)
    + Piece(f.minPrice > 0, "minPrice", IntToString(f.minPrice))
    + Piece(f.maxPrice < 1000, "maxPrice", IntToString(f.maxPrice))
    + Piece(f.sortBy != "name", "sortBy", f.sortBy)
  }

  /** What `get(name)` finds in one piece. */
  function PieceValue(written: bool, pname: string, value: string, name: string): Option<string>
  {
    if written && pname == name then Some(value) else None
  }

  lemma GetPiece(written: bool, pname: string, value: string, name: string)
    ensures GetParam(Piece(written, pname, value), name) == PieceValue(written, pname, value, name)
  {
  }

  /** `get` on the written list: the value of the first piece that holds the name. */
  lemma GetWritten(f: FilterOptions, name: string)
    ensures GetParam(WrittenParams(f), name) ==
      var q := PieceValue(f.query != "", "q", f.query, name);
      var c := PieceValue(f.category != "", "category", f.category, name);
      var lo := PieceValue(f.minPrice > 0, "minPrice", IntToString(f.minPrice), name);
      var hi := PieceValue(f.maxPrice < 1000, "maxPrice", IntToString(f.maxPrice), name);
      var s := PieceValue(f.sortBy != "name", "sortBy", f.sortBy, name);
      if q.Some? then q else if c.Some? then c else if lo.Some? then lo else if hi.Some? then hi else s
  {
    var q := Piece(f.query != "", "q", f.query);
    var c := Piece(f.category != "", "category", f.category);
    var lo := Piece(f.minPrice > 0, "minPrice", IntToString(f.minPrice));
    var hi := Piece(f.maxPrice < 1000, "maxPrice", IntToString(f.maxPrice));
    var s := Piece(f.sortBy != "name", "sortBy", f.sortBy);
    GetPiece(f.query != "", "q", f.query, name);
    GetPiece(f.category != "", "category", f.category, name);
    GetPiece(f.minPrice > 0, "minPrice", IntToString(f.minPrice), name);
    GetPiece(f.maxPrice < 1000, "maxPrice", IntToString(f.maxPrice), name);
    GetPiece(f.sortBy != "name", "sortBy", f.sortBy, name);
    GetConcat(q + c + lo + hi, s, name);
    GetConcat(q + c + lo, hi, name);
    GetConcat(q + c, lo, name);
    GetConcat(q, c, name);
  }

  /** Each parameter is present exactly under its condition, with the filter's value. */
  lemma WrittenParamsConditions(f: FilterOptions)
    ensures GetParam(WrittenParams(f), "q") == if f.query != "" then Some(f.query) else None
    ensures GetParam(WrittenParams(f), "category") == if f.category != "" then Some(f.category) else None
    ensures GetParam(WrittenParams(f), "minPrice") == if f.minPrice > 0 then Some(IntToString(f.minPrice)) else None
    ensures GetParam(WrittenParams(f), "maxPrice") == if f.maxPrice < 1000 then Some(IntToString(f.maxPrice)) else None
    ensures GetParam(WrittenParams(f), "sortBy") == if f.sortBy != "name" then Some(f.sortBy) else None
  {
    ParamNamesDistinct();
    GetWritten(f, "q");
    GetWritten(f, "category");
    GetWritten(f, "minPrice");
    GetWritten(f, "maxPrice");
    GetWritten(f, "sortBy");
  }

  /** The `/search` URL the effect navigates to. */
  function SearchUrl(f: FilterOptions): (url: string)
    ensures WrittenParams(f) == [] ==> url == "/search"
    ensures WrittenParams(f) != [] ==> url == "/search?" + Serialize(WrittenParams(f))
  {
    var queryString := Serialize(WrittenParams(f));
    if queryString != "" then "/search?" + queryString else "/search"
  }

  /** The effect's builder: a fresh parameter list and one `set` per condition. */
  method BuildParams(f: FilterOptions) returns (params: seq<Param>)
    ensures params == WrittenParams(f)
  {
    ParamNamesDistinct();
    params := [];
    params := SetIf(params, f.query != "", "q", f.query, []);
    assert params == Piece(f.query != "", "q", f.query) by {
      assert [] + Piece(f.query != "", "q", f.query) == Piece(f.query != "", "q", f.query);
    }
    params := SetIf(params, f.category != "", "category", f.category, ["q"]);
    params := SetIf(params, f.minPrice > 0, "minPrice", IntToString(f.minPrice), ["q", "category"]);
    params := SetIf(params, f.maxPrice < 1000, "maxPrice", IntToString(f.maxPrice),
                    ["q", "category", "minPrice"]);
    params := SetIf(params, f.sortBy != "name", "sortBy", f.sortBy,
                    ["q", "category", "minPrice", "maxPrice"]);
  }

  /** `if (written) params.set(name, value)` on a list that does not hold `name` yet. */
  method SetIf(params: seq<Param>, written: bool, name: string, value: string, ghost names: seq<string>)
    returns (r: seq<Param>)
    requires NamesIn(params, names) && name !in names
    ensures r == params + Piece(written, name, value)
    ensures NamesIn(r, names + [name])
  {
    r := params;
    if written {
      assert !HasName(params, name);
      r := SetParam(params, name, value);
    }
  }

  /** The URL the effect passes to `router.replace`. */
  method BuildUrl(f: FilterOptions) returns (url: string)
    ensures url == SearchUrl(f)
  {
    var params := BuildParams(f);
    var queryString := Serialize(params);
    if queryString != "" {
      url := "/search?" + queryString;
    } else {
      url := "/search";
    }
  }

  /** The five parameter names are distinct. */
  lemma ParamNamesDistinct()
    ensures "q" != "category" && "q" != "minPrice" && "q" != "maxPrice" && "q" != "sortBy"
    ensures "category" != "minPrice" && "category" != "maxPrice" && "category" != "sortBy"
    ensures "minPrice" != "maxPrice" && "minPrice" != "sortBy" && "maxPrice" != "sortBy"
  {
    assert "category"[0] != "minPrice"[0] && "category"[0] != "maxPrice"[0];
    assert "minPrice"[1] != "maxPrice"[1];
  }

  /** Every parameter of the list has one of these names. */
  ghost predicate NamesIn(ps: seq<Param>, names: seq<string>)
  {
    forall i :: 0 <= i < |ps| ==> ps[i].0 in names
  }

  /** The cleared filters write no parameter and give the bare `/search`. */
  lemma ClearedUrl()
    ensures WrittenParams(Cleared) == []
    ensures SearchUrl(Cleared) == "/search"
  {
  }

  /** The URL is the bare `/search` exactly when every filter is at its neutral value. */
  lemma BareUrlIff(f: FilterOptions)
    ensures SearchUrl(f) == "/search" <==>
      f.query == "" && f.category == "" && f.minPrice <= 0 && f.maxPrice >= 1000 && f.sortBy == "name"
  {
    var w := WrittenParams(f);
    if w != [] {
      assert SearchUrl(f) == "/search?" + Serialize(w);
      assert |SearchUrl(f)| > |"/search"|;
    }
  }

  /** Reading back the written parameters gives the same filters exactly when
      the prices are in the range the writer can express (a minimum of at least
      0, a maximum of at most 1000 other than 0) and the sort key is not empty. */
  lemma RoundTrip(f: FilterOptions)
    ensures ReadParams(WrittenParams(f)) == f <==>
      f.minPrice >= 0 && f.maxPrice != 0 && f.maxPrice <= 1000 && f.sortBy != ""
  {
    WrittenParamsConditions(f);
    if f.minPrice > 0 {
      ParseNumberOfIntToString(f.minPrice);
    }
    if f.maxPrice < 1000 {
      ParseNumberOfIntToString(f.maxPrice);
    }
  }

  /** A maximum price of 0 is written to the URL but read back as 1000. */
  lemma MaxPriceZeroIsLost(f: FilterOptions)
    requires f.maxPrice == 0
    ensures GetParam(WrittenParams(f), "maxPrice") == Some("0")
    ensures ReadParams(WrittenParams(f)).maxPrice == 1000
  {
    WrittenParamsConditions(f);
    ParseNumberOfIntToString(0);
  }

  /** The fields of the filter record, as `handleFilterChange` names them. */
  datatype FilterKey = Query | Category | MinPrice | MaxPrice | SortBy

  /** A field value: text for the text fields, a number for the prices. */
  datatype FieldValue = Text(text: string) | Number(number: int)

  predicate Fits(key: FilterKey, value: FieldValue)
  {
    if key == MinPrice || key == MaxPrice then value.Number? else value.Text?
  }

  /** The value of one field. */
  function FieldOf(f: FilterOptions, key: FilterKey): (v: FieldValue)
    ensures Fits(key, v)
  {
    match key
    case Query => Text(f.query)
    case Category => Text(f.category)
    case MinPrice => Number(f.minPrice)
    case MaxPrice => Number(f.maxPrice)
    case SortBy => Text(f.sortBy)
  }

  /** `handleFilterChange`: the previous filters with one field replaced. */
  function ChangeFilter(f: FilterOptions, key: FilterKey, value: FieldValue): (r: FilterOptions)
    requires Fits(key, value)
    ensures FieldOf(r, key) == value
    ensures forall k :: k != key ==> FieldOf(r, k) == FieldOf(f, k)
  {
    match key
    case Query => f.(query := value.text)
    case Category => f.(category := value.text)
    case MinPrice => f.(minPrice := value.number)
    case MaxPrice => f.(maxPrice := value.number)
    case SortBy => f.(sortBy := value.text)
  }

  /** Two filter records with the same fields are the same record. */
  lemma FieldsDetermine(f: FilterOptions, g: FilterOptions)
    requires forall k :: FieldOf(f, k) == FieldOf(g, k)
    ensures f == g
  {
    assert FieldOf(f, Query) == FieldOf(g, Query);
    assert FieldOf(f, Category) == FieldOf(g, Category);
    assert FieldOf(f, MinPrice) == FieldOf(g, MinPrice);
    assert FieldOf(f, MaxPrice) == FieldOf(g, MaxPrice);
    assert FieldOf(f, SortBy) == FieldOf(g, SortBy);
  }

  /** Setting a field to the value it has changes nothing. */
  lemma ChangeToSameValue(f: FilterOptions, key: FilterKey)
    ensures ChangeFilter(f, key, FieldOf(f, key)) == f
  {
    FieldsDetermine(ChangeFilter(f, key, FieldOf(f, key)), f);
  }

  /** Of two changes to the same field, the later one wins. */
  lemma ChangeTwice(f: FilterOptions, key: FilterKey, a: FieldValue, b: FieldValue)
    requires Fits(key, a) && Fits(key, b)
    ensures ChangeFilter(ChangeFilter(f, key, a), key, b) == ChangeFilter(f, key, b)
  {
    FieldsDetermine(ChangeFilter(ChangeFilter(f, key, a), key, b), ChangeFilter(f, key, b));
  }

  /** `clearFilters`: the filters the page starts from without any parameter. */
  function ClearFilters(): (r: FilterOptions)
    ensures r == ReadParams([])
    ensures SearchUrl(r) == "/search"
  {
    ReadNoParams();
    ClearedUrl();
    Cleared
  }
}
