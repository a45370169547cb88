# DivineLits storefront core, modelled in Dafny

This project models the commerce logic of the DivineLits shop, a Next.js storefront for candles and gift boxes. It covers:

- **Slug codec** (`Slugs`): product and category names to URL slugs and back.
- **Client-side search** (`SearchResults`, `ProductSort`): text normalisation, the query, category and price filters, and the stable sort by the chosen key.
- **Filter panel** (`SearchFilters`): the filters read from the `/search` query parameters, and the URL built back from them.
- **Shopper queries** (`Storefront`): only `VISIBLE` products are shown. This covers lookup by id and by name slug, and the related-products sampler (a Fisher–Yates shuffle, the current product excluded, the first six kept).
- **Admin** (`AdminConfig`, `Admin`): the e-mail allow-list guard and the product store behind the admin actions. Create defaults the status to `HIDE`, update reports an unknown id, and delete is a soft delete.
- **Constants** (`Enums`, `Constants`): the status and category enumerations and the category metadata registry.
- **Cart and admin form** (`Cart`, `ProductForm`): the add-to-cart guard chain with its discounted price, and the add-product form's list editing and submit filtering.
- **Product page** (`ProductPage`): the metadata, breadcrumb items, URL and schema input.
- **SEO records** (`Site`, `MetaTags`, `Breadcrumbs`, `ProductSchema`): the schema.org `BreadcrumbList` and `Product` records, and the head tags.
- **Sitemap** (`Sitemap`): the sitemap document, in the format of the Sitemaps protocol 0.9 (sitemaps.org).

The shared helper modules are `Wrappers` (Option and Result), `Strings`, `Seqs`, `Numbers` (integer `toString` and `Number()`), `Uri` (`encodeURIComponent`, `decodeURIComponent`, `URLSearchParams`) and `Catalog` (the product record).

The parts that change state step by step are imperative Dafny:

- the admin store is a class over a map from id to product, plus the ids in insertion order;
- the add-product form is a class with the three edited lists;
- the search result is a class holding the `filteredProducts` state;
- `shuffleArray` swaps in place on an array;
- the URL parameter builder and the sitemap string builder are methods with loops or successive assignments.

Each of these methods is proved against a specification function whose properties are lemmas.

The database, the session, the clock, `Math.random` (its choices passed in), environment variables and database-generated ids are parameters. A database failure is a boolean or an error parameter.

## Model

| member | source | states |
|---|---|---|
| Slugs.NameToSlugIsSlug | src/libs/slugs.ts:9-16 | `nameToSlug` yields only ASCII letters, digits, `_` and `-`, with no doubled dash and no dash at either end |
| Slugs.CategoryToSlugIsSlug | src/libs/slugs.ts:32-40 | `categoryToSlug` yields slug text of the same shape |
| Slugs.NameToSlugIdempotent | src/libs/slugs.ts:9-16 | applying `nameToSlug` to its own output changes nothing |
| Slugs.SlugFixedPoint | src/libs/slugs.ts:9-16 | every canonical slug is a fixed point of `nameToSlug` |
| Slugs.CollapseRuns | src/libs/slugs.ts:12 | `replace(/X+/g, sub)`: empty exactly for empty input, and the first character is `sub` or the input's first character |
| Slugs.CollapseRunsPreserves | src/libs/slugs.ts:12 | a property of `sub` and of every input character holds of every character of the collapsed text |
| Slugs.CollapseDashesNoDouble | src/libs/slugs.ts:14 | after `replace(/-+/g, '-')` no two dashes are adjacent |
| Slugs.StripEdgeDash | src/libs/slugs.ts:15 | `replace(/^-\|-$/g, '')` keeps a contiguous slice of the input that is at most two characters shorter |
| Slugs.StripEdgeDashIsSlug | src/libs/slugs.ts:15 | cutting the edge dashes of word-or-dash text without double dashes leaves a slug |
| Slugs.NameToSlugOfSimpleName | src/libs/slugs.ts:9-16 | for ASCII words separated by single spaces, the slug is the name with each space turned into a dash |
| Slugs.SlugRoundTrip | src/libs/slugs.ts:9-26 | `slugToName(nameToSlug(n)) == n` for such names |
| Slugs.SlugToNameShape | src/libs/slugs.ts:22-26 | a decoded name holds no `-` and no whitespace at either end |
| Slugs.DecodedSlugIsWordsAndSpaces | src/libs/slugs.ts:9-26 | decoding a `nameToSlug` slug always succeeds and gives only word characters and spaces |
| Slugs.SlugDecodesToItself | src/libs/slugs.ts:23 | `decodeURIComponent` leaves slug text unchanged |
| Slugs.SlugToNameOfSlug | src/libs/slugs.ts:22-26 | on slug text, `slugToName` is: dashes to spaces, then trim |
| Slugs.SlugToCategoryOfSlug | src/libs/slugs.ts:46-51 | on slug text, `slugToCategory` is: dashes to spaces, lower-case, trim |
| Slugs.CategoryToSlugIsNameToSlugOfLower | src/libs/slugs.ts:32-40 | `categoryToSlug(c) == nameToSlug(lowercase(c))` |
| Slugs.CategoryToSlugIsLower | src/libs/slugs.ts:32-40 | a category slug has no upper-case letter |
| Slugs.SlugToCategoryIsLower | src/libs/slugs.ts:46-51 | a decoded category has no upper-case letter |
| Slugs.CategoryRoundTrip | src/libs/slugs.ts:32-51 | lower-case simple category names survive the category round trip |
| Slugs.NameExamples | src/libs/slugs.ts:7 | `nameToSlug("Lavender Scented Candle") == "Lavender-Scented-Candle"`, and `slugToName` maps it back |
| Slugs.CategoryExamples | src/libs/slugs.ts:30 | `categoryToSlug` of `"gift box"` and of `"Gift Box"` is `"gift-box"`, and `slugToCategory("gift-box") == "gift box"` |
| Slugs.NameToSlugPreserves | src/libs/slugs.ts:9-16 | a property of every name character and of `-` holds of every slug character |
| Strings.Trim | src/libs/slugs.ts:11 | `trim`: the text between the leading and the trailing whitespace, with no whitespace at its ends |
| Strings.TrimIdempotent | src/libs/slugs.ts:11 | trimming twice is trimming once |
| Strings.TrimEmptyIffBlank | src/app/admin/product/add/page.tsx:89 | `trim` gives `""` exactly for all-whitespace text |
| Strings.ToLowerTrimCommute | src/libs/slugs.ts:34-35 | lower-casing and trimming commute |
| Uri.EncodeUriComponentConcat | scripts/generateSitemap.js:138 | `encodeURIComponent` distributes over concatenation |
| Uri.DecodeEncode | src/libs/slugs.ts:23 | `decodeURIComponent` undoes `encodeURIComponent` on ASCII text |
| Uri.GetAfterSet | src/components/search/SearchFilters.tsx:37-43 | after `set(name, v)`, `get(name)` is `v`, and every other name reads as before |
| Uri.Serialize | src/components/search/SearchFilters.tsx:45 | `toString()` of a parameter list is `""` exactly when the list is empty |
| Numbers.ParseNumberOfIntToString | src/components/search/SearchFilters.tsx:28-29 | `Number(n.toString()) == n` for integers |
| Numbers.ParseNumber | src/components/search/SearchFilters.tsx:28-29 | blank text reads as 0 |
| Strings.ToLower | src/libs/slugs.ts:35 | `toLowerCase` keeps the length and lower-cases each character in place |
| Uri.EncodeUriComponent | scripts/generateSitemap.js:81-83 | `encodeURIComponent` never shortens text and leaves text of unreserved characters unchanged |
| Uri.DecodeUriComponent | src/libs/slugs.ts:23 | a successful `decodeURIComponent` never lengthens the text |
| Uri.GetParam | src/components/search/SearchFilters.tsx:26-30 | `get(name)` is absent exactly when no pair has that name, and is otherwise the value of the first pair with that name |
| Uri.SetParam | src/components/search/SearchFilters.tsx:39-43 | `set` of a new name appends the pair |
| Uri.FormEncode | src/components/search/SearchFilters.tsx:45 | a serialised name or value holds no `&` and no `=` |
| Numbers.IntToString | src/components/search/SearchFilters.tsx:41-42 | `toString` of an integer is non-empty and starts with `-` exactly for a negative one |
| SearchResults.SearchView.constructor | src/components/search/SearchResults.tsx:21 | `filteredProducts` starts as the products handed in |
| Slugs.CategorySlugOfSimpleName | src/libs/slugs.ts:32-40 | a lower-case simple category name slugs to itself with its spaces turned into dashes |
| Sitemap.StaticEntries | scripts/generateSitemap.js:64-77 | one entry per static page |
| Sitemap.CategoryEntries | scripts/generateSitemap.js:80-84 | one entry per category |
| Sitemap.ProductEntries | scripts/generateSitemap.js:115-147 | one entry per product |
| SearchResults.Normalize | src/components/search/SearchResults.tsx:23-28 | `normalizeText` yields only lower-case ASCII letters, digits and whitespace, and never grows the text |
| SearchResults.NormalizeIdempotent | src/components/search/SearchResults.tsx:23-28 | normalising twice is normalising once |
| SearchResults.BlankQueryKeepsAll | src/components/search/SearchResults.tsx:53-58 | a query that normalises to nothing keeps every product |
| SearchResults.OrderOf | src/components/search/SearchResults.tsx:33-46 | the five keys map to their orders, each in both directions; any other key has no order |
| SearchResults.SortProducts | src/components/search/SearchResults.tsx:30-47 | the result is a permutation of the input, and an unknown key returns the input as it is |
| SearchResults.SortProductsSorted | src/components/search/SearchResults.tsx:30-47 | a known key puts the products in key order |
| SearchResults.SortProductsStable | src/components/search/SearchResults.tsx:30-47 | products with equal keys keep their input order |
| SearchResults.Selected | src/components/search/SearchResults.tsx:50-69 | a product is selected exactly when it passes the query, category and inclusive price filters |
| SearchResults.PipelineIsSelected | src/components/search/SearchResults.tsx:50-69 | the three filters applied one after the other select the same products as the combined test |
| SearchResults.SelectedIsSubsequence | src/components/search/SearchResults.tsx:50-69 | before sorting, the result is an order-preserving subsequence of the input |
| SearchResults.Search | src/components/search/SearchResults.tsx:49-75 | the stored result is a permutation of the selected products |
| SearchResults.SearchMembership | src/components/search/SearchResults.tsx:49-75 | a product is in the result exactly when it is in the input and passes every filter |
| SearchResults.SearchUnknownKey | src/components/search/SearchResults.tsx:44-45 | with an unknown key, the result is the selection in input order |
| SearchResults.SearchKnownKey | src/components/search/SearchResults.tsx:30-47 | with a known key, the result is a permutation of the selection, in key order |
| SearchResults.SearchAllMatch | src/components/search/SearchResults.tsx:49-75 | every product of the result passes the filters |
| SearchResults.SearchIdempotent | src/components/search/SearchResults.tsx:49-75 | searching the result again with the same filters changes nothing |
| SearchResults.SearchView.Refresh | src/components/search/SearchResults.tsx:49-75 | the effect's step-by-step filtering and sorting stores exactly `Search(products, filters)` |
| ProductSort.PrecedesIsStrictWeakOrder | src/components/search/SearchResults.tsx:34-43 | every comparator is irreflexive, transitive and negatively transitive |
| ProductSort.Sort | src/components/search/SearchResults.tsx:31 | sorting a copy gives a permutation of the same length |
| ProductSort.SortSorted | src/components/search/SearchResults.tsx:31-43 | the sorted sequence is in key order |
| ProductSort.SortStable | src/components/search/SearchResults.tsx:31-43 | the elements tied with any product keep their order, as a stable sort requires |
| ProductSort.SortOfSorted | src/components/search/SearchResults.tsx:31-43 | sorting a sequence already in key order changes nothing |
| ProductSort.SortIdempotent | src/components/search/SearchResults.tsx:31-43 | sorting twice is sorting once |
| SearchFilters.TextParam | src/components/search/SearchFilters.tsx:26-27 | `get(name) \|\| default`: the parameter when present and non-empty, otherwise the default |
| SearchFilters.NumberParam | src/components/search/SearchFilters.tsx:28-29 | a missing parameter, or a present one that reads as 0 or does not parse (`Number` gives 0 or NaN, both falsy), gives the default; a present value that parses to a non-zero number gives that number; the result is never a stray 0 (integer text only: decimal text such as `12.5` gives the default here, where `Number()` gives the number; see `Numbers.ParseNumber` under Left out) |
| SearchFilters.ReadParams | src/components/search/SearchFilters.tsx:25-31 | the filters read from the URL always have a non-empty sort key and a non-zero maximum price |
| SearchFilters.ReadNoParams | src/components/search/SearchFilters.tsx:25-31 | with no parameter at all, the filters are query `""`, category `""`, 0, 1000 and `name` |
| SearchFilters.InitialFilters | src/components/search/SearchFilters.tsx:25 | the filters handed in win over the URL |
| SearchFilters.WrittenParamsConditions | src/components/search/SearchFilters.tsx:39-43 | each of `q`, `category`, `minPrice`, `maxPrice` and `sortBy` is written exactly under its condition, with the filter's value |
| SearchFilters.BuildParams | src/components/search/SearchFilters.tsx:37-43 | the five conditional `set` calls build exactly the written list |
| SearchFilters.SetIf | src/components/search/SearchFilters.tsx:39-43 | one conditional `set` of a new name appends that pair or nothing |
| SearchFilters.SearchUrl | src/components/search/SearchFilters.tsx:45-46 | no parameter gives `/search`; otherwise `/search?` and the serialised parameters |
| SearchFilters.BuildUrl | src/components/search/SearchFilters.tsx:36-48 | the effect's URL is `SearchUrl(filters)` |
| SearchFilters.BareUrlIff | src/components/search/SearchFilters.tsx:39-46 | the URL is the bare `/search` exactly when every filter is at its neutral value |
| SearchFilters.RoundTrip | src/components/search/SearchFilters.tsx:25-43 | reading back the written parameters gives the same filters exactly when minPrice ≥ 0, maxPrice ≠ 0, maxPrice ≤ 1000 and sortBy is non-empty (a negative maxPrice is written and read back as itself) |
| SearchFilters.MaxPriceZeroIsLost | src/components/search/SearchFilters.tsx:29-42 | a maximum price of 0 is written as `maxPrice=0` but read back as 1000 |
| SearchFilters.ChangeFilter | src/components/search/SearchFilters.tsx:52-54 | `handleFilterChange` sets the named field and leaves every other field as it was |
| SearchFilters.ChangeToSameValue | src/components/search/SearchFilters.tsx:52-54 | setting a field to its current value changes nothing |
| SearchFilters.ChangeTwice | src/components/search/SearchFilters.tsx:52-54 | of two changes to the same field, the later wins |
| SearchFilters.ClearFilters | src/components/search/SearchFilters.tsx:56-64 | `clearFilters` gives the filters of an empty URL, which serialise to `/search` |
| SearchFilters.ClearedUrl | src/components/search/SearchFilters.tsx:56-64 | the cleared filters write no parameter |
| Storefront.FindFirst | src/app/actions.ts:61 | `findOne` returns a stored match, and returns nothing exactly when no document matches |
| Storefront.GetAllProducts | src/app/actions.ts:8-18 | exactly the visible products of the store, or the thrown "Failed to fetch category products" |
| Storefront.GetCategoryProducts | src/app/actions.ts:20-30 | exactly the visible products of the category, or the same error |
| Storefront.ListingsKeepOrder | src/app/actions.ts:8-30 | both listings keep the collection's order |
| Storefront.CategoryListingIsPartOfAll | src/app/actions.ts:8-30 | a category listing is the category's part of the full listing |
| Storefront.GetProduct | src/app/actions.ts:57-66 | a product only when its id matches and it is visible; `undefined` exactly on an error or when none matches |
| Storefront.GetProductNeverHidden | src/app/actions.ts:61 | hidden and deleted products are never returned |
| Storefront.GetProductByName | src/app/actions.ts:68-83 | fails with "Failed to fetch product" exactly on a database error, an undecodable slug, or a decoded name the `RegExp` constructor rejects; a found product is stored, visible and its name matches the anchored case-insensitive expression built from the decoded slug; no product found means no stored visible product matches it |
| Storefront.UnterminatedGroupFails | src/app/actions.ts:73-82 | the slug `a(` decodes to `a(`, and where the engine rejects that pattern the lookup fails with "Failed to fetch product" |
| Storefront.LiteralLookup | src/app/actions.ts:74-77 | for a decoded name of word characters and spaces, the pattern compiles and the anchored regex is a literal case-insensitive comparison |
| Storefront.LookupBySlugIsLiteral | src/app/actions.ts:73-77 | for a `nameToSlug` slug, the lookup is the first visible product whose name equals the decoded name up to case |
| Storefront.LookupOfSimpleName | src/app/actions.ts:73-77 | a simple name is found from its own slug, up to case |
| Storefront.Swap | src/app/actions.ts:37 | a swap keeps the length and the multiset |
| Storefront.Shuffled | src/app/actions.ts:33-40 | the shuffle, for any index choices in range, is a permutation of its input |
| Storefront.ShuffleArray | src/app/actions.ts:33-40 | the downward in-place loop on a fresh copy computes `Shuffled`, leaving the input untouched |
| Storefront.GetRandomProducts | src/app/actions.ts:32-55 | the shuffled visible products without `productId`, first six, or the thrown "Failed to fetch random products" |
| Storefront.RandomSelectionFacts | src/app/actions.ts:45-49 | never the product itself, all visible, and `min(6, visible products with another id)` of them |
| AdminConfig.IsAdminEmail | src/config/admin.ts:8-23 | true exactly for the three listed addresses |
| AdminConfig.CaseSensitive | src/config/admin.ts:22 | matching is exact: `Admin@divinelits.com` is not an administrator |
| AdminConfig.NotAdmin | src/config/admin.ts:22 | the empty string and a blank-padded address are not administrators |
| AdminConfig.ThreeAdmins | src/config/admin.ts:8-12 | the list holds three distinct addresses |
| Admin.CheckAdminAccess | src/app/admin/actions.ts:12-24 | redirect to `/login` exactly without a session user; access exactly for a listed e-mail, with the session; otherwise redirect to `/` |
| Admin.NoEmailGoesHome | src/app/admin/actions.ts:19-21 | a user without an e-mail is sent home, not to the login page |
| Admin.CreateStatus | src/app/admin/actions.ts:74 | the stored status is the form's, or `HIDE` when it gives none |
| Admin.NewProduct | src/app/admin/actions.ts:60-78 | the new document has the form's name, description, price, category, sizes, images and variants, with the new id and time and no discount |
| Admin.CreatedWithoutStatusIsHidden | src/app/admin/actions.ts:74 | a product created without a status is not shown in the shop |
| Admin.UpdatedProduct | src/app/admin/actions.ts:103-116 | the update replaces the form's fields and keeps id, creation time and discount |
| Admin.SoftDeleted | src/app/admin/actions.ts:135-139 | only the status changes, to `DELETED` |
| Admin.DeletedIsHidden | src/app/admin/actions.ts:135-139 | a deleted product is not shown in the shop |
| Admin.ProductStore.All | src/app/admin/actions.ts:32 | the documents in natural order, one per id |
| Admin.ProductStore.constructor | src/app/admin/actions.ts:55-86 | an empty, well-formed collection |
| Admin.ProductStore.Create | src/app/admin/actions.ts:55-86 | with access and a working database, the new document is stored under the new id and `Created(id)` is returned; otherwise nothing changes and the result is "Failed to create product" |
| Admin.ProductStore.Update | src/app/admin/actions.ts:89-127 | a denied caller or failing database changes nothing ("Failed to update product"); an unknown id changes nothing ("Product not found"); otherwise only that document is replaced, and it is returned |
| Admin.ProductStore.Delete | src/app/admin/actions.ts:130-150 | the same error cases; otherwise only that document's status changes to `DELETED`, and no document is removed |
| Admin.ProductStore.GetAllForAdmin | src/app/admin/actions.ts:27-38 | every document whatever its status, sorted newest first (documents with equal `createdAt` in insertion order), or "Failed to fetch products" |
| Admin.ProductStore.GetForAdmin | src/app/admin/actions.ts:41-52 | the document with that id whatever its status, `null` when absent, or "Failed to fetch product" |
| Admin.AdminListing | src/app/admin/actions.ts:32 | the admin list holds every document once and is ordered by `createdAt` descending |
| Admin.GetCategories | src/app/admin/actions.ts:153-155 | three values, every category among them |
| Admin.GetStatuses | src/app/admin/actions.ts:158-160 | three values, every status among them |
| Enums.ValuesInDeclarationOrder | src/constants/index.ts:4-18 | `PRODUCT_STATUS_VALUES` and `PRODUCT_CATEGORY_VALUES` list each member's value once, in declaration order |
| Enums.MembersComplete | src/constants/index.ts:4-14 | every member is listed, and distinct members have distinct values |
| Enums.ParseStatus | src/constants/index.ts:4-8 | a status is found exactly for a listed value, and it has that value |
| Enums.ParseCategory | src/constants/index.ts:10-14 | a category is found exactly for a listed value, and it has that value |
| Enums.ParseValue | src/constants/index.ts:4-14 | reading a member's value back gives the member |
| Constants.StatusObjectShape | src/constants/index.js:4-8 | three statuses, each value equal to its key, and the same strings as the enum |
| Constants.CategoryObjectShape | src/constants/index.js:10-14 | three categories, `"candles"`, `"gift box"` and `"named gift"`, as in the enum |
| Constants.MetadataRegistryShape | src/constants/index.js:16-41 | one metadata entry per category and no other key, each with `image` equal to `backgroundImage` |
| Constants.MetadataFor | src/constants/index.js:16-41 | metadata exists exactly for a category value |
| Constants.CategoriesSurviveSlugs | src/constants/index.js:10-14 | every category value survives `slugToCategory(categoryToSlug(c))` |
| Cart.FinalPrice | src/components/cart/AddToCart.tsx:28-30 | the price when there is no discount, and `price·(1 − discount/100)` in every case |
| Cart.FinalPriceBounds | src/components/cart/AddToCart.tsx:28-30 | for a non-negative price and a discount in [0, 100]: between 0 and the price, below it when both are positive, 0 at 100 % |
| Cart.HandleAddToCart | src/components/cart/AddToCart.tsx:32-56 | the checks run session, then colour, then size, and the first failing check decides; the item is added exactly when all three pass, with category, id, size, price id and the discounted price |
| Cart.Notice | src/components/cart/AddToCart.tsx:33-46 | a notice is shown exactly when nothing is added |
| Cart.SignedOutOnlyNotifies | src/components/cart/AddToCart.tsx:33-37 | without a session only the registration notice appears |
| Cart.InitialSizeAddsNothing | src/components/cart/AddToCart.tsx:24-46 | with the initial empty size nothing is added, and a notice appears |
| Cart.AddedAtDiscountedPrice | src/components/cart/AddToCart.tsx:47-55 | a complete selection is added at a price no higher than the list price |
| ProductForm.DiscountedPrice | src/app/admin/product/add/page.tsx:20-23 | the original price when either input is 0, and `price·(1 − discount/100)` in every case |
| ProductForm.PreviewMatchesCart | src/app/admin/product/add/page.tsx:20-23 | the form's preview price is the price the cart charges |
| ProductForm.RemoveAt | src/app/admin/product/add/page.tsx:29-31 | `filter((_, i) => i !== index)` drops exactly that position and keeps the rest in order; out of range it is the identity |
| ProductForm.RemoveAtIsSubsequence | src/app/admin/product/add/page.tsx:29-31 | what is left is an order-preserving subsequence |
| ProductForm.ShownRemoveKeepsOne | src/app/admin/product/add/page.tsx:252 | while the remove control is shown, removing leaves at least one entry |
| ProductForm.SetField | src/app/admin/product/add/page.tsx:35 | one field of the variant is replaced; the other field and the images stay |
| ProductForm.Submit | src/app/admin/product/add/page.tsx:89-91 | sizes and images keep exactly their non-blank entries, and variants exactly those with a non-blank colour and price id |
| ProductForm.SubmitKeepsOrder | src/app/admin/product/add/page.tsx:89-91 | survivors keep their order, and filtering again changes nothing |
| ProductForm.BlankFormSubmitsNothing | src/app/admin/product/add/page.tsx:13-91 | the untouched form submits three empty lists |
| ProductForm.React | src/app/admin/product/add/page.tsx:95-99 | success goes to `/admin`; failure alerts "Error creating product: " and the error |
| ProductForm.AddProductForm.constructor | src/app/admin/product/add/page.tsx:13-17 | one blank size, one blank image and one blank variant |
| ProductForm.AddProductForm.AddSize | src/app/admin/product/add/page.tsx:57-59 | appends `""` to the sizes, nothing else changes |
| ProductForm.AddProductForm.RemoveSize | src/app/admin/product/add/page.tsx:61-63 | drops one size, nothing else changes |
| ProductForm.AddProductForm.UpdateSize | src/app/admin/product/add/page.tsx:65-69 | replaces one size, nothing else changes |
| ProductForm.AddProductForm.AddImage | src/app/admin/product/add/page.tsx:71-73 | appends `""` to the images, nothing else changes |
| ProductForm.AddProductForm.RemoveImage | src/app/admin/product/add/page.tsx:75-77 | drops one image, nothing else changes |
| ProductForm.AddProductForm.UpdateImage | src/app/admin/product/add/page.tsx:79-83 | replaces one image, nothing else changes |
| ProductForm.AddProductForm.AddVariant | src/app/admin/product/add/page.tsx:25-27 | appends the blank variant, nothing else changes |
| ProductForm.AddProductForm.RemoveVariant | src/app/admin/product/add/page.tsx:29-31 | drops one variant, nothing else changes |
| ProductForm.AddProductForm.UpdateVariant | src/app/admin/product/add/page.tsx:33-37 | replaces one field of one variant, nothing else changes |
| ProductForm.AddProductForm.AddVariantImage | src/app/admin/product/add/page.tsx:39-43 | appends `""` to one variant's images only |
| ProductForm.AddProductForm.RemoveVariantImage | src/app/admin/product/add/page.tsx:45-49 | drops one image of one variant only |
| ProductForm.AddProductForm.UpdateVariantImage | src/app/admin/product/add/page.tsx:51-55 | replaces one image of one variant only |
| ProductForm.AddProductForm.Payload | src/app/admin/product/add/page.tsx:89-91 | the submitted lists are no longer than the edited ones |
| ProductPage.Capitalize | src/components/products/ProductPageWrapper.tsx:23-25 | same length; the first character upper-cased and the rest kept; `""` to `""` |
| ProductPage.CapitalizeIdempotent | src/components/products/ProductPageWrapper.tsx:23-25 | capitalising twice is capitalising once, and only the first character can change |
| ProductPage.Summary | src/components/products/ProductPageWrapper.tsx:42 | the whole description up to 160 characters; otherwise its first 160 characters and `...` |
| ProductPage.SummaryIdempotent | src/components/products/ProductPageWrapper.tsx:42 | a summary is its own summary |
| ProductPage.MainImage | src/components/products/ProductPageWrapper.tsx:60 | the first picture when present and non-empty, otherwise the logo |
| ProductPage.OgImages | src/components/products/ProductPageWrapper.tsx:47-52 | one 800×600 entry per picture, in order, made absolute |
| ProductPage.GenerateMetadata | src/components/products/ProductPageWrapper.tsx:27-70 | the not-found record exactly when the lookup fails or finds no named product; otherwise the title, summary, keywords, the Open Graph pictures (one absolute 800×600 entry per picture), and the Open Graph and Twitter fields of that product |
| ProductPage.CategoryName | src/components/products/ProductPageWrapper.tsx:119 | decoded from the category slug when there is one, the product's own category otherwise |
| ProductPage.BreadcrumbItems | src/components/products/ProductPageWrapper.tsx:122-132 | three items exactly when the category is shown and known (Home, the capitalised category with its link, the product); otherwise Home and the product |
| ProductPage.CurrentUrl | src/components/products/ProductPageWrapper.tsx:135-137 | `/category/<c>/product/<p>` with a category slug, `/product/<p>` without |
| ProductPage.SchemaProduct | src/components/products/ProductPageWrapper.tsx:140-155 | id and sku fall back to the name slug; the price is discounted; in stock exactly when visible; rating 4.5 with count 0 |
| ProductPage.SchemaPriceIsCartPrice | src/components/products/ProductPageWrapper.tsx:145 | the schema price is the price the cart charges |
| ProductPage.ProductContent | src/components/products/ProductPageWrapper.tsx:101-188 | the product view exactly when the lookup, the related products and the category decoding succeed; with the title, the full product description in the description tag, URL, `product` type, robots, offer URL, no rating and no reviews, stock state and trail of that product |
| ProductPage.ProductRouteTrail | src/components/products/ProductPageWrapper.tsx:119-127 | on the product route the trail's category is the product's own, linked through its category slug |
| ProductPage.HiddenCategoryTrail | src/components/products/ProductPageWrapper.tsx:129-132 | without the category crumb the trail is Home and the product |
| Site.BaseUrl | src/components/seo/MetaTags.tsx:23 | `NEXT_PUBLIC_BASE_URL` when set and non-empty, otherwise `https://divinelits.com`; never empty |
| Site.Absolute | src/components/seo/MetaTags.tsx:25 | an address starting with `http` is kept, any other gets the base in front |
| Site.AbsoluteStartsWithHttp | src/components/seo/ProductSchema.tsx:33-35 | with an http base every picture address is absolute, and making it absolute again changes nothing |
| Site.AbsoluteAll | src/components/seo/ProductSchema.tsx:33-35 | one address per picture, in order |
| MetaTags.FullUrl | src/components/seo/MetaTags.tsx:24 | base + url when a url is given, the base alone otherwise |
| MetaTags.Robots | src/components/seo/MetaTags.tsx:56-60 | `noindex, nofollow` exactly when `noIndex` is true, `index, follow` exactly otherwise |
| MetaTags.Render | src/components/seo/MetaTags.tsx:13-60 | titles, the description tag and the Open Graph and Twitter descriptions all equal to the given description, canonical and `og:url`, one image for both cards (the logo by default), type `website` by default, site name, the keywords tag only when they are non-empty and then holding them, robots |
| MetaTags.AddressesOnProductionSite | src/components/seo/MetaTags.tsx:23-25 | without a base URL variable the canonical address is on the production site and the picture is absolute |
| MetaTags.IndexedByDefault | src/components/seo/MetaTags.tsx:19-20 | unless asked otherwise, pages are indexed and typed `website` |
| Breadcrumbs.ListItemsFrom | src/components/seo/Breadcrumbs.tsx:21-26 | one list item per entry, numbered on from a start position |
| Breadcrumbs.Schema | src/components/seo/Breadcrumbs.tsx:18-27 | one list item per entry in order, positions 1..n, the same names, and an `item` exactly for entries with a url, equal to base + url |
| Breadcrumbs.DrawAt | src/components/seo/Breadcrumbs.tsx:40-77 | a separator exactly after the first entry; the current-page label exactly for the last; a link exactly for an earlier entry with a url |
| Breadcrumbs.Trail | src/components/seo/Breadcrumbs.tsx:40-79 | one drawn crumb per entry, in order |
| Breadcrumbs.TrailAgreesWithSchema | src/components/seo/Breadcrumbs.tsx:21-77 | only the last entry is the current page, the first has no separator, and the others are links exactly when the schema gives them an `item` |
| ProductSchema.OrElse | src/components/seo/ProductSchema.tsx:36 | `value \|\| fallback` on optional text |
| ProductSchema.Availability | src/components/seo/ProductSchema.tsx:47-49 | OutOfStock exactly when `inStock` is `false`, InStock exactly otherwise (also when absent) |
| ProductSchema.FirstReviews | src/components/seo/ProductSchema.tsx:70-84 | the first `min(5, n)` reviews in input order |
| ProductSchema.Schema | src/components/seo/ProductSchema.tsx:24-85 | a rating exactly when one with a positive count is given; reviews exactly when any are given, at most five; the sku, brand and currency defaults; the offer url default; the name, description, category, offer price and seller; InStock exactly unless `inStock` is `false`; absolute images in order |
| ProductSchema.Build | src/components/seo/ProductSchema.tsx:28-85 | the base object and the two conditional additions give `Schema` |
| ProductSchema.EmptyReviewDefaults | src/components/seo/ProductSchema.tsx:74-83 | an empty review is a five-star review by "Customer" with an empty body |
| Sitemap.Freshness | scripts/generateSitemap.js:117-136 | weekly at 0.7 exactly for candles, monthly at 0.6 exactly for any other category |
| Sitemap.ProductPage | scripts/generateSitemap.js:117-146 | the `switch` gives the product's entry, weekly exactly for candles |
| Sitemap.Entries | scripts/generateSitemap.js:63-147 | home (daily, 1.0) and `/search` (weekly, 0.7), then the three category pages, then one entry per product, in order |
| Sitemap.VisibleProducts | scripts/generateSitemap.js:44 | exactly the visible products of the store |
| Sitemap.OnlyVisibleProducts | scripts/generateSitemap.js:44-147 | every product entry is a visible product of the store, at its place |
| Sitemap.GiftBoxPage | scripts/generateSitemap.js:80-107 | the `gift box` page is `gift%20box`, not the `gift-box` slug |
| Sitemap.EncodeSpacedWords | scripts/generateSitemap.js:81-83 | two unreserved words around a space encode with `%20` between them |
| Sitemap.DocumentFrame | scripts/generateSitemap.js:89-150 | the document starts with the XML declaration and the sitemaps.org 0.9 `urlset`, and ends with `</urlset>` |
| Sitemap.RenderAppend | scripts/generateSitemap.js:93-147 | rendering one more entry appends its element |
| Sitemap.RenderConcat | scripts/generateSitemap.js:93-147 | rendering two lists one after the other is rendering their concatenation |
| Sitemap.XmlStep | scripts/generateSitemap.js:94-100 | one `+=` inside a loop extends the text by the next entry |
| Sitemap.WriteStaticPages | scripts/generateSitemap.js:93-101 | the static loop appends the static entries |
| Sitemap.WriteCategoryPages | scripts/generateSitemap.js:104-112 | the category loop appends the category entries |
| Sitemap.WriteProductPages | scripts/generateSitemap.js:115-147 | the product loop appends the product entries |
| Sitemap.WriteSitemap | scripts/generateSitemap.js:89-150 | the text built is the document of all entries |
| Sitemap.GenerateSitemap | scripts/generateSitemap.js:11-177 | without a connection string or with a database error, nothing is written and the error names the cause; otherwise the document of every entry is written and the counts are 2, 3 and the number of visible products |

## Left out

- Database, session and framework: MongoDB and mongoose, `connectDB`, next-auth's `getServerSession`, `fs.writeFileSync`, dotenv, `process.env`, `console`, `toast`, `router` and React hooks are replaced by parameters and results. A database failure is one boolean or error parameter per call.
- Admin redirects: `redirect()` throws inside each admin action's `try`, so the caller sees the action's own failure. The model returns that failure for a denied caller, and how Next.js handles the redirect exception is not part of this model.
- Sitemap file write: a failing `fs.writeFileSync` is not modelled. The model returns the text it would write.
- The cart and wishlist store that `addItem` calls is not part of this model. `Cart.HandleAddToCart` returns the arguments it would pass.
- src/types/types.ts and the mongoose models are not part of this model. `Catalog.Product` holds the fields the core reads: an absent description or status is `""`, and an absent discount is 0.
- Shuffle uniformity: `Math.random` becomes the sequence of index choices, each in [0, i]. The model proves the permutation, the exclusion and the count, not the distribution.
- Storefront.GetProductByName: for a name with regular-expression metacharacters, an oracle parameter says whether the `RegExp` constructor accepts it and whether it matches, because regex semantics are not modelled. A rejected pattern is the thrown error. Names without metacharacters always compile and are compared literally, up to ASCII case.
- ProductPage.Summary: counts Unicode scalar values, while `length` and `substring` count UTF-16 code units. For text with characters outside the Basic Multilingual Plane (such as emoji), the 160-unit cut and the `...` fall elsewhere in the source, which can even split a surrogate pair.
- Admin.ProductStore.GetAllForAdmin: the database sort `{ createdAt: -1 }` leaves the order of documents with equal `createdAt` unspecified. The model fixes one order, insertion order, so its exact-result ensures is more specific than the source promises for ties. What the source does promise, a permutation of all documents in `createdAt`-descending order, is `Admin.AdminListing`.
- Admin.GetCategories and Admin.GetStatuses: the admin actions import the enums from src/types/types.ts, which is not part of this model. The model uses the enums of src/constants/index.ts and assumes the two declare the same values in the same order.
- `localeCompare` is code-point order on strings, a total order. Locale-specific collation is not modelled.
- `toLowerCase` and `toUpperCase` (including in `capitalizeFirstLetter`) map ASCII letters only. Other letters keep their case.
- Uri.DecodeUriComponent decodes escapes of ASCII bytes only. An escape of a byte of 0x80 or more counts as a failure, like malformed input.
- Numbers.ParseNumber reads integer text only. Decimals, exponents and hexadecimal forms of `Number()`, and `NaN`, are not modelled; filter prices are integers.
- Prices are real numbers, not IEEE-754 doubles. `parseFloat`, `toFixed`, `toString` of prices and ratings, and JSON parse and stringify are not modelled.
- SearchFilters.ChangeFilter: `handleFilterChange` can store a number in a text field or text in a price field. The model requires the value's kind to match the field.
- ProductForm.AddProductForm.UpdateSize, UpdateImage, UpdateVariant and UpdateVariantImage require the index to be in range. The form only calls them with indices of listed entries; an out-of-range write would lengthen a JavaScript array.
- ProductForm.AddProductForm.AddVariantImage, RemoveVariantImage and UpdateVariantImage treat variants as values. In the source they write into the variant object that the previous state shares; that aliasing is not modelled.
- Reading the filters back from the URL uses the written parameter list itself, not a re-parse of the serialised query string.
- On the product page, the offer URL is the relative `currentUrl` that the page passes to `ProductSchema`. `ProductPage.ProductContent` states this as the code has it.
- Rendering (markup, CSS classes, SVG) and the pages outside the core are not modelled.
