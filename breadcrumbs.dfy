/** The breadcrumb trail of src/components/seo/Breadcrumbs.tsx: the schema.org
    `BreadcrumbList` it embeds, and how each entry of the visible trail is
    drawn. */
module Breadcrumbs {
  import opened Wrappers

  /** One entry: a label and, optionally, a site-relative link. */
  datatype Item = Item(name: string, url: Option<string>)

  /** `item.url` is truthy. */
  predicate HasUrl(item: Item) { item.url.Some? && item.url.value != "" }

  /** One `ListItem`; `item` is present only for entries with a link. */
  datatype ListItem = ListItem(position: int, name: string, item: Option<string>)

  function ToListItem(base: string, entry: Item, position: int): (r: ListItem)
  {
    ListItem(position, entry.name, if HasUrl(entry) then Some(base + entry.url.value) else None)
  }

  /** `items.map((item, index) => …)`, from position `from + 1` on. */
  function ListItemsFrom(base: string, items: seq<Item>, from: int): (r: seq<ListItem>)
    ensures |r| == |items|
    ensures forall i :: 0 <= i < |r| ==> r[i] == ToListItem(base, items[i], from + i + 1)
  {
    if items == [] then []
    else [ToListItem(base, items[0], from + 1)] + ListItemsFrom(base, items[1..], from + 1)
  }

  /** The `itemListElement` array: one list item per entry, in order, numbered
      from 1, with an `item` exactly where the entry has a link. */
  function Schema(base: string, items: seq<Item>): (r: seq<ListItem>)
    ensures |r| == |items|
    ensures forall i :: 0 <= i < |items| ==>
      && r[i].position == i + 1
      && r[i].name == items[i].name
      && (r[i].item.Some? <==> HasUrl(items[i]))
      && (HasUrl(items[i]) ==> r[i].item == Some(base + items[i].url.value))
  {
    ListItemsFrom(base, items, 0)
  }

  /** How an entry is drawn. */
  datatype Drawn = CurrentPage(text: string) | Link(href: string, text: string) | Plain(text: string)

  /** One `<li>`: the separator before it, and the entry itself. */
  datatype Crumb = Crumb(separator: bool, drawn: Drawn)

  /** The entry at `index` of a trail of `count` entries. */
  function DrawAt(entry: Item, index: int, count: int): (r: Crumb)
    ensures r.separator <==> index > 0
    ensures r.drawn.CurrentPage? <==> index == count - 1
    ensures r.drawn.Link? <==> index != count - 1 && HasUrl(entry)
    ensures r.drawn.text == entry.name
  {
    Crumb(index > 0,
      if index == count - 1 then CurrentPage(entry.name)
      else if HasUrl(entry) then Link(entry.url.value, entry.name)
      else Plain(entry.name))
  }

  /** The visible trail. */
  function Trail(items: seq<Item>): (r: seq<Crumb>)
    ensures |r| == |items|
    ensures forall i :: 0 <= i < |r| ==> r[i] == DrawAt(items[i], i, |items|)
  {
    seq(|items|, i requires 0 <= i < |items| => DrawAt(items[i], i, |items|))
  }

  /** Exactly one entry, the last, is drawn as the current page, even when it has a
      link; the first has no separator; the others are links exactly when the
      schema gives them an `item`. */
  lemma TrailAgreesWithSchema(base: string, items: seq<Item>)
    requires items != []
    ensures Trail(items)[|items| - 1].drawn == CurrentPage(items[|items| - 1].name)
    ensures forall i :: 0 <= i < |items| - 1 ==> !Trail(items)[i].drawn.CurrentPage?
    ensures !Trail(items)[0].separator
    ensures forall i :: 0 <= i < |items| - 1 ==>
      (Trail(items)[i].drawn.Link? <==> Schema(base, items)[i].item.Some?)
  {
  }
}
