/** Sorting products by a comparator. The search page sorts a copy of its array
    with `Array.prototype.sort`, which ECMA-262 (section 23.1.3.30 of the 2023
    edition) requires to be stable. Its comparators (`localeCompare` on names or
    categories, price differences) are strict weak orders, and a stable sort by a
    strict weak order has exactly one result, so an insertion sort stands for the
    engine's algorithm. The admin list's database sort on `createdAt` descending
    uses the same definition with its own key; there, the order of ties is
    a choice of this model (see `Admin.ProductStore.GetAllForAdmin`). */
module ProductSort {
  import opened Catalog
  import opened Strings

  /** The sort keys in use. */
  datatype Order = NameAsc | NameDesc | PriceAsc | PriceDesc | CategoryAsc | NewestFirst

  /** The comparator returns a negative number: `a` goes strictly before `b`. */
  predicate Precedes(o: Order, a: Product, b: Product)
  {
    match o
    case NameAsc => StrLt(a.name, b.name)
    case NameDesc => StrLt(b.name, a.name)
    case PriceAsc => a.price < b.price
    case PriceDesc => b.price < a.price
    case CategoryAsc => StrLt(a.category, b.category)
    case NewestFirst => b.createdAt < a.createdAt
  }

  /** The comparator returns 0 both ways: equal keys. */
  predicate Tied(o: Order, a: Product, b: Product)
  {
    !Precedes(o, a, b) && !Precedes(o, b, a)
  }

  /** Every comparator is a strict weak order. */
  lemma PrecedesIsStrictWeakOrder(o: Order, a: Product, b: Product, c: Product)
    ensures !Precedes(o, a, a)
    ensures Precedes(o, a, b) && Precedes(o, b, c) ==> Precedes(o, a, c)
    ensures Precedes(o, a, c) ==> Precedes(o, a, b) || Precedes(o, b, c)
  {
    match o
    case NameAsc =>
      StrLtIrreflexive(a.name);
      if StrLt(a.name, b.name) && StrLt(b.name, c.name) { StrLtTransitive(a.name, b.name, c.name); }
      if StrLt(a.name, c.name) { StrLtNegativelyTransitive(a.name, b.name, c.name); }
    case NameDesc =>
      StrLtIrreflexive(a.name);
      if StrLt(b.name, a.name) && StrLt(c.name, b.name) { StrLtTransitive(c.name, b.name, a.name); }
      if StrLt(c.name, a.name) { StrLtNegativelyTransitive(c.name, b.name, a.name); }
    case PriceAsc =>
    case PriceDesc =>
    case CategoryAsc =>
      StrLtIrreflexive(a.category);
      if StrLt(a.category, b.category) && StrLt(b.category, c.category) {
        StrLtTransitive(a.category, b.category, c.category);
      }
      if StrLt(a.category, c.category) {
        StrLtNegativelyTransitive(a.category, b.category, c.category);
      }
    case NewestFirst =>
  }

  /** No element is placed after one that goes strictly after it. */
  predicate Sorted(o: Order, s: seq<Product>)
  {
    forall i, j :: 0 <= i < j < |s| ==> !Precedes(o, s[j], s[i])
  }

  /** Inserts `x` in front of the first element that does not go strictly before it. */
  function Insert(o: Order, x: Product, t: seq<Product>): (r: seq<Product>)
    ensures multiset(r) == multiset(t) + multiset{x}
  {
    if t == [] then [x]
    else if Precedes(o, t[0], x) then
      assert t == [t[0]] + t[1..];
      [t[0]] + Insert(o, x, t[1..])
    else [x] + t
  }

  /** Stable insertion sort. */
  function Sort(o: Order, s: seq<Product>): (r: seq<Product>)
    ensures multiset(r) == multiset(s)
    ensures |r| == |s|
  {
    if s == [] then []
    else
      assert s == [s[0]] + s[1..];
      var r := Insert(o, s[0], Sort(o, s[1..]));
      assert |r| == |multiset(r)|;
      r
  }

  lemma {:induction false} InsertSorted(o: Order, x: Product, t: seq<Product>)
    requires Sorted(o, t)
    ensures Sorted(o, Insert(o, x, t))
  {
    if t != [] {
      var r := Insert(o, x, t);
      if Precedes(o, t[0], x) {
        InsertSorted(o, x, t[1..]);
        var rest := Insert(o, x, t[1..]);
        assert r == [t[0]] + rest;
        forall j | 0 < j < |r| ensures !Precedes(o, r[j], t[0]) {
          assert r[j] in multiset(rest);
          assert r[j] == x || r[j] in t[1..];
          if r[j] == x {
            PrecedesIsStrictWeakOrder(o, x, t[0], x);
          } else {
            var k :| 0 <= k < |t[1..]| && t[1..][k] == r[j];
            assert t[k + 1] == r[j];
          }
        }
      } else {
        assert r == [x] + t;
        forall j | 0 < j < |r| ensures !Precedes(o, r[j], x) {
          assert r[j] == t[j - 1];
          PrecedesIsStrictWeakOrder(o, r[j], t[0], x);
        }
      }
    }
  }

  /** The sorted sequence is in key order. */
  lemma {:induction false} SortSorted(o: Order, s: seq<Product>)
    ensures Sorted(o, Sort(o, s))
  {
    if s != [] {
      SortSorted(o, s[1..]);
      InsertSorted(o, s[0], Sort(o, s[1..]));
    }
  }

  /** The elements of `s` tied with `z`, in their order in `s`. */
  function TiesOf(o: Order, s: seq<Product>, z: Product): (r: seq<Product>)
    ensures |r| <= |s|
  {
    if s == [] then [] else TieOf(o, s[0], z) + TiesOf(o, s[1..], z)
  }

  lemma TiesOfCons(o: Order, a: Product, t: seq<Product>, z: Product)
    ensures TiesOf(o, [a] + t, z) == TieOf(o, a, z) + TiesOf(o, t, z)
  {
    assert ([a] + t)[1..] == t;
  }

  /** `[a]` when `a` is tied with `z`, otherwise nothing. */
  function TieOf(o: Order, a: Product, z: Product): seq<Product>
  {
    if Tied(o, a, z) then [a] else []
  }

  /** Inserting behind an element that goes strictly before `x`. */
  lemma InsertBehind(o: Order, x: Product, t0: Product, rest: seq<Product>)
    requires Precedes(o, t0, x)
    ensures Insert(o, x, [t0] + rest) == [t0] + Insert(o, x, rest)
  {
    assert ([t0] + rest)[1..] == rest;
  }

  /** Two elements on either side of `x` in key order cannot both be tied with `z`. */
  lemma TiesExclusive(o: Order, x: Product, t0: Product, z: Product)
    requires Precedes(o, t0, x)
    ensures TieOf(o, x, z) == [] || TieOf(o, t0, z) == []
  {
    PrecedesIsStrictWeakOrder(o, t0, z, x);
  }

  lemma SwapEmpty(a: seq<Product>, b: seq<Product>, r: seq<Product>)
    requires a == [] || b == []
    ensures a + (b + r) == b + (a + r)
  {
  }

  lemma InsertStableStep(o: Order, x: Product, t0: Product, rest: seq<Product>, z: Product)
    requires Precedes(o, t0, x)
    requires TiesOf(o, Insert(o, x, rest), z) == TiesOf(o, [x] + rest, z)
    ensures TiesOf(o, Insert(o, x, [t0] + rest), z) == TiesOf(o, [x] + ([t0] + rest), z)
  {
    var ins := Insert(o, x, rest);
    InsertBehind(o, x, t0, rest);
    TiesOfCons(o, t0, ins, z);
    TiesOfCons(o, x, rest, z);
    TiesOfCons(o, t0, rest, z);
    TiesOfCons(o, x, [t0] + rest, z);
    TiesExclusive(o, x, t0, z);
    SwapEmpty(TieOf(o, t0, z), TieOf(o, x, z), TiesOf(o, rest, z));
  }

  /** Inserting `x` keeps the order of the elements tied with `z`, with `x` first among them. */
  lemma {:induction false} InsertStable(o: Order, x: Product, t: seq<Product>, z: Product)
    ensures TiesOf(o, Insert(o, x, t), z) == TiesOf(o, [x] + t, z)
  {
    if t != [] && Precedes(o, t[0], x) {
      InsertStable(o, x, t[1..], z);
      InsertStableStep(o, x, t[0], t[1..], z);
      assert t == [t[0]] + t[1..];
    } else {
      assert Insert(o, x, t) == [x] + t;
    }
  }

  /** Stability: the elements with equal keys keep their input order. */
  lemma {:induction false} SortStable(o: Order, s: seq<Product>, z: Product)
    ensures TiesOf(o, Sort(o, s), z) == TiesOf(o, s, z)
  {
    if s != [] {
      SortStable(o, s[1..], z);
      InsertStable(o, s[0], Sort(o, s[1..]), z);
      assert ([s[0]] + Sort(o, s[1..]))[1..] == Sort(o, s[1..]);
    }
  }

  /** Sorting what is already in key order changes nothing. */
  lemma {:induction false} SortOfSorted(o: Order, s: seq<Product>)
    requires Sorted(o, s)
    ensures Sort(o, s) == s
  {
    if s != [] {
      SortedTail(o, s);
      SortOfSorted(o, s[1..]);
      InsertFirst(o, s);
    }
  }

  lemma SortedTail(o: Order, s: seq<Product>)
    requires s != [] && Sorted(o, s)
    ensures Sorted(o, s[1..])
  {
    var t := s[1..];
    forall i, j | 0 <= i < j < |t| ensures !Precedes(o, t[j], t[i]) {
      assert t[j] == s[j + 1] && t[i] == s[i + 1];
    }
  }

  /** The head of a sorted sequence inserted in front of its tail stays in front. */
  lemma InsertFirst(o: Order, s: seq<Product>)
    requires s != [] && Sorted(o, s)
    ensures Insert(o, s[0], s[1..]) == s
  {
    if |s| > 1 {
      assert !Precedes(o, s[1], s[0]);
    }
    assert s == [s[0]] + s[1..];
  }

  /** Sorting twice is sorting once. */
  lemma SortIdempotent(o: Order, s: seq<Product>)
    ensures Sort(o, Sort(o, s)) == Sort(o, s)
  {
    SortSorted(o, s);
    SortOfSorted(o, Sort(o, s));
  }
}
