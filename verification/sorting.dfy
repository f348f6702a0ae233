/** The four storefront sorts (frontend/src/components/UserDashboard.jsx:36-54). Each passes a
    comparator to `Array.prototype.sort`, which is stable, so the result is the stable
    insertion sort under that comparator. */
module Sorting {
  import opened ProductRoutes
  import opened Seqs
  import Collation

  datatype SortKey = NameAscending | NameDescending | PriceAscending | PriceDescending

  /** The comparator returns no positive number for `(a, b)`, so `a` may stay before `b`. */
  predicate InOrder(k: SortKey, a: ProductJson, b: ProductJson) {
    match k
    case NameAscending => Collation.Compare(a.name, b.name) <= 0
    case NameDescending => Collation.Compare(b.name, a.name) <= 0
    case PriceAscending => a.price - b.price <= 0.0
    case PriceDescending => b.price - a.price <= 0.0
  }

  /** Of any two products, one may precede the other. */
  lemma InOrderTotal(k: SortKey, a: ProductJson, b: ProductJson)
    ensures InOrder(k, a, b) || InOrder(k, b, a)
  {
    Collation.CompareAntisymmetric(a.name, b.name);
  }

  lemma InOrderTransitive(k: SortKey, a: ProductJson, b: ProductJson, c: ProductJson)
    requires InOrder(k, a, b) && InOrder(k, b, c)
    ensures InOrder(k, a, c)
  {
    match k
    case NameAscending => Collation.CompareTransitive(a.name, b.name, c.name);
    case NameDescending => Collation.CompareTransitive(c.name, b.name, a.name);
    case PriceAscending =>
    case PriceDescending =>
  }

  /** Every product may precede every later one. */
  predicate Sorted(k: SortKey, s: seq<ProductJson>) {
    forall i, j :: 0 <= i < j < |s| ==> InOrder(k, s[i], s[j])
  }

  /** Inserts `x` into sorted `s` just before the first product that must follow it. */
  function Insert(k: SortKey, x: ProductJson, s: seq<ProductJson>): (r: seq<ProductJson>)
    requires Sorted(k, s)
    ensures Sorted(k, r)
    ensures multiset(r) == multiset(s) + multiset{x}
  {
    if |s| == 0 then [x]
    else if !InOrder(k, s[0], x) then
      InOrderTotal(k, s[0], x);
      forall j | 0 <= j < |s| ensures InOrder(k, x, s[j]) {
        if j > 0 { InOrderTransitive(k, x, s[0], s[j]); }
      }
      [x] + s
    else
      var rest := Insert(k, x, s[1..]);
      assert s == [s[0]] + s[1..];
      HeadPrecedesAll(k, s[0], x, s[1..], rest);
      [s[0]] + rest
  }

  /** A product that may precede `x` and every product of `t` may precede every product of
      any list holding `t`'s products and `x`. */
  lemma HeadPrecedesAll(k: SortKey, h: ProductJson, x: ProductJson, t: seq<ProductJson>, r: seq<ProductJson>)
    requires InOrder(k, h, x) && forall i :: 0 <= i < |t| ==> InOrder(k, h, t[i])
    requires multiset(r) == multiset(t) + multiset{x}
    ensures forall j :: 0 <= j < |r| ==> InOrder(k, h, r[j])
  {
    forall j | 0 <= j < |r| ensures InOrder(k, h, r[j]) {
      var y := r[j];
      assert y in multiset(r);
      if y != x {
        assert y in multiset(t);
        var i :| 0 <= i < |t| && t[i] == y;
      }
    }
  }

  /** The sorted copy of `s`: each product in turn inserted behind those not after it. */
  function Sort(k: SortKey, s: seq<ProductJson>): (r: seq<ProductJson>)
    ensures Sorted(k, r)
    ensures multiset(r) == multiset(s)
  {
    if |s| == 0 then []
    else
      assert s == s[..|s| - 1] + [s[|s| - 1]];
      Insert(k, s[|s| - 1], Sort(k, s[..|s| - 1]))
  }

  /** A sort keeps the number of products. */
  lemma SortKeepsLength(k: SortKey, s: seq<ProductJson>)
    ensures |Sort(k, s)| == |s|
  {
    assert |multiset(Sort(k, s))| == |multiset(s)|;
  }

  /** Inserting a product that may follow all of a sorted list appends it. */
  lemma {:induction false} InsertLast(k: SortKey, x: ProductJson, s: seq<ProductJson>)
    requires Sorted(k, s)
    requires forall i :: 0 <= i < |s| ==> InOrder(k, s[i], x)
    ensures Insert(k, x, s) == s + [x]
  {
    if |s| > 0 {
      InsertLast(k, x, s[1..]);
    }
  }

  /** Sorting an already sorted list leaves it exactly as it was. */
  lemma {:induction false} SortKeepsSorted(k: SortKey, s: seq<ProductJson>)
    requires Sorted(k, s)
    ensures Sort(k, s) == s
  {
    if |s| > 0 {
      var init := s[..|s| - 1];
      SortKeepsSorted(k, init);
      InsertLast(k, s[|s| - 1], init);
      assert init + [s[|s| - 1]] == s;
    }
  }

  /** The products the comparator ranks level with `x`: neither must follow the other. */
  function Equiv(k: SortKey, x: ProductJson): ProductJson -> bool {
    (y: ProductJson) => InOrder(k, x, y) && InOrder(k, y, x)
  }

  /** Two products level with the same product are level with each other. */
  lemma EquivLevel(k: SortKey, x: ProductJson, y: ProductJson, z: ProductJson)
    requires Equiv(k, x)(y) && Equiv(k, x)(z)
    ensures InOrder(k, y, z) && InOrder(k, z, y)
  {
    InOrderTransitive(k, y, x, z);
    InOrderTransitive(k, z, x, y);
  }

  /** A filter nothing passes leaves nothing. */
  lemma FilterNone<T(!new)>(s: seq<T>, p: T -> bool)
    requires forall i :: 0 <= i < |s| ==> !p(s[i])
    ensures Filter(s, p) == []
  {
    if Filter(s, p) != [] {
      var x := Filter(s, p)[0];
      FilterMembership(s, p, x);
    }
  }

  /** A product that must precede the head of a sorted list is level with none of its
      products. */
  lemma FrontHasNoLevel(k: SortKey, x: ProductJson, y: ProductJson, r: seq<ProductJson>)
    requires Sorted(k, r) && |r| > 0 && !InOrder(k, r[0], y) && Equiv(k, x)(y)
    ensures Filter(r, Equiv(k, x)) == []
  {
    forall i | 0 <= i < |r| ensures !Equiv(k, x)(r[i]) {
      if Equiv(k, x)(r[i]) {
        EquivLevel(k, x, y, r[i]);
        if i > 0 { InOrderTransitive(k, r[0], r[i], y); }
      }
    }
    FilterNone(r, Equiv(k, x));
  }

  /** Inserting `y` puts it behind every product already there that is level with it, so
      the products level with `x` appear in their old order, `y` last if it is one. */
  lemma {:induction false} InsertFilter(k: SortKey, x: ProductJson, y: ProductJson, r: seq<ProductJson>)
    requires Sorted(k, r)
    ensures Filter(Insert(k, y, r), Equiv(k, x)) == Filter(r, Equiv(k, x)) + (if Equiv(k, x)(y) then [y] else [])
  {
    var e := Equiv(k, x);
    if |r| == 0 {
      FilterCons(y, [], e);
    } else if !InOrder(k, r[0], y) {
      assert Insert(k, y, r) == [y] + r;
      FilterCons(y, r, e);
      if e(y) {
        FrontHasNoLevel(k, x, y, r);
      }
    } else {
      var rest := Insert(k, y, r[1..]);
      assert Insert(k, y, r) == [r[0]] + rest;
      InsertFilter(k, x, y, r[1..]);
      FilterCons(r[0], rest, e);
      assert r == [r[0]] + r[1..];
      FilterCons(r[0], r[1..], e);
    }
  }

  /** The sort is stable: the products level with `x` come out in the order they went in. */
  lemma {:induction false} SortStable(k: SortKey, s: seq<ProductJson>, x: ProductJson)
    ensures Filter(Sort(k, s), Equiv(k, x)) == Filter(s, Equiv(k, x))
  {
    if |s| > 0 {
      var init, last := s[..|s| - 1], s[|s| - 1];
      var sorted, e := Sort(k, init), Equiv(k, x);
      calc {
        Filter(Sort(k, s), e);
        Filter(Insert(k, last, sorted), e);
        { InsertFilter(k, x, last, sorted); }
        Filter(sorted, e) + (if e(last) then [last] else []);
        { SortStable(k, init, x); }
        Filter(init, e) + (if e(last) then [last] else []);
        { FilterAppend(init, last, e); }
        Filter(init + [last], e);
        { assert init + [last] == s; }
        Filter(s, e);
      }
    }
  }

  /** The ascending price sort yields non-decreasing prices, the descending one non-increasing. */
  lemma PriceSortsOrderPrices(s: seq<ProductJson>)
    ensures var r := Sort(PriceAscending, s);
      forall i, j :: 0 <= i < j < |r| ==> r[i].price <= r[j].price
    ensures var r := Sort(PriceDescending, s);
      forall i, j :: 0 <= i < j < |r| ==> r[i].price >= r[j].price
  {
    var up := Sort(PriceAscending, s);
    var down := Sort(PriceDescending, s);
    assert forall i, j :: 0 <= i < j < |up| ==> InOrder(PriceAscending, up[i], up[j]);
    assert forall i, j :: 0 <= i < j < |down| ==> InOrder(PriceDescending, down[i], down[j]);
  }

  /** The A-Z sort yields names in ascending order, the Z-A sort in descending order. */
  lemma NameSortsOrderNames(s: seq<ProductJson>)
    ensures var r := Sort(NameAscending, s);
      forall i, j :: 0 <= i < j < |r| ==> Collation.Compare(r[i].name, r[j].name) <= 0
    ensures var r := Sort(NameDescending, s);
      forall i, j :: 0 <= i < j < |r| ==> Collation.Compare(r[i].name, r[j].name) >= 0
  {
    var down := Sort(NameDescending, s);
    forall i, j | 0 <= i < j < |down| ensures Collation.Compare(down[i].name, down[j].name) >= 0 {
      assert InOrder(NameDescending, down[i], down[j]);
      Collation.CompareAntisymmetric(down[i].name, down[j].name);
    }
  }
}
