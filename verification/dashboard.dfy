/** The storefront's product view (frontend/src/components/UserDashboard.jsx): the full list
    fetched once, the list on display, and the selected category button. */
module Dashboard {
  import opened Common
  import opened ProductRoutes
  import opened Seqs
  import opened Sorting

  datatype View = View(products: seq<ProductJson>, filtered: seq<ProductJson>, selected: Option<Id>)

  /** The view once the product list has arrived: everything on display, nothing selected. */
  function Loaded(products: seq<ProductJson>): (v: View)
    ensures v.filtered == v.products == products && v.selected.None?
  {
    View(products, products, None)
  }

  /** `handleSortAZ`, `handleSortZA`, `handleSortPriceLowToHigh`, `handleSortPriceHighToLow`:
      reorder the products on display. */
  function SortBy(v: View, k: SortKey): (v': View)
    ensures v'.products == v.products && v'.selected == v.selected
    ensures multiset(v'.filtered) == multiset(v.filtered) && |v'.filtered| == |v.filtered|
    ensures Sorted(k, v'.filtered)
  {
    SortKeepsLength(k, v.filtered);
    v.(filtered := Sort(k, v.filtered))
  }

  predicate InPriceRange(p: ProductJson, min: real, max: real) {
    p.price >= min && p.price <= max
  }

  function PriceTest(min: real, max: real): ProductJson -> bool {
    p => InPriceRange(p, min, max)
  }

  /** `filterByPriceRange`: show the products of the full list priced within `[min, max]`. The
      selected category is left as it was. */
  function FilterByPriceRange(v: View, min: real, max: real): (v': View)
    ensures v'.products == v.products && v'.selected == v.selected
    ensures forall p :: p in v'.filtered ==> InPriceRange(p, min, max)
    ensures forall p :: p in v.products && InPriceRange(p, min, max) ==> p in v'.filtered
    ensures forall i :: 0 <= i < |v.products| ==>
      multiset(v'.filtered)[v.products[i]] ==
        if InPriceRange(v.products[i], min, max) then multiset(v.products)[v.products[i]] else 0
    ensures Subsequence(v'.filtered, v.products)
  {
    var r := Filter(v.products, PriceTest(min, max));
    forall p | p in v.products && InPriceRange(p, min, max) ensures p in r {
      FilterMembership(v.products, PriceTest(min, max), p);
    }
    forall p | p in v.products
      ensures multiset(r)[p] == if InPriceRange(p, min, max) then multiset(v.products)[p] else 0
    {
      FilterCount(v.products, PriceTest(min, max), p);
    }
    v.(filtered := r)
  }

  /** The product's category is populated with id `id`. A missing or null category, or one that
      is only an id, has no `_id` to match. */
  predicate InCategory(p: ProductJson, id: Id) {
    p.category.Populated? && p.category.id == id
  }

  function CategoryTest(id: Id): ProductJson -> bool {
    p => InCategory(p, id)
  }

  /** `filterByCategory`: show the products of the full list in category `id`, and select it. */
  function FilterByCategory(v: View, id: Id): (v': View)
    ensures v'.products == v.products && v'.selected == Some(id)
    ensures forall p :: p in v'.filtered ==> InCategory(p, id)
    ensures forall p :: p in v.products && InCategory(p, id) ==> p in v'.filtered
    ensures forall i :: 0 <= i < |v.products| ==>
      multiset(v'.filtered)[v.products[i]] ==
        if InCategory(v.products[i], id) then multiset(v.products)[v.products[i]] else 0
    ensures Subsequence(v'.filtered, v.products)
  {
    var r := Filter(v.products, CategoryTest(id));
    forall p | p in v.products && InCategory(p, id) ensures p in r {
      FilterMembership(v.products, CategoryTest(id), p);
    }
    forall p | p in v.products
      ensures multiset(r)[p] == if InCategory(p, id) then multiset(v.products)[p] else 0
    {
      FilterCount(v.products, CategoryTest(id), p);
    }
    View(v.products, r, Some(id))
  }

  /** `resetFilters`: show the full list and clear the selection. */
  function ResetFilters(v: View): (v': View)
    ensures v'.filtered == v'.products == v.products && v'.selected.None?
  {
    v.(filtered := v.products, selected := None)
  }

  /** The sorts keep the displayed order of products ranked level: sorting by price keeps
      equally priced products in the order they were shown. */
  lemma SortByStable(v: View, k: SortKey, x: ProductJson)
    ensures Filter(SortBy(v, k).filtered, Equiv(k, x)) == Filter(v.filtered, Equiv(k, x))
  {
    SortStable(k, v.filtered, x);
  }

  /** Whatever filters and sorts were applied since the list arrived, the reset returns the
      view to how it was loaded. */
  lemma ResetUndoesFilters(ps: seq<ProductJson>, c: Id, lo: real, hi: real, k: SortKey)
    ensures ResetFilters(FilterByCategory(Loaded(ps), c)) == Loaded(ps)
    ensures ResetFilters(SortBy(FilterByPriceRange(Loaded(ps), lo, hi), k)) == Loaded(ps)
  {
  }

  /** Both filters read only the full list: what was on display before, filtered or sorted,
      makes no difference, so a second filter discards the first. */
  lemma FiltersStartFromFullList(v: View, w: View, min: real, max: real, id: Id)
    requires v.products == w.products
    ensures FilterByPriceRange(v, min, max).filtered == FilterByPriceRange(w, min, max).filtered
    ensures FilterByCategory(v, id).filtered == FilterByCategory(w, id).filtered
  {
  }

  /** After a category filter, a price filter replaces the display but leaves that category
      selected, so its button stays highlighted over products from any category. */
  lemma PriceFilterKeepsStaleSelection(v: View, id: Id, min: real, max: real)
    ensures
      var v' := FilterByPriceRange(FilterByCategory(v, id), min, max);
      v'.selected == Some(id) && v'.filtered == FilterByPriceRange(v, min, max).filtered
  {
  }

  /** A filter over a list whose products all qualify shows the whole list. */
  lemma PriceFilterKeepsQualifyingList(v: View, min: real, max: real)
    requires forall i :: 0 <= i < |v.products| ==> InPriceRange(v.products[i], min, max)
    ensures FilterByPriceRange(v, min, max).filtered == v.products
  {
    FilterAllPass(v.products, PriceTest(min, max));
  }

  /** The four price buttons, as (min, max) pairs. */
  const PriceButtons: seq<(real, real)> := [(0.0, 100.0), (100.0, 500.0), (501.0, 1000.0), (1001.0, 2000.0)]

  /** The buttons whose filter shows a product priced `price`. */
  function ButtonsShowing(price: real): set<int> {
    set b | 0 <= b < |PriceButtons| && PriceButtons[b].0 <= price <= PriceButtons[b].1
  }

  /** A price of 100 lies in two button ranges; 500.5 and 1000.5 lie in none. */
  lemma PriceButtonsOverlapAndGap()
    ensures ButtonsShowing(100.0) == {0, 1}
    ensures ButtonsShowing(500.5) == {} && ButtonsShowing(1000.5) == {}
  {
    assert PriceButtons[0] == (0.0, 100.0) && PriceButtons[1] == (100.0, 500.0);
    assert PriceButtons[2] == (501.0, 1000.0) && PriceButtons[3] == (1001.0, 2000.0);
    assert forall b :: b in ButtonsShowing(100.0) <==> b == 0 || b == 1;
  }

  /** On the storefront, a product priced 100 shows under the first two price buttons and one
      priced 500.5 under none of them. */
  lemma PriceButtonsOnDisplay(v: View, p: ProductJson)
    requires p in v.products
    ensures p.price == 100.0 ==>
      p in FilterByPriceRange(v, 0.0, 100.0).filtered && p in FilterByPriceRange(v, 100.0, 500.0).filtered
    ensures p.price == 500.5 ==>
      forall b :: 0 <= b < |PriceButtons| ==>
        p !in FilterByPriceRange(v, PriceButtons[b].0, PriceButtons[b].1).filtered
  {
    PriceButtonsOverlapAndGap();
    if p.price == 500.5 {
      forall b | 0 <= b < |PriceButtons|
        ensures p !in FilterByPriceRange(v, PriceButtons[b].0, PriceButtons[b].1).filtered
      {
        assert b !in ButtonsShowing(500.5);
      }
    }
  }
}
