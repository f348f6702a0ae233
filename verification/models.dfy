/** The three document collections of the backend and the schema rules that guard them
    (backend/models/Category.js, backend/models/Product.js; the Subcategory schema file is
    not part of this model, so a subcategory is the `{name, category}` pair the category
    route writes). */
module Models {
  import opened Common

  /** A category keeps its subcategories as an ordered list of ids. */
  datatype Category = Category(name: string, subCategories: seq<Id>)

  /** A subcategory keeps the back-reference to its category. */
  datatype Subcategory = Subcategory(name: string, category: Id)

  /** A stored product. `imageUrl` and `category` are optional; price and stock are plain
      numbers with no range rule. */
  datatype Product = Product(
    name: string,
    description: string,
    price: real,
    stock: real,
    imageUrl: Option<string>,
    category: Option<Id>)

  /** The database: one map per collection, plus the id allocator standing for ObjectId
      generation. */
  datatype Store = Store(
    categories: map<Id, Category>,
    subcategories: map<Id, Subcategory>,
    products: map<Id, Product>,
    next: Id)

  const Empty: Store := Store(map[], map[], map[], 0)

  /** A fresh database is allocated and linked: the invariants hold from the start. */
  lemma EmptyLinked()
    ensures Allocated(Empty) && Linked(Empty)
  {
  }

  /** Product fields as they arrive in a request body or an update: any may be missing. */
  datatype ProductFields = ProductFields(
    name: Option<string>,
    description: Option<string>,
    price: Option<real>,
    stock: Option<real>,
    imageUrl: Option<string>,
    category: Option<Id>)

  /** Mongoose's `required` on a String path rejects a missing value and the empty string. */
  predicate RequiredString(v: Option<string>) {
    v.Some? && v.value != ""
  }

  /** A category document passes validation exactly when it has a non-empty name. */
  predicate ValidCategoryName(name: Option<string>) {
    RequiredString(name)
  }

  /** Builds the product document from its fields, or None when a required path is missing.
      Only name, description, price and stock are required. */
  function ValidateProduct(f: ProductFields): (r: Option<Product>)
    ensures r.Some? <==>
      RequiredString(f.name) && RequiredString(f.description) && f.price.Some? && f.stock.Some?
    ensures r.Some? ==>
      && Some(r.value.name) == f.name && Some(r.value.description) == f.description
      && Some(r.value.price) == f.price && Some(r.value.stock) == f.stock
      && r.value.imageUrl == f.imageUrl && r.value.category == f.category
  {
    if RequiredString(f.name) && RequiredString(f.description) && f.price.Some? && f.stock.Some? then
      Some(Product(f.name.value, f.description.value, f.price.value, f.stock.value, f.imageUrl, f.category))
    else
      None
  }

  /** Every stored id lies below the allocator, so the ids it hands out next are unused. */
  predicate Allocated(st: Store) {
    && (forall k :: k in st.categories ==> k < st.next)
    && (forall k :: k in st.subcategories ==> k < st.next)
    && (forall k :: k in st.products ==> k < st.next)
  }

  /** The mutual link between categories and subcategories, both directions. */
  predicate Linked(st: Store) {
    UpLinked(st) && DownLinked(st)
  }

  /** Each subcategory's category exists and lists it. */
  predicate UpLinked(st: Store) {
    forall s :: s in st.subcategories ==>
      && st.subcategories[s].category in st.categories
      && s in st.categories[st.subcategories[s].category].subCategories
  }

  /** Each id a category lists is a subcategory pointing back at that category. */
  predicate DownLinked(st: Store) {
    forall c, i :: c in st.categories && 0 <= i < |st.categories[c].subCategories| ==>
      && st.categories[c].subCategories[i] in st.subcategories
      && st.subcategories[st.categories[c].subCategories[i]].category == c
  }

  /** Every record of `st` is still in `st'`, unchanged. */
  predicate KeepsRecords(st: Store, st': Store) {
    && (forall k :: k in st.categories ==> k in st'.categories && st'.categories[k] == st.categories[k])
    && (forall k :: k in st.subcategories ==> k in st'.subcategories && st'.subcategories[k] == st.subcategories[k])
    && (forall k :: k in st.products ==> k in st'.products && st'.products[k] == st.products[k])
  }
}
