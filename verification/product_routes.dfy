/** The product routes of backend/routes/productRoutes.js as pure functions from a store to
    the next store and the reply. The upload clock is the parameter `now`; a `Fault` picks a
    failing store call. Each route makes one store call, so a failure changes nothing. */
module ProductRoutes {
  import opened Common
  import opened Models
  import opened Upload
  import CategoryRoutes

  /** The file multer stored for the `image` field; only its original name matters here. */
  datatype File = File(originalName: string)

  /** A product's `category` as JSON: missing or null, a bare id, or the populated category. */
  datatype CategoryField =
    | NoCategory
    | CategoryRef(id: Id)
    | Populated(id: Id, name: string, subCategories: seq<Id>)

  /** A product document as JSON. */
  datatype ProductJson = ProductJson(
    id: Id,
    name: string,
    description: string,
    price: real,
    stock: real,
    imageUrl: Option<string>,
    category: CategoryField)

  /** The path of the uploaded image, if a file came with the request. */
  function ImagePath(file: Option<File>, now: nat): Option<string> {
    if file.Some? then Some(UploadPath(now, file.value.originalName)) else None
  }

  /** A stored product as the create and update routes return it: category unpopulated. */
  function StoredJson(id: Id, p: Product): ProductJson {
    ProductJson(id, p.name, p.description, p.price, p.stock, p.imageUrl,
                if p.category.Some? then CategoryRef(p.category.value) else NoCategory)
  }

  /** `POST /api/products`: the body's fields, with `imageUrl` the upload's path when a file
      came and null otherwise. Replies 200 with the product, or 500. */
  function CreateProduct(st: Store, body: ProductFields, file: Option<File>, now: nat, fault: Fault)
    : (out: (Store, Reply<ProductJson>))
    requires Allocated(st)
    ensures Allocated(out.0) && KeepsRecords(st, out.0)
    ensures out.0.categories == st.categories && out.0.subcategories == st.subcategories
    ensures out.1.Err? ==> out.0 == st && Status(out.1, 200) == 500
    // only the four required fields are checked; price and stock may be any number
    ensures out.1.Ok? <==>
      && RequiredString(body.name) && RequiredString(body.description)
      && body.price.Some? && body.stock.Some? && Survives(fault, 1)
    ensures out.1.Ok? ==>
      var j := out.1.value;
      && j.id !in st.products
      && out.0.products.Keys == st.products.Keys + {j.id}
      && out.0.products[j.id] == Product(body.name.value, body.description.value, body.price.value,
                                         body.stock.value, ImagePath(file, now), body.category)
      && j == StoredJson(j.id, out.0.products[j.id])
  {
    match ValidateProduct(body.(imageUrl := ImagePath(file, now)))
    case None => (st, Err(Invalid))
    case Some(p) =>
      if !Survives(fault, 1) then (st, Err(StoreFailure))
      else
        var id := st.next;
        (st.(products := st.products[id := p], next := id + 1), Ok(StoredJson(id, p)))
  }

  /** Deleting a product right after creating it restores the products as they were. */
  lemma CreateThenDeleteRestores(st: Store, body: ProductFields, file: Option<File>, now: nat, fault: Fault)
    requires Allocated(st)
    requires CreateProduct(st, body, file, now, fault).1.Ok?
    ensures
      var created := CreateProduct(st, body, file, now, fault);
      var deleted := DeleteProduct(created.0, created.1.value.id, NoFault);
      deleted.1 == Ok(()) && deleted.0.products == st.products
  {
  }

  /** The category of a product as `populate('category')` shows it: the whole category
      document, or null when the product has none or its category no longer exists. */
  function PopulateCategory(categories: map<Id, Category>, ref: Option<Id>): (f: CategoryField)
    ensures f.Populated? <==> ref.Some? && ref.value in categories
    ensures f.Populated? ==>
      f == Populated(ref.value, categories[ref.value].name, categories[ref.value].subCategories)
    ensures !f.CategoryRef?
  {
    if ref.Some? && ref.value in categories then
      var c := categories[ref.value];
      Populated(ref.value, c.name, c.subCategories)
    else NoCategory
  }

  /** `GET /api/products`: every product with its category populated. */
  function ListProducts(st: Store, fault: Fault): (r: Reply<map<Id, ProductJson>>)
    ensures r.Ok? <==> Survives(fault, 1)
    ensures r.Ok? ==>
      && r.value.Keys == st.products.Keys
      && forall k :: k in r.value ==>
           var p := st.products[k];
           r.value[k] == ProductJson(k, p.name, p.description, p.price, p.stock, p.imageUrl,
                                     PopulateCategory(st.categories, p.category))
  {
    if !Survives(fault, 1) then Err(StoreFailure)
    else Ok(map k | k in st.products ::
              var p := st.products[k];
              ProductJson(k, p.name, p.description, p.price, p.stock, p.imageUrl,
                          PopulateCategory(st.categories, p.category)))
  }

  /** `DELETE /api/products/:id`: replies 200 after removing the product, 404 when there is
      none, 500 when the store call fails. */
  function DeleteProduct(st: Store, id: Id, fault: Fault): (out: (Store, Reply<()>))
    ensures out.0.categories == st.categories && out.0.subcategories == st.subcategories
    ensures out.0.next == st.next
    ensures out.1.Err? ==> out.0 == st
    ensures out.1 == Err(NotFound) <==> Survives(fault, 1) && id !in st.products
    ensures out.1.Ok? <==> Survives(fault, 1) && id in st.products
    ensures out.1.Ok? ==>
      && out.0.products.Keys == st.products.Keys - {id}
      && forall k :: k in out.0.products ==> out.0.products[k] == st.products[k]
  {
    if !Survives(fault, 1) then (st, Err(StoreFailure))
    else if id !in st.products then (st, Err(NotFound))
    else (st.(products := st.products - {id}), Ok(()))
  }

  /** The update validators run on the paths an update sets, so only a required string set to
      the empty string is rejected. */
  predicate ValidUpdate(f: ProductFields) {
    && (f.name.Some? ==> f.name.value != "")
    && (f.description.Some? ==> f.description.value != "")
  }

  /** The fields an update sets: the body's, with `imageUrl` taken from the upload when a file
      came. A body may itself carry `imageUrl`, which then applies without a file. */
  function UpdateData(body: ProductFields, file: Option<File>, now: nat): ProductFields {
    if file.Some? then body.(imageUrl := ImagePath(file, now)) else body
  }

  /** An update body that sets no field. */
  const NoFields: ProductFields := ProductFields(None, None, None, None, None, None)

  /** Fields `g` written over fields `f`: what two successive updates set between them. */
  function Merge(f: ProductFields, g: ProductFields): ProductFields {
    ProductFields(
      if g.name.Some? then g.name else f.name,
      if g.description.Some? then g.description else f.description,
      if g.price.Some? then g.price else f.price,
      if g.stock.Some? then g.stock else f.stock,
      if g.imageUrl.Some? then g.imageUrl else f.imageUrl,
      if g.category.Some? then g.category else f.category)
  }

  /** A stored product with the fields of `f` that are present written over it. */
  function Apply(p: Product, f: ProductFields): (r: Product)
    ensures f == NoFields ==> r == p
  {
    Product(
      if f.name.Some? then f.name.value else p.name,
      if f.description.Some? then f.description.value else p.description,
      if f.price.Some? then f.price.value else p.price,
      if f.stock.Some? then f.stock.value else p.stock,
      if f.imageUrl.Some? then f.imageUrl else p.imageUrl,
      if f.category.Some? then f.category else p.category)
  }

  /** Two successive `$set`s of `f` then `g` leave the document one `$set` of their merge
      would, and setting the same fields twice is setting them once. */
  lemma ApplyComposes(p: Product, f: ProductFields, g: ProductFields)
    ensures Apply(Apply(p, f), g) == Apply(p, Merge(f, g))
    ensures Apply(Apply(p, f), f) == Apply(p, f)
  {
  }

  /** The update validators accept exactly the updates that, written over a valid stored
      product, leave its required strings non-empty; leaving a field out always passes. */
  lemma UpdateKeepsRequiredFields(p: Product, f: ProductFields)
    requires p.name != "" && p.description != ""
    ensures ValidUpdate(f) <==> Apply(p, f).name != "" && Apply(p, f).description != ""
  {
  }

  /** `PUT /api/products/:id`: validates the update, then writes it and replies with the
      updated document; 404 when no product has the id, 500 on a rejected update or a failed
      store call. */
  function UpdateProduct(st: Store, id: Id, body: ProductFields, file: Option<File>, now: nat, fault: Fault)
    : (out: (Store, Reply<ProductJson>))
    ensures out.0.categories == st.categories && out.0.subcategories == st.subcategories
    ensures out.0.next == st.next
    ensures out.1.Err? ==> out.0 == st
    // validation comes before the lookup, so an invalid update of a missing id answers 500
    ensures !ValidUpdate(body) ==> out.1 == Err(Invalid)
    ensures out.1 == Err(NotFound) <==> ValidUpdate(body) && Survives(fault, 1) && id !in st.products
    ensures out.1.Ok? <==> ValidUpdate(body) && Survives(fault, 1) && id in st.products
    ensures out.1.Ok? ==>
      && out.0.products.Keys == st.products.Keys
      && (forall k :: k in st.products && k != id ==> out.0.products[k] == st.products[k])
      && out.1.value == StoredJson(id, out.0.products[id])
  {
    var data := UpdateData(body, file, now);
    if !ValidUpdate(data) then (st, Err(Invalid))
    else if !Survives(fault, 1) then (st, Err(StoreFailure))
    else if id !in st.products then (st, Err(NotFound))
    else
      var q := Apply(st.products[id], data);
      (st.(products := st.products[id := q]), Ok(StoredJson(id, q)))
  }

  /** After a successful update each field the body sets takes the body's value and each
      field it leaves out keeps its stored value. */
  lemma UpdateOverwritesGivenFields(st: Store, id: Id, body: ProductFields, file: Option<File>, now: nat, fault: Fault)
    requires UpdateProduct(st, id, body, file, now, fault).1.Ok?
    ensures
      var p := st.products[id];
      var q := UpdateProduct(st, id, body, file, now, fault).0.products[id];
      && (body.name.Some? ==> q.name == body.name.value)
      && (body.name.None? ==> q.name == p.name)
      && (body.description.Some? ==> q.description == body.description.value)
      && (body.description.None? ==> q.description == p.description)
      && (body.price.Some? ==> q.price == body.price.value)
      && (body.price.None? ==> q.price == p.price)
      && (body.stock.Some? ==> q.stock == body.stock.value)
      && (body.stock.None? ==> q.stock == p.stock)
      && (body.category.Some? ==> q.category == body.category)
      && (body.category.None? ==> q.category == p.category)
      && (file.None? && body.imageUrl.Some? ==> q.imageUrl == body.imageUrl)
      && (file.None? && body.imageUrl.None? ==> q.imageUrl == p.imageUrl)
  {
  }

  /** Without a file, and without an `imageUrl` field in the body, an update keeps the stored
      image path. */
  lemma UpdateWithoutFileKeepsImage(st: Store, id: Id, body: ProductFields, now: nat, fault: Fault)
    requires body.imageUrl.None?
    requires UpdateProduct(st, id, body, None, now, fault).1.Ok?
    ensures UpdateProduct(st, id, body, None, now, fault).0.products[id].imageUrl == st.products[id].imageUrl
  {
  }

  /** With a file, an update replaces the stored image path with the new upload's path,
      whatever the body says. */
  lemma UpdateWithFileSetsImage(st: Store, id: Id, body: ProductFields, file: File, now: nat, fault: Fault)
    requires UpdateProduct(st, id, body, Some(file), now, fault).1.Ok?
    ensures UpdateProduct(st, id, body, Some(file), now, fault).0.products[id].imageUrl
            == Some(UploadPath(now, file.originalName))
  {
  }

  /** Repeating an update changes nothing further. */
  lemma UpdateIdempotent(st: Store, id: Id, body: ProductFields, file: Option<File>, now: nat)
    requires UpdateProduct(st, id, body, file, now, NoFault).1.Ok?
    ensures
      var (st1, r1) := UpdateProduct(st, id, body, file, now, NoFault);
      UpdateProduct(st1, id, body, file, now, NoFault) == (st1, r1)
  {
    var st1 := UpdateProduct(st, id, body, file, now, NoFault).0;
    var data := UpdateData(body, file, now);
    var q := Apply(st.products[id], data);
    assert Apply(q, data) == q;
    assert st1.products[id := q] == st1.products;
  }

  /** Listing right after a create shows the new product with its category populated from
      the stored category, exactly as that category is stored. */
  lemma ListAfterCreatePopulates(st: Store, body: ProductFields, file: Option<File>, now: nat, fault: Fault, c: Id)
    requires Allocated(st)
    requires body.category == Some(c) && c in st.categories
    requires CreateProduct(st, body, file, now, fault).1.Ok?
    ensures
      var (st', r) := CreateProduct(st, body, file, now, fault);
      var listed := ListProducts(st', NoFault).value[r.value.id];
      && listed.category == Populated(c, st.categories[c].name, st.categories[c].subCategories)
      && listed.name == body.name.value && listed.imageUrl == ImagePath(file, now)
  {
  }

  /** A product whose category was deleted lists with a null category. */
  lemma ListAfterCategoryDeleteShowsNull(st: Store, c: Id, fault: Fault, p: Id)
    requires p in st.products && st.products[p].category == Some(c)
    requires CategoryRoutes.DeleteCategory(st, c, fault).1.Ok?
    ensures
      var st' := CategoryRoutes.DeleteCategory(st, c, fault).0;
      && p in st'.products && st'.products[p].category == Some(c)
      && ListProducts(st', NoFault).value[p].category == NoCategory
  {
  }
}
