/** The admin product page (frontend/src/components/Products.jsx): the product table, the
    add/edit form, the chosen image, the id being edited and the form's validated flag. The
    browser's form check, the user's confirm answer and the server's response are
    parameters. */
module ProductsPage {
  import opened Common
  import opened ProductRoutes
  import opened Seqs

  /** The form fields; an empty number field or an unselected category is None. */
  datatype ProductForm = ProductForm(
    name: string,
    description: string,
    price: Option<real>,
    stock: Option<real>,
    category: Option<Id>)

  const BlankForm: ProductForm := ProductForm("", "", None, None, None)

  datatype Page = Page(
    products: seq<ProductJson>,
    form: ProductForm,
    image: Option<File>,
    editing: Option<Id>,
    validated: bool)

  /** `resetForm`: clear the form, the image, the editing id and the validated flag. */
  function ResetForm(pg: Page): (r: Page)
    ensures r.products == pg.products
    ensures r.form == BlankForm && r.image.None? && r.editing.None? && !r.validated
  {
    Page(pg.products, BlankForm, None, None, false)
  }

  function HasId(id: Id): ProductJson -> bool {
    (p: ProductJson) => p.id == id
  }

  function OtherThan(id: Id): ProductJson -> bool {
    (p: ProductJson) => p.id != id
  }

  /** `handleAddProduct`. An invalid form only sets the validated flag; a successful request
      appends the product the server returned and resets the form; a failed one changes
      nothing else. */
  function AddProduct(pg: Page, formValid: bool, resp: Response<ProductJson>): (r: Page)
    ensures !formValid || resp.Threw? ==> r == pg.(validated := true)
    ensures formValid && resp.Received? ==>
      && r.products == pg.products + [resp.data]
      && r == ResetForm(r)
  {
    if !formValid then pg.(validated := true)
    else
      match resp
      case Received(p) => ResetForm(pg.(products := pg.products + [p]))
      case Threw => pg.(validated := true)
  }

  /** `handleUpdateProduct`. On success every row with the edited id becomes the product the
      server returned, every other row stays, and the form resets. */
  function UpdateProduct(pg: Page, formValid: bool, resp: Response<ProductJson>): (r: Page)
    ensures !formValid || resp.Threw? ==> r == pg.(validated := true)
    ensures formValid && resp.Received? ==>
      && |r.products| == |pg.products|
      && (forall i :: 0 <= i < |pg.products| ==>
            r.products[i] == if Some(pg.products[i].id) == pg.editing then resp.data else pg.products[i])
      && r == ResetForm(r)
  {
    if !formValid then pg.(validated := true)
    else
      match resp
      case Received(p) =>
        var rows := if pg.editing.Some? then Replace(pg.products, HasId(pg.editing.value), p) else pg.products;
        ResetForm(pg.(products := rows))
      case Threw => pg.(validated := true)
  }

  /** `handleEditProduct`: put the product's fields into the form, its category's `_id` as the
      category, and drop the chosen image. A category that arrived as a bare id has no `_id`,
      so the form gets no category. A null category makes the handler throw after it has set
      the editing id, so only that change takes effect. */
  function EditProduct(pg: Page, p: ProductJson): (r: Page)
    ensures r.products == pg.products && r.editing == Some(p.id)
    ensures p.category.NoCategory? ==> r == pg.(editing := Some(p.id))
    ensures !p.category.NoCategory? ==>
      && r.form.name == p.name && r.form.description == p.description
      && r.form.price == Some(p.price) && r.form.stock == Some(p.stock)
      && (r.form.category.Some? <==> p.category.Populated?)
      && (p.category.Populated? ==> r.form.category == Some(p.category.id))
      && r.image.None? && !r.validated
  {
    match p.category
    case NoCategory => pg.(editing := Some(p.id))
    case CategoryRef(_) =>
      Page(pg.products, ProductForm(p.name, p.description, Some(p.price), Some(p.stock), None), None, Some(p.id), false)
    case Populated(c, _, _) =>
      Page(pg.products, ProductForm(p.name, p.description, Some(p.price), Some(p.stock), Some(c)), None, Some(p.id), false)
  }

  /** `handleDeleteProduct`: unless the user declines or the request fails, drop every row
      with that id. */
  function DeleteProduct(pg: Page, id: Id, confirmed: bool, resp: Response<()>): (r: Page)
    ensures !confirmed || resp.Threw? ==> r == pg
    ensures confirmed && resp.Received? ==>
      && r == pg.(products := r.products)
      && (forall p :: p in r.products ==> p.id != id)
      && (forall p :: p in pg.products && p.id != id ==> p in r.products)
      && Subsequence(r.products, pg.products)
      && (forall p :: multiset(r.products)[p] == if p.id != id then multiset(pg.products)[p] else 0)
  {
    if !confirmed then pg
    else
      match resp
      case Received(_) =>
        var rows := Filter(pg.products, OtherThan(id));
        forall p | p in pg.products && p.id != id ensures p in rows {
          FilterMembership(pg.products, OtherThan(id), p);
        }
        forall p ensures multiset(rows)[p] == if p.id != id then multiset(pg.products)[p] else 0 {
          FilterCount(pg.products, OtherThan(id), p);
        }
        pg.(products := rows)
      case Threw => pg
  }

  /** The form's submit handler: update while a product is being edited, add otherwise. A
      successful submit replaces rows in place when editing and appends a row when not. */
  function Submit(pg: Page, formValid: bool, resp: Response<ProductJson>): (r: Page)
    ensures !formValid || resp.Threw? ==> r == pg.(validated := true)
    ensures formValid && resp.Received? ==>
      && r == ResetForm(r)
      && (pg.editing.Some? ==>
            && |r.products| == |pg.products|
            && forall i :: 0 <= i < |pg.products| ==>
                 r.products[i] == if pg.products[i].id == pg.editing.value then resp.data else pg.products[i])
      && (pg.editing.None? ==> r.products == pg.products + [resp.data])
  {
    if pg.editing.Some? then UpdateProduct(pg, formValid, resp) else AddProduct(pg, formValid, resp)
  }

  /** Deleting a product right after adding it, when no other row shares its id, restores
      the table as it was before the add. */
  lemma AddThenDeleteRestores(pg: Page, p: ProductJson)
    requires forall q :: q in pg.products ==> q.id != p.id
    ensures
      var added := AddProduct(pg, true, Received(p));
      DeleteProduct(added, p.id, true, Received(())).products == pg.products
  {
    FilterAppend(pg.products, p, OtherThan(p.id));
    FilterAllPass(pg.products, OtherThan(p.id));
  }

  /** After an update, deleting the edited id leaves the same table as deleting it without the
      update: the update touched no other row. */
  lemma UpdateTouchesOnlyEditedRows(pg: Page, id: Id, p: ProductJson)
    requires pg.editing == Some(id) && p.id == id
    ensures
      var updated := UpdateProduct(pg, true, Received(p));
      DeleteProduct(updated, id, true, Received(())).products
        == DeleteProduct(pg, id, true, Received(())).products
  {
    FilterIgnoresReplaced(pg.products, HasId(id), p, OtherThan(id));
  }
}
