/** The catalog API handlers of the Express server. Each handler issues
    SQL statements against the database one after the other, without a
    transaction, and answers with JSON; a statement that throws makes the
    handler answer 500 with the error, leaving in place whatever the
    earlier statements wrote. The database is a `CatalogServer` object whose
    four fields are the four tables; the pure functions below give the
    outcome of each handler and are what the lemmas speak about. */
module Server {
  import opened Common
  import opened Wire
  import opened Schema

  /** Why a handler answered 500: the database rejected a statement, or
      `images.forEach` was called on a missing `images` value. */
  datatype Fault = Db(error: DbError) | ImagesNotArray

  /** A handler's JSON answer: 200 with a body, or 500 with `{error}`. */
  datatype Reply<T> = Ok(body: T) | InternalError(fault: Fault)

  /** The body `{success: true}` of a delete. */
  datatype Ack = SuccessTrue

  /** The tables after a handler ran, and its answer. */
  datatype Handled<T> = Handled(tables: Tables, reply: Reply<T>)

  /** The tables after a run of image inserts, and the constraint that
      stopped the run, if one did. */
  datatype Batch = Batch(tables: Tables, error: Option<DbError>)

  // ---------------------------------------------------------------------
  // GET /api/categories and GET /api/products

  function UrlOf(m: ImageRow): Url { m.imageUrl }

  /** The subcategory rows of a category, in rowid order. */
  function SubcategoriesOf(t: Tables, categoryId: Id): seq<Subcategory> {
    Filter(t.subcategories, InCategory(categoryId))
  }

  /** `SELECT imageUrl FROM product_images WHERE productId = ?`, in rowid order. */
  function ImagesOf(t: Tables, productId: Id): seq<Url> {
    Map(Filter(t.images, OfProduct(productId)), UrlOf)
  }

  /** A category row with its subcategories nested. */
  function CategoryView(t: Tables, c: CategoryRow): CategoryJson {
    CategoryJson(c.id, c.name, c.imageUrl, SubcategoriesOf(t, c.id))
  }

  /** The six scalar columns of a product row as JSON values. */
  function FieldsOf(p: ProductRow): ProductFields {
    ProductFields(Some(p.name), p.description, Some(p.price), Some(p.stock),
                  Some(p.categoryId), Some(p.subCategoryId))
  }

  /** A product row with its image URLs nested. */
  function ProductView(t: Tables, p: ProductRow): ProductJson {
    ProductJson(p.id, FieldsOf(p), ImagesOf(t, p.id))
  }

  /** `categories.map(category => ...)` of GET /api/categories. */
  function CategoryViewer(t: Tables): CategoryRow -> CategoryJson {
    (c: CategoryRow) => CategoryView(t, c)
  }

  /** `products.map(product => ...)` of GET /api/products. */
  function ProductViewer(t: Tables): ProductRow -> ProductJson {
    (p: ProductRow) => ProductView(t, p)
  }

  /** The answer to GET /api/categories: every category row in order, each
      with exactly the subcategory rows that name it. */
  function ListCategories(t: Tables): (r: seq<CategoryJson>)
    ensures |r| == |t.categories|
    ensures forall i :: 0 <= i < |r| ==>
      && r[i].id == t.categories[i].id && r[i].name == t.categories[i].name
      && r[i].imageUrl == t.categories[i].imageUrl
    ensures forall i, s :: 0 <= i < |r| ==>
      (s in r[i].subCategories <==> s in t.subcategories && s.categoryId == r[i].id)
  {
    Map(t.categories, CategoryViewer(t))
  }

  /** The answer to GET /api/products: every product row in order, each with
      the URLs of exactly its image rows. */
  function ListProducts(t: Tables): (r: seq<ProductJson>)
    ensures |r| == |t.products|
    ensures forall i :: 0 <= i < |r| ==>
      r[i].id == t.products[i].id && r[i].fields == FieldsOf(t.products[i])
    ensures forall i, u :: 0 <= i < |r| ==>
      (u in r[i].images <==> exists m :: m in t.images && m.productId == r[i].id && m.imageUrl == u)
  {
    var r := Map(t.products, ProductViewer(t));
    forall i, u | 0 <= i < |r|
      ensures u in r[i].images <==> exists m :: m in t.images && m.productId == r[i].id && m.imageUrl == u
    {
      var kept := Filter(t.images, OfProduct(r[i].id));
      if u in r[i].images {
        var k :| 0 <= k < |kept| && UrlOf(kept[k]) == u;
        assert kept[k] in kept;
      }
      if exists m :: m in t.images && m.productId == r[i].id && m.imageUrl == u {
        var m :| m in t.images && m.productId == r[i].id && m.imageUrl == u;
        assert m in kept;
        var k :| 0 <= k < |kept| && kept[k] == m;
        assert Map(kept, UrlOf)[k] == u;
      }
    }
    r
  }

  // ---------------------------------------------------------------------
  // Image rows: the `images.forEach(INSERT ...)` loops

  /** The image rows of `productId` for the given ids and URLs, in order. */
  function ImageRows(ids: seq<Id>, productId: Id, urls: seq<Url>): (rows: seq<ImageRow>)
    requires |ids| == |urls|
    ensures |rows| == |urls|
  {
    if urls == [] then []
    else [ImageRow(ids[0], productId, urls[0])] + ImageRows(ids[1..], productId, urls[1..])
  }

  /** The URLs of an `images` array none of whose entries is null. */
  function Present(urls: seq<Option<Url>>): (r: seq<Url>)
    requires forall i :: 0 <= i < |urls| ==> urls[i].Some?
    ensures |r| == |urls| && forall i :: 0 <= i < |r| ==> urls[i] == Some(r[i])
  {
    if urls == [] then [] else [urls[0].value] + Present(urls[1..])
  }

  /** One INSERT per URL, in order, stopping at the first one the database
      rejects; the rows written before it stay. Only the image table
      changes, its old rows stay in front, and every row added belongs to
      `productId`. */
  function InsertImages(t: Tables, productId: Id, ids: seq<Id>, urls: seq<Option<Url>>): (b: Batch)
    requires |ids| == |urls|
    ensures b.tables.(images := t.images) == t
    ensures |t.images| <= |b.tables.images| && b.tables.images[..|t.images|] == t.images
    ensures forall i :: |t.images| <= i < |b.tables.images| ==> b.tables.images[i].productId == productId
    ensures Valid(t) ==> Valid(b.tables)
    decreases |urls|
  {
    if urls == [] then Batch(t, None)
    else
      match InsertImage(t, ids[0], productId, urls[0])
      case Failed(e) => Batch(t, Some(e))
      case Written(t') => InsertImages(t', productId, ids[1..], urls[1..])
  }

  /** A run of image inserts that is not stopped met no null URL. */
  lemma {:induction false} InsertImagesAllPresent(t: Tables, productId: Id, ids: seq<Id>, urls: seq<Option<Url>>)
    requires |ids| == |urls|
    requires InsertImages(t, productId, ids, urls).error.None?
    ensures forall i :: 0 <= i < |urls| ==> urls[i].Some?
    decreases |urls|
  {
    if urls != [] {
      var w := InsertImage(t, ids[0], productId, urls[0]);
      InsertImagesAllPresent(w.tables, productId, ids[1..], urls[1..]);
      assert forall i :: 1 <= i < |urls| ==> urls[i] == urls[1..][i - 1];
    }
  }

  /** A run of image inserts that is not stopped added exactly one row per
      URL, in order. */
  lemma {:induction false} InsertImagesComplete(t: Tables, productId: Id, ids: seq<Id>, urls: seq<Option<Url>>)
    requires |ids| == |urls|
    requires InsertImages(t, productId, ids, urls).error.None?
    ensures forall i :: 0 <= i < |urls| ==> urls[i].Some?
    ensures InsertImages(t, productId, ids, urls).tables.images
         == t.images + ImageRows(ids, productId, Present(urls))
    decreases |urls|
  {
    InsertImagesAllPresent(t, productId, ids, urls);
    if urls != [] {
      var w := InsertImage(t, ids[0], productId, urls[0]);
      assert w.Written?;
      var t' := w.tables;
      assert InsertImages(t, productId, ids, urls) == InsertImages(t', productId, ids[1..], urls[1..]);
      var row := ImageRow(ids[0], productId, urls[0].value);
      var present := Present(urls);
      var rest := ImageRows(ids[1..], productId, Present(urls[1..]));
      assert InsertImages(t', productId, ids[1..], urls[1..]).tables.images == t'.images + rest by {
        InsertImagesComplete(t', productId, ids[1..], urls[1..]);
      }
      assert t'.images == t.images + [row];
      assert present[0] == urls[0].value && present[1..] == Present(urls[1..]);
      assert ImageRows(ids, productId, present) == [row] + rest;
    }
  }

  /** A run of image inserts, stopped or not, added the rows of a first
      `n` URLs, none of them null, in order; it was stopped exactly when
      `n` falls short of the whole list. */
  lemma {:induction false} InsertImagesPrefix(t: Tables, productId: Id, ids: seq<Id>, urls: seq<Option<Url>>)
    requires |ids| == |urls|
    ensures exists n :: InsertedPrefix(t, productId, ids, urls, n, InsertImages(t, productId, ids, urls))
    decreases |urls|
  {
    var b := InsertImages(t, productId, ids, urls);
    if urls == [] {
      assert ImageRows(ids[..0], productId, Present(urls[..0])) == [];
      assert InsertedPrefix(t, productId, ids, urls, 0, b);
    } else {
      var w := InsertImage(t, ids[0], productId, urls[0]);
      if w.Failed? {
        assert ImageRows(ids[..0], productId, Present(urls[..0])) == [];
        assert InsertedPrefix(t, productId, ids, urls, 0, b);
      } else {
        var t' := w.tables;
        assert b == InsertImages(t', productId, ids[1..], urls[1..]);
        InsertImagesPrefix(t', productId, ids[1..], urls[1..]);
        var m :| InsertedPrefix(t', productId, ids[1..], urls[1..], m, b);
        InsertedPrefixStep(t, t', productId, ids, urls, m, b);
      }
    }
  }

  /** One written insert in front of a run that added the rows of `m` URLs
      makes a run that added the rows of `m + 1`. */
  lemma InsertedPrefixStep(t: Tables, t': Tables, productId: Id, ids: seq<Id>, urls: seq<Option<Url>>, m: int, b: Batch)
    requires |ids| == |urls| && urls != [] && urls[0].Some?
    requires t'.images == t.images + [ImageRow(ids[0], productId, urls[0].value)]
    requires InsertedPrefix(t', productId, ids[1..], urls[1..], m, b)
    ensures InsertedPrefix(t, productId, ids, urls, m + 1, b)
  {
    var n := m + 1;
    var row := ImageRow(ids[0], productId, urls[0].value);
    assert urls[..n][1..] == urls[1..][..m];
    assert ids[..n][1..] == ids[1..][..m];
    forall i | 0 <= i < n ensures urls[i].Some? {
      if i > 0 { assert urls[i] == urls[1..][i - 1]; }
    }
    var present := Present(urls[..n]);
    assert present[0] == urls[0].value && present[1..] == Present(urls[1..][..m]);
    assert ImageRows(ids[..n], productId, present)
        == [row] + ImageRows(ids[1..][..m], productId, Present(urls[1..][..m]));
  }

  /** `b` is `t` with the image rows of the first `n` URLs appended, all of
      them present, and `b` reports an error exactly when `n` is short of
      the whole list. */
  predicate InsertedPrefix(t: Tables, productId: Id, ids: seq<Id>, urls: seq<Option<Url>>, n: int, b: Batch)
    requires |ids| == |urls|
  {
    && 0 <= n <= |urls|
    && (forall i :: 0 <= i < n ==> urls[i].Some?)
    && b.tables.images == t.images + ImageRows(ids[..n], productId, Present(urls[..n]))
    && (b.error.None? <==> n == |urls|)
  }

  /** Image rows cannot be inserted for a product that does not exist: the
      foreign key stops the first insert. */
  lemma InsertImagesNeedProduct(t: Tables, productId: Id, ids: seq<Id>, urls: seq<Option<Url>>)
    requires |ids| == |urls|
    requires urls != [] && productId !in ProductIds(t)
    ensures InsertImages(t, productId, ids, urls) == Batch(t, Some(InsertImage(t, ids[0], productId, urls[0]).error))
  {
  }

  /** The rows `ImageRows` builds all belong to `productId` and carry the
      URLs in order. */
  lemma {:induction false} ImageRowsUrls(ids: seq<Id>, productId: Id, urls: seq<Url>)
    requires |ids| == |urls|
    ensures forall m :: m in ImageRows(ids, productId, urls) ==> m.productId == productId
    ensures Map(ImageRows(ids, productId, urls), UrlOf) == urls
    decreases |urls|
  {
    if urls != [] {
      ImageRowsUrls(ids[1..], productId, urls[1..]);
    }
  }

  /** Appending image rows of `productId` adds their URLs after that
      product's images and leaves every other product's images alone. */
  lemma AppendedImages(t: Tables, productId: Id, ids: seq<Id>, urls: seq<Url>, q: Id)
    requires |ids| == |urls|
    ensures ImagesOf(t.(images := t.images + ImageRows(ids, productId, urls)), q)
         == ImagesOf(t, q) + (if q == productId then urls else [])
  {
    var rows := ImageRows(ids, productId, urls);
    ImageRowsUrls(ids, productId, urls);
    FilterAppend(t.images, rows, OfProduct(q));
    MapAppend(Filter(t.images, OfProduct(q)), Filter(rows, OfProduct(q)), UrlOf);
    FilterKeepsAll(rows, OfProduct(q));
    FilterKeepsNone(rows, OfProduct(q));
  }

  /** A product that is not in a valid database has no images. */
  lemma NoImagesOfAbsentProduct(t: Tables, productId: Id)
    requires Valid(t) && productId !in ProductIds(t)
    ensures ImagesOf(t, productId) == []
  {
    FilterKeepsNone(t.images, OfProduct(productId));
  }

  /** Identifiers as `crypto.randomUUID` is relied on to produce them:
      pairwise distinct and not yet used in the image table. */
  predicate FreshImageIds(t: Tables, ids: seq<Id>) {
    && (forall i :: 0 <= i < |ids| ==> ids[i] !in ImageIds(t))
    && (forall i, j :: 0 <= i < j < |ids| ==> ids[i] != ids[j])
  }

  /** With fresh ids and an existing product, the only thing that stops a
      run of image inserts is a null URL. */
  lemma {:induction false} InsertImagesSucceed(t: Tables, productId: Id, ids: seq<Id>, urls: seq<Option<Url>>)
    requires |ids| == |urls|
    requires productId in ProductIds(t) && FreshImageIds(t, ids)
    ensures InsertImages(t, productId, ids, urls).error.None?
        <==> forall i :: 0 <= i < |urls| ==> urls[i].Some?
    decreases |urls|
  {
    if urls != [] && urls[0].Some? {
      var t' := InsertImage(t, ids[0], productId, urls[0]).tables;
      assert ImageIds(t') == ImageIds(t) + {ids[0]};
      assert forall i :: 0 <= i < |ids[1..]| ==> ids[1..][i] == ids[i + 1];
      InsertImagesSucceed(t', productId, ids[1..], urls[1..]);
      assert forall i :: 1 <= i < |urls| ==> urls[i] == urls[1..][i - 1];
    }
  }

  // ---------------------------------------------------------------------
  // The write handlers as functions of the tables

  /** POST /api/categories: insert the row; answer it with no subcategories. */
  function CreateCategoryHandler(t: Tables, id: Id, name: Option<string>, imageUrl: Option<Url>)
    : (h: Handled<CategoryJson>)
    ensures h.reply.Ok? <==> name.Some? && id !in CategoryIds(t)
    ensures h.reply.Ok? ==> h.reply.body == CategoryJson(id, name.value, imageUrl, [])
    ensures h.reply.InternalError? ==> h.tables == t
    ensures Valid(t) ==> Valid(h.tables)
  {
    match InsertCategory(t, id, name, imageUrl)
    case Failed(e) => Handled(t, InternalError(Db(e)))
    case Written(t') => Handled(t', Ok(CategoryJson(id, name.value, imageUrl, [])))
  }

  /** POST /api/subcategories: insert the row and answer it. */
  function CreateSubcategoryHandler(t: Tables, id: Id, name: Option<string>, categoryId: Option<Id>)
    : (h: Handled<Subcategory>)
    ensures h.reply.Ok? <==>
      name.Some? && categoryId.Some? && id !in SubcategoryIds(t) && categoryId.value in CategoryIds(t)
    ensures h.reply.Ok? ==> h.reply.body == Subcategory(id, name.value, categoryId.value)
    ensures h.reply.InternalError? ==> h.tables == t
    ensures Valid(t) ==> Valid(h.tables)
  {
    match InsertSubcategory(t, id, name, categoryId)
    case Failed(e) => Handled(t, InternalError(Db(e)))
    case Written(t') => Handled(t', Ok(Subcategory(id, name.value, categoryId.value)))
  }

  /** The `images` value of a product body has one fresh id per entry. */
  predicate IdsFor(body: ProductBody, imageIds: seq<Id>) {
    body.images.Some? ==> |imageIds| == |body.images.value|
  }

  /** POST /api/products: insert the product row, then one image row per
      URL; answer the body's fields with the new id. The handler is not
      atomic: once the product row is accepted it stays, whatever the
      answer; a missing `images` array then gives a 500, and an image insert
      that fails leaves the earlier image rows of the product in place. A
      rejected product row changes nothing. */
  function CreateProductHandler(t: Tables, id: Id, body: ProductBody, imageIds: seq<Id>)
    : (h: Handled<ProductJson>)
    requires IdsFor(body, imageIds)
    ensures InsertProduct(t, id, body.fields).Failed? ==>
      h == Handled(t, InternalError(Db(InsertProduct(t, id, body.fields).error)))
    ensures InsertProduct(t, id, body.fields).Written? ==>
      && Complete(body.fields)
      && h.tables.(products := t.products, images := t.images) == t
      && h.tables.products == t.products + [ProductRowOf(id, body.fields)]
      && |t.images| <= |h.tables.images| && h.tables.images[..|t.images|] == t.images
      && (forall i :: |t.images| <= i < |h.tables.images| ==> h.tables.images[i].productId == id)
      && (body.images.None? ==> h.reply == InternalError(ImagesNotArray))
    ensures Valid(t) ==> Valid(h.tables)
  {
    match InsertProduct(t, id, body.fields)
    case Failed(e) => Handled(t, InternalError(Db(e)))
    case Written(t1) =>
      if body.images.None? then Handled(t1, InternalError(ImagesNotArray))
      else
        var b := InsertImages(t1, id, imageIds, body.images.value);
        if b.error.Some? then Handled(b.tables, InternalError(Db(b.error.value)))
        else
          InsertImagesComplete(t1, id, imageIds, body.images.value);
          Handled(b.tables, Ok(ProductJson(id, body.fields, Present(body.images.value))))
  }

  /** PUT /api/products/:id: overwrite the six columns, delete the product's
      image rows, then insert one image row per URL; answer the body's
      fields with the id. Like the create handler it is not atomic: a
      rejected UPDATE changes nothing, but once it is written the new
      columns stay and the old image rows of the product are gone, whatever
      the answer; the other products' image rows stay in front, and every
      row added belongs to the product. */
  function UpdateProductHandler(t: Tables, id: Id, body: ProductBody, imageIds: seq<Id>)
    : (h: Handled<ProductJson>)
    requires IdsFor(body, imageIds)
    ensures UpdateProduct(t, id, body.fields).Failed? ==>
      h == Handled(t, InternalError(Db(UpdateProduct(t, id, body.fields).error)))
    ensures UpdateProduct(t, id, body.fields).Written? ==>
      var kept := Filter(t.images, NotOfProduct(id));
      && h.tables.(images := t.images) == UpdateProduct(t, id, body.fields).tables
      && |kept| <= |h.tables.images| && h.tables.images[..|kept|] == kept
      && (forall i :: |kept| <= i < |h.tables.images| ==> h.tables.images[i].productId == id)
      && (body.images.None? ==> h.reply == InternalError(ImagesNotArray))
    ensures Valid(t) ==> Valid(h.tables)
  {
    match UpdateProduct(t, id, body.fields)
    case Failed(e) => Handled(t, InternalError(Db(e)))
    case Written(t1) =>
      var t2 := DeleteImagesOf(t1, id);
      if body.images.None? then Handled(t2, InternalError(ImagesNotArray))
      else
        var b := InsertImages(t2, id, imageIds, body.images.value);
        if b.error.Some? then Handled(b.tables, InternalError(Db(b.error.value)))
        else
          InsertImagesComplete(t2, id, imageIds, body.images.value);
          Handled(b.tables, Ok(ProductJson(id, body.fields, Present(body.images.value))))
  }

  /** DELETE /api/categories/:id: the cascading delete; the answer is
      `{success: true}` whether or not a category had the id. */
  function DeleteCategoryHandler(t: Tables, id: Id): (h: Handled<Ack>)
    ensures h.reply == Ok(SuccessTrue)
    ensures id !in CategoryIds(h.tables)
    ensures Valid(t) ==> Valid(h.tables)
  {
    assert Valid(t) ==> Valid(Schema.DeleteCategory(t, id)) by {
      if Valid(t) { CascadeValid(t, {id}, {}, {}); }
    }
    Handled(Schema.DeleteCategory(t, id), Ok(SuccessTrue))
  }

  /** DELETE /api/subcategories/:id: always `{success: true}`. */
  function DeleteSubcategoryHandler(t: Tables, id: Id): (h: Handled<Ack>)
    ensures h.reply == Ok(SuccessTrue)
    ensures id !in SubcategoryIds(h.tables)
    ensures Valid(t) ==> Valid(h.tables)
  {
    assert Valid(t) ==> Valid(Schema.DeleteSubcategory(t, id)) by {
      if Valid(t) { CascadeValid(t, {}, {id}, {}); }
    }
    Handled(Schema.DeleteSubcategory(t, id), Ok(SuccessTrue))
  }

  /** DELETE /api/products/:id: always `{success: true}`. */
  function DeleteProductHandler(t: Tables, id: Id): (h: Handled<Ack>)
    ensures h.reply == Ok(SuccessTrue)
    ensures id !in ProductIds(h.tables)
    ensures Valid(t) ==> Valid(h.tables)
  {
    assert Valid(t) ==> Valid(Schema.DeleteProduct(t, id)) by {
      if Valid(t) { CascadeValid(t, {}, {}, {id}); }
    }
    Handled(Schema.DeleteProduct(t, id), Ok(SuccessTrue))
  }

  /** The product body as the handlers echo it: the fields sent and the
      URLs of `images`. */
  predicate Echoes(reply: ProductJson, id: Id, body: ProductBody) {
    && reply.id == id && reply.fields == body.fields && body.images.Some?
    && |reply.images| == |body.images.value|
    && forall i :: 0 <= i < |reply.images| ==> body.images.value[i] == Some(reply.images[i])
  }

  /** With fresh image ids, POST /api/products answers 200 exactly when
      the product row is accepted and `images` is an array without null. */
  lemma CreateProductSucceeds(t: Tables, id: Id, body: ProductBody, imageIds: seq<Id>)
    requires IdsFor(body, imageIds) && FreshImageIds(t, imageIds)
    ensures CreateProductHandler(t, id, body, imageIds).reply.Ok? <==>
      && Complete(body.fields) && id !in ProductIds(t) && ParentsExist(t, body.fields)
      && body.images.Some?
      && forall i :: 0 <= i < |body.images.value| ==> body.images.value[i].Some?
  {
    var w := InsertProduct(t, id, body.fields);
    if w.Written? && body.images.Some? {
      assert ImageIds(w.tables) == ImageIds(t);
      assert id in ProductIds(w.tables) by {
        assert ProductRowOf(id, body.fields) in w.tables.products;
      }
      InsertImagesSucceed(w.tables, id, imageIds, body.images.value);
    }
  }

  /** A 200 answer to POST /api/products echoes the body with the new id;
      the product row comes last, the product has exactly the posted URLs
      as images, in order, and no other row changed. */
  lemma CreateProductEffect(t: Tables, id: Id, body: ProductBody, imageIds: seq<Id>)
    requires IdsFor(body, imageIds) && Valid(t)
    ensures var h := CreateProductHandler(t, id, body, imageIds);
      h.reply.Ok? ==>
        && Echoes(h.reply.body, id, body)
        && Complete(body.fields)
        && h.tables.categories == t.categories && h.tables.subcategories == t.subcategories
        && h.tables.products == t.products + [ProductRowOf(id, body.fields)]
        && FieldsOf(ProductRowOf(id, body.fields)) == body.fields
        && ImagesOf(h.tables, id) == h.reply.body.images
        && forall q :: q != id ==> ImagesOf(h.tables, q) == ImagesOf(t, q)
  {
    var h := CreateProductHandler(t, id, body, imageIds);
    if h.reply.Ok? {
      var t1 := InsertProduct(t, id, body.fields).tables;
      var urls := body.images.value;
      InsertImagesComplete(t1, id, imageIds, urls);
      var rows := ImageRows(imageIds, id, Present(urls));
      assert h.tables == t1.(images := t1.images + rows);
      NoImagesOfAbsentProduct(t, id);
      forall q ensures ImagesOf(h.tables, q) == ImagesOf(t, q) + (if q == id then Present(urls) else []) {
        AppendedImages(t1, id, imageIds, Present(urls), q);
      }
    }
  }

  /** With fresh image ids, PUT /api/products/:id answers 200 exactly when
      the column values are accepted (or no product has the id, so nothing
      is checked), `images` is an array without null, and an unknown id
      comes with no images, since an image row for it breaks the foreign
      key. */
  lemma UpdateProductSucceeds(t: Tables, id: Id, body: ProductBody, imageIds: seq<Id>)
    requires IdsFor(body, imageIds) && FreshImageIds(t, imageIds)
    ensures UpdateProductHandler(t, id, body, imageIds).reply.Ok? <==>
      && (id !in ProductIds(t) || (Complete(body.fields) && ParentsExist(t, body.fields)))
      && body.images.Some?
      && (forall i :: 0 <= i < |body.images.value| ==> body.images.value[i].Some?)
      && (id in ProductIds(t) || body.images.value == [])
  {
    var w := Schema.UpdateProduct(t, id, body.fields);
    if w.Written? && body.images.Some? {
      var t2 := DeleteImagesOf(w.tables, id);
      assert ImageIds(t2) <= ImageIds(t);
      if id in ProductIds(t) {
        InsertImagesSucceed(t2, id, imageIds, body.images.value);
      } else if body.images.value != [] {
        InsertImagesNeedProduct(t2, id, imageIds, body.images.value);
      }
    }
  }

  /** A 200 answer to PUT /api/products/:id echoes the body; every product
      row with the id now holds the sent fields, the product's images are
      exactly the sent URLs in order, and no other row changed. */
  lemma UpdateProductEffect(t: Tables, id: Id, body: ProductBody, imageIds: seq<Id>)
    requires IdsFor(body, imageIds)
    ensures var h := UpdateProductHandler(t, id, body, imageIds);
      h.reply.Ok? ==>
        && Echoes(h.reply.body, id, body)
        && h.tables.categories == t.categories && h.tables.subcategories == t.subcategories
        && |h.tables.products| == |t.products|
        && (forall i :: 0 <= i < |t.products| ==>
              && h.tables.products[i].id == t.products[i].id
              && (t.products[i].id != id ==> h.tables.products[i] == t.products[i])
              && (t.products[i].id == id ==> FieldsOf(h.tables.products[i]) == body.fields))
        && ImagesOf(h.tables, id) == h.reply.body.images
        && forall q :: q != id ==> ImagesOf(h.tables, q) == ImagesOf(t, q)
  {
    var h := UpdateProductHandler(t, id, body, imageIds);
    if h.reply.Ok? {
      var t1 := Schema.UpdateProduct(t, id, body.fields).tables;
      var t2 := DeleteImagesOf(t1, id);
      var urls := body.images.value;
      InsertImagesComplete(t2, id, imageIds, urls);
      var rows := ImageRows(imageIds, id, Present(urls));
      assert h.tables == t2.(images := t2.images + rows);
      forall q ensures ImagesOf(h.tables, q) == (if q == id then Present(urls) else ImagesOf(t, q)) {
        AppendedImages(t2, id, imageIds, Present(urls), q);
        DeleteImagesOfRows(t1, id, q);
      }
    }
  }

  /** PUT /api/products/:id without an `images` array answers 500, yet the
      new column values stay written and the product has lost its images. */
  lemma UpdateProductWithoutImages(t: Tables, id: Id, body: ProductBody, imageIds: seq<Id>)
    requires body.images.None? && Schema.UpdateProduct(t, id, body.fields).Written?
    ensures var h := UpdateProductHandler(t, id, body, imageIds);
      && h.reply == InternalError(ImagesNotArray)
      && h.tables.products == Schema.UpdateProduct(t, id, body.fields).tables.products
      && ImagesOf(h.tables, id) == []
      && forall q :: q != id ==> ImagesOf(h.tables, q) == ImagesOf(t, q)
  {
    var t1 := Schema.UpdateProduct(t, id, body.fields).tables;
    forall q ensures ImagesOf(DeleteImagesOf(t1, id), q) == (if q == id then [] else ImagesOf(t, q)) {
      DeleteImagesOfRows(t1, id, q);
    }
  }

  /** A 500 answer to PUT /api/products/:id after the UPDATE was written
      and with an `images` array: the new columns stay, the product's
      images are the first `n` sent URLs, those before the insert that
      failed, and every other product keeps its images. */
  lemma UpdateProductPartial(t: Tables, id: Id, body: ProductBody, imageIds: seq<Id>)
    requires IdsFor(body, imageIds)
    ensures var h := UpdateProductHandler(t, id, body, imageIds);
      var w := Schema.UpdateProduct(t, id, body.fields);
      w.Written? && body.images.Some? && h.reply.InternalError? ==>
        && h.tables.products == w.tables.products
        && (forall q :: q != id ==> ImagesOf(h.tables, q) == ImagesOf(t, q))
        && exists n :: SentPrefix(body.images.value, n, ImagesOf(h.tables, id))
  {
    var h := UpdateProductHandler(t, id, body, imageIds);
    var w := Schema.UpdateProduct(t, id, body.fields);
    if w.Written? && body.images.Some? && h.reply.InternalError? {
      var t1 := w.tables;
      var t2 := DeleteImagesOf(t1, id);
      var urls := body.images.value;
      var b := InsertImages(t2, id, imageIds, urls);
      assert h.tables == b.tables;
      InsertImagesPrefix(t2, id, imageIds, urls);
      var n :| InsertedPrefix(t2, id, imageIds, urls, n, b);
      var sent := Present(urls[..n]);
      assert b.tables == t2.(images := t2.images + ImageRows(imageIds[..n], id, sent));
      forall q ensures ImagesOf(h.tables, q) == (if q == id then sent else ImagesOf(t, q)) {
        AppendedImages(t2, id, imageIds[..n], sent, q);
        DeleteImagesOfRows(t1, id, q);
      }
      assert SentPrefix(urls, n, ImagesOf(h.tables, id));
    }
  }

  /** `got` is the first `n` of the sent URLs, none of them null, and some
      sent URL was left out. */
  predicate SentPrefix(urls: seq<Option<Url>>, n: int, got: seq<Url>) {
    && 0 <= n < |urls| && |got| == n
    && forall i :: 0 <= i < n ==> urls[i] == Some(got[i])
  }

  // ---------------------------------------------------------------------
  // The database object and the handlers that run against it

  class CatalogServer {
    var categories: seq<CategoryRow>
    var subcategories: seq<SubcategoryRow>
    var products: seq<ProductRow>
    var images: seq<ImageRow>

    /** The four tables. */
    function State(): Tables
      reads this
    {
      Tables(categories, subcategories, products, images)
    }

    ghost predicate Valid()
      reads this
    {
      Schema.Valid(State())
    }

    /** A freshly created, empty database. */
    constructor ()
      ensures State() == NoTables && Valid()
    {
      categories, subcategories, products, images := [], [], [], [];
    }

    /** Makes the tables `t` the current ones. */
    method Commit(t: Tables)
      modifies this
      ensures State() == t
    {
      categories, subcategories, products, images := t.categories, t.subcategories, t.products, t.images;
    }

    /** POST /api/categories with a fresh UUID `id`. */
    method CreateCategory(id: Id, name: Option<string>, imageUrl: Option<Url>)
      returns (reply: Reply<CategoryJson>)
      requires Valid()
      modifies this
      ensures Valid()
      ensures Handled(State(), reply) == CreateCategoryHandler(old(State()), id, name, imageUrl)
    {
      var w := InsertCategory(State(), id, name, imageUrl);
      if w.Failed? {
        reply := InternalError(Db(w.error));
      } else {
        Commit(w.tables);
        reply := Ok(CategoryJson(id, name.value, imageUrl, []));
      }
    }

    /** DELETE /api/categories/:id; the answer is `{success: true}` whether
        or not a category had the id. */
    method DeleteCategory(id: Id) returns (reply: Reply<Ack>)
      requires Valid()
      modifies this
      ensures Valid()
      ensures Handled(State(), reply) == DeleteCategoryHandler(old(State()), id)
    {
      var h := DeleteCategoryHandler(State(), id);
      Commit(h.tables);
      reply := h.reply;
    }

    /** POST /api/subcategories with a fresh UUID `id`. */
    method CreateSubcategory(id: Id, name: Option<string>, categoryId: Option<Id>)
      returns (reply: Reply<Subcategory>)
      requires Valid()
      modifies this
      ensures Valid()
      ensures Handled(State(), reply) == CreateSubcategoryHandler(old(State()), id, name, categoryId)
    {
      var w := InsertSubcategory(State(), id, name, categoryId);
      if w.Failed? {
        reply := InternalError(Db(w.error));
      } else {
        Commit(w.tables);
        reply := Ok(Subcategory(id, name.value, categoryId.value));
      }
    }

    /** DELETE /api/subcategories/:id; always `{success: true}`. */
    method DeleteSubcategory(id: Id) returns (reply: Reply<Ack>)
      requires Valid()
      modifies this
      ensures Valid()
      ensures Handled(State(), reply) == DeleteSubcategoryHandler(old(State()), id)
    {
      var h := DeleteSubcategoryHandler(State(), id);
      Commit(h.tables);
      reply := h.reply;
    }

    /** `images.forEach(url => INSERT INTO product_images ...)`, one fresh
        UUID per URL; an insert that throws ends the loop. */
    method InsertImageRows(productId: Id, ids: seq<Id>, urls: seq<Option<Url>>)
      returns (error: Option<DbError>)
      requires |ids| == |urls|
      modifies this
      ensures Batch(State(), error) == InsertImages(old(State()), productId, ids, urls)
    {
      var k := 0;
      while k < |urls|
        invariant 0 <= k <= |urls|
        invariant InsertImages(State(), productId, ids[k..], urls[k..])
               == InsertImages(old(State()), productId, ids, urls)
      {
        var w := InsertImage(State(), ids[k], productId, urls[k]);
        if w.Failed? {
          return Some(w.error);
        }
        Commit(w.tables);
        assert ids[k..][1..] == ids[k + 1..] && urls[k..][1..] == urls[k + 1..];
        k := k + 1;
      }
      error := None;
    }

    /** POST /api/products with a fresh UUID `id` and one fresh UUID per image. */
    method CreateProduct(id: Id, body: ProductBody, imageIds: seq<Id>)
      returns (reply: Reply<ProductJson>)
      requires IdsFor(body, imageIds)
      requires Valid()
      modifies this
      ensures Valid()
      ensures Handled(State(), reply) == CreateProductHandler(old(State()), id, body, imageIds)
    {
      var w := InsertProduct(State(), id, body.fields);
      if w.Failed? {
        return InternalError(Db(w.error));
      }
      Commit(w.tables);
      if body.images.None? {
        return InternalError(ImagesNotArray);
      }
      ghost var t1 := State();
      var error := InsertImageRows(id, imageIds, body.images.value);
      if error.Some? {
        reply := InternalError(Db(error.value));
      } else {
        InsertImagesComplete(t1, id, imageIds, body.images.value);
        reply := Ok(ProductJson(id, body.fields, Present(body.images.value)));
      }
    }

    /** PUT /api/products/:id with one fresh UUID per image. */
    method UpdateProduct(id: Id, body: ProductBody, imageIds: seq<Id>)
      returns (reply: Reply<ProductJson>)
      requires IdsFor(body, imageIds)
      requires Valid()
      modifies this
      ensures Valid()
      ensures Handled(State(), reply) == UpdateProductHandler(old(State()), id, body, imageIds)
    {
      var w := Schema.UpdateProduct(State(), id, body.fields);
      if w.Failed? {
        return InternalError(Db(w.error));
      }
      Commit(DeleteImagesOf(w.tables, id));
      if body.images.None? {
        return InternalError(ImagesNotArray);
      }
      ghost var t2 := State();
      var error := InsertImageRows(id, imageIds, body.images.value);
      if error.Some? {
        reply := InternalError(Db(error.value));
      } else {
        InsertImagesComplete(t2, id, imageIds, body.images.value);
        reply := Ok(ProductJson(id, body.fields, Present(body.images.value)));
      }
    }

    /** DELETE /api/products/:id; always `{success: true}`. */
    method DeleteProduct(id: Id) returns (reply: Reply<Ack>)
      requires Valid()
      modifies this
      ensures Valid()
      ensures Handled(State(), reply) == DeleteProductHandler(old(State()), id)
    {
      var h := DeleteProductHandler(State(), id);
      Commit(h.tables);
      reply := h.reply;
    }
  }
}
