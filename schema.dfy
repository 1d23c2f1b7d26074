/** The relational schema of the catalog database: four tables, their
    primary keys, their NOT NULL columns and the four foreign keys declared
    ON DELETE CASCADE. Tables are lists of rows in rowid order, the order a
    full scan returns them in. Each SQL statement the handlers issue is a
    function from tables to tables that either applies in full or is
    rejected with the constraint it violates. */
module Schema {
  import opened Common
  import opened Wire

  /** `categories(id TEXT PRIMARY KEY, name TEXT NOT NULL, imageUrl TEXT)` */
  datatype CategoryRow = CategoryRow(id: Id, name: string, imageUrl: Option<Url>)

  /** `subcategories(id, name NOT NULL, categoryId NOT NULL -> categories)`;
      the handlers send these rows to the client unchanged. */
  type SubcategoryRow = Subcategory

  /** `products(id, name NOT NULL, description, price NOT NULL, stock NOT NULL,
      categoryId NOT NULL -> categories, subCategoryId NOT NULL -> subcategories)`;
      the REAL price is held as an integer number of cents. */
  datatype ProductRow = ProductRow(
    id: Id, name: string, description: Option<string>, price: int, stock: int,
    categoryId: Id, subCategoryId: Id)

  /** `product_images(id, productId NOT NULL -> products, imageUrl NOT NULL)` */
  datatype ImageRow = ImageRow(id: Id, productId: Id, imageUrl: Url)

  datatype Tables = Tables(
    categories: seq<CategoryRow>,
    subcategories: seq<SubcategoryRow>,
    products: seq<ProductRow>,
    images: seq<ImageRow>)

  /** The constraint a rejected statement violates; the column is named as
      SQLite names it in its message. */
  datatype DbError = NotNull(column: string) | UniqueKey(column: string) | ForeignKey

  /** The effect of one statement: the new tables, or the rejection that
      leaves the tables as they were. */
  datatype Write = Written(tables: Tables) | Failed(error: DbError)

  const NoTables := Tables([], [], [], [])

  function CategoryKey(r: CategoryRow): Id { r.id }
  function SubcategoryKey(r: SubcategoryRow): Id { r.id }
  function ProductKey(r: ProductRow): Id { r.id }
  function ImageKey(r: ImageRow): Id { r.id }

  function CategoryIds(t: Tables): set<Id> { set r | r in t.categories :: r.id }
  function SubcategoryIds(t: Tables): set<Id> { set r | r in t.subcategories :: r.id }
  function ProductIds(t: Tables): set<Id> { set r | r in t.products :: r.id }
  function ImageIds(t: Tables): set<Id> { set r | r in t.images :: r.id }

  /** `id TEXT PRIMARY KEY` on every table: no two rows share an id. */
  ghost predicate KeysUnique(t: Tables) {
    && UniqueIds(t.categories, CategoryKey)
    && UniqueIds(t.subcategories, SubcategoryKey)
    && UniqueIds(t.products, ProductKey)
    && UniqueIds(t.images, ImageKey)
  }

  /** Every foreign key names an existing parent row: no orphans. */
  ghost predicate NoOrphans(t: Tables) {
    && (forall s :: s in t.subcategories ==> s.categoryId in CategoryIds(t))
    && (forall p :: p in t.products ==>
          p.categoryId in CategoryIds(t) && p.subCategoryId in SubcategoryIds(t))
    && (forall m :: m in t.images ==> m.productId in ProductIds(t))
  }

  /** The database invariant that the declared constraints maintain. */
  ghost predicate Valid(t: Tables) {
    KeysUnique(t) && NoOrphans(t)
  }

  lemma NoTablesValid()
    ensures Valid(NoTables)
  {
  }

  // ---------------------------------------------------------------------
  // Deletion with ON DELETE CASCADE

  /** The keys of the categories actually deleted by `DELETE ... WHERE id IN cats`. */
  function GoneCategories(t: Tables, cats: set<Id>): set<Id> {
    set x | x in t.categories && x.id in cats :: x.id
  }

  /** The keys of the subcategories deleted directly or through their category. */
  function GoneSubcategories(t: Tables, cats: set<Id>, subs: set<Id>): set<Id> {
    var c := GoneCategories(t, cats);
    set x | x in t.subcategories && (x.id in subs || x.categoryId in c) :: x.id
  }

  /** The keys of the products deleted directly or through their category or
      their subcategory. */
  function GoneProducts(t: Tables, cats: set<Id>, subs: set<Id>, prods: set<Id>): set<Id> {
    var c := GoneCategories(t, cats);
    var s := GoneSubcategories(t, cats, subs);
    set x | x in t.products && (x.id in prods || x.categoryId in c || x.subCategoryId in s) :: x.id
  }

  /** The rows a cascading delete keeps: a category not named in `cats`, a
      subcategory neither named in `subs` nor under a deleted category, a
      product neither named in `prods` nor under a deleted category or
      subcategory, and an image of a product that stays. */
  function KeepCategory(cats: set<Id>): CategoryRow -> bool {
    (x: CategoryRow) => x.id !in cats
  }
  function KeepSubcategory(subs: set<Id>, goneCategories: set<Id>): SubcategoryRow -> bool {
    (x: SubcategoryRow) => x.id !in subs && x.categoryId !in goneCategories
  }
  function KeepProduct(prods: set<Id>, goneCategories: set<Id>, goneSubcategories: set<Id>): ProductRow -> bool {
    (x: ProductRow) =>
      x.id !in prods && x.categoryId !in goneCategories && x.subCategoryId !in goneSubcategories
  }
  function KeepImage(goneProducts: set<Id>): ImageRow -> bool {
    (x: ImageRow) => x.productId !in goneProducts
  }

  /** Deleting the categories keyed in `cats`, the subcategories keyed in
      `subs` and the products keyed in `prods`, with every cascade applied:
      a child row goes when its foreign key names a parent row that went
      (server/db.js lines 22, 33, 34 and 41). */
  function Cascade(t: Tables, cats: set<Id>, subs: set<Id>, prods: set<Id>): (r: Tables)
    ensures GoneCategories(t, cats) == {} ==> r.categories == t.categories
    ensures GoneSubcategories(t, cats, subs) == {} ==> r.subcategories == t.subcategories
    ensures GoneProducts(t, cats, subs, prods) == {} ==> r.products == t.products && r.images == t.images
  {
    var c := GoneCategories(t, cats);
    var s := GoneSubcategories(t, cats, subs);
    var p := GoneProducts(t, cats, subs, prods);
    assert forall x :: x in t.categories && !KeepCategory(cats)(x) ==> x.id in c;
    assert forall x :: x in t.subcategories && !KeepSubcategory(subs, c)(x) ==> x.id in s;
    assert forall x :: x in t.products && !KeepProduct(prods, c, s)(x) ==> x.id in p;
    FilterKeepsAll(t.categories, KeepCategory(cats));
    FilterKeepsAll(t.subcategories, KeepSubcategory(subs, c));
    FilterKeepsAll(t.products, KeepProduct(prods, c, s));
    FilterKeepsAll(t.images, KeepImage(p));
    Tables(
      Filter(t.categories, KeepCategory(cats)),
      Filter(t.subcategories, KeepSubcategory(subs, c)),
      Filter(t.products, KeepProduct(prods, c, s)),
      Filter(t.images, KeepImage(p)))
  }

  /** A cascading delete keeps the keys unique and leaves no orphan behind. */
  lemma CascadeValid(t: Tables, cats: set<Id>, subs: set<Id>, prods: set<Id>)
    requires Valid(t)
    ensures Valid(Cascade(t, cats, subs, prods))
  {
    var r := Cascade(t, cats, subs, prods);
    var c := GoneCategories(t, cats);
    var s := GoneSubcategories(t, cats, subs);
    var p := GoneProducts(t, cats, subs, prods);
    FilterKeepsUniqueIds(t.categories, KeepCategory(cats), CategoryKey);
    FilterKeepsUniqueIds(t.subcategories, KeepSubcategory(subs, c), SubcategoryKey);
    FilterKeepsUniqueIds(t.products, KeepProduct(prods, c, s), ProductKey);
    FilterKeepsUniqueIds(t.images, KeepImage(p), ImageKey);
    forall x | x in r.subcategories ensures x.categoryId in CategoryIds(r) {
      var y :| y in t.categories && y.id == x.categoryId;
      assert y in r.categories;
    }
    forall x | x in r.products
      ensures x.categoryId in CategoryIds(r) && x.subCategoryId in SubcategoryIds(r)
    {
      var y :| y in t.categories && y.id == x.categoryId;
      assert y in r.categories;
      var z :| z in t.subcategories && z.id == x.subCategoryId;
      assert z in r.subcategories;
    }
    forall x | x in r.images ensures x.productId in ProductIds(r) {
      var y :| y in t.products && y.id == x.productId;
      assert y in r.products;
    }
  }

  /** `DELETE FROM categories WHERE id = ?` */
  function DeleteCategory(t: Tables, id: Id): Tables {
    Cascade(t, {id}, {}, {})
  }

  /** `DELETE FROM subcategories WHERE id = ?` */
  function DeleteSubcategory(t: Tables, id: Id): Tables {
    Cascade(t, {}, {id}, {})
  }

  /** `DELETE FROM products WHERE id = ?` */
  function DeleteProduct(t: Tables, id: Id): Tables {
    Cascade(t, {}, {}, {id})
  }

  /** Exactly which rows a category delete keeps: the other categories, the
      subcategories of other categories, the products that belong neither
      to the category nor to one of its subcategories, and the images of
      the products that stay. */
  lemma DeleteCategoryRows(t: Tables, id: Id)
    requires NoOrphans(t)
    ensures var r := DeleteCategory(t, id);
      && (forall x :: x in r.categories <==> x in t.categories && x.id != id)
      && (forall x :: x in r.subcategories <==> x in t.subcategories && x.categoryId != id)
      && (forall x :: x in r.products <==>
            && x in t.products && x.categoryId != id
            && forall y :: y in t.subcategories && y.id == x.subCategoryId ==> y.categoryId != id)
      && (forall x :: x in r.images <==>
            x in t.images && forall y :: y in t.products && y.id == x.productId ==> y in r.products)
  {
    var r := DeleteCategory(t, id);
    var c := GoneCategories(t, {id});
    forall x | x in t.subcategories && x.categoryId == id ensures x.categoryId in c {
      var y :| y in t.categories && y.id == x.categoryId;
    }
    forall x | x in t.products && x.categoryId == id ensures x.categoryId in c {
      var y :| y in t.categories && y.id == x.categoryId;
    }
  }

  /** Cascade completeness: after a category delete no row is left that
      refers to it, directly or through a subcategory or a product, and the
      database still has no orphans. */
  lemma DeleteCategoryLeavesNothing(t: Tables, id: Id)
    requires Valid(t)
    ensures var r := DeleteCategory(t, id);
      && Valid(r)
      && id !in CategoryIds(r)
      && (forall s :: s in r.subcategories ==> s.categoryId != id)
      && (forall p :: p in r.products ==> p.categoryId != id)
      && (forall p, s :: p in r.products && s in t.subcategories && s.categoryId == id
            ==> p.subCategoryId != s.id)
      && (forall m, p :: m in r.images && p in t.products && p.categoryId == id
            ==> m.productId != p.id)
      && (forall m, p, s :: m in r.images && p in t.products && s in t.subcategories
            && s.categoryId == id && p.subCategoryId == s.id
            ==> m.productId != p.id)
  {
    CascadeValid(t, {id}, {}, {});
    DeleteCategoryRows(t, id);
  }

  /** Exactly which rows a subcategory delete keeps. */
  lemma DeleteSubcategoryRows(t: Tables, id: Id)
    requires NoOrphans(t)
    ensures var r := DeleteSubcategory(t, id);
      && r.categories == t.categories
      && (forall x :: x in r.subcategories <==> x in t.subcategories && x.id != id)
      && (forall x :: x in r.products <==> x in t.products && x.subCategoryId != id)
      && (forall x :: x in r.images <==>
            x in t.images && forall y :: y in t.products && y.id == x.productId ==> y in r.products)
  {
    var r := DeleteSubcategory(t, id);
    assert GoneCategories(t, {}) == {};
    forall x | x in t.products && x.subCategoryId == id
      ensures x.subCategoryId in GoneSubcategories(t, {}, {id})
    {
      var y :| y in t.subcategories && y.id == x.subCategoryId;
    }
  }

  /** Exactly which rows a product delete keeps: all categories and
      subcategories, the other products, and the images of other products. */
  lemma DeleteProductRows(t: Tables, id: Id)
    requires NoOrphans(t)
    ensures var r := DeleteProduct(t, id);
      && r.categories == t.categories
      && r.subcategories == t.subcategories
      && (forall x :: x in r.products <==> x in t.products && x.id != id)
      && (forall x :: x in r.images <==> x in t.images && x.productId != id)
  {
    var r := DeleteProduct(t, id);
    assert GoneCategories(t, {}) == {};
    assert GoneSubcategories(t, {}, {}) == {};
    forall x | x in t.images && x.productId == id
      ensures x.productId in GoneProducts(t, {}, {}, {id})
    {
      var y :| y in t.products && y.id == x.productId;
    }
  }

  /** Deleting a key that no row has changes nothing. */
  lemma DeleteAbsentCategory(t: Tables, id: Id)
    requires id !in CategoryIds(t)
    ensures DeleteCategory(t, id) == t
  {
    assert GoneCategories(t, {id}) == {};
    assert GoneSubcategories(t, {id}, {}) == {};
    assert GoneProducts(t, {id}, {}, {}) == {};
  }

  // ---------------------------------------------------------------------
  // Single-row writes

  /** `INSERT INTO categories (id, name, imageUrl)`: rejected when the name
      is NULL or the id is taken; otherwise the row is added last. */
  function InsertCategory(t: Tables, id: Id, name: Option<string>, imageUrl: Option<Url>): (w: Write)
    ensures w.Written? <==> name.Some? && id !in CategoryIds(t)
    ensures w.Written? ==>
      && w.tables.categories == t.categories + [CategoryRow(id, name.value, imageUrl)]
      && w.tables.(categories := t.categories) == t
    ensures Valid(t) && w.Written? ==> Valid(w.tables)
  {
    if name.None? then Failed(NotNull("categories.name"))
    else if id in CategoryIds(t) then Failed(UniqueKey("categories.id"))
    else
      var r := t.(categories := t.categories + [CategoryRow(id, name.value, imageUrl)]);
      assert Valid(t) ==> KeysUnique(r) by {
        if Valid(t) { AppendKeepsUniqueIds(t.categories, CategoryRow(id, name.value, imageUrl), CategoryKey); }
      }
      Written(r)
  }

  /** `INSERT INTO subcategories (id, name, categoryId)`: rejected on a NULL
      name or category, a taken id, or a category that does not exist. */
  function InsertSubcategory(t: Tables, id: Id, name: Option<string>, categoryId: Option<Id>): (w: Write)
    ensures w.Written? <==>
      name.Some? && categoryId.Some? && id !in SubcategoryIds(t) && categoryId.value in CategoryIds(t)
    ensures w.Written? ==>
      && w.tables.subcategories == t.subcategories + [Subcategory(id, name.value, categoryId.value)]
      && w.tables.(subcategories := t.subcategories) == t
    ensures Valid(t) && w.Written? ==> Valid(w.tables)
  {
    if name.None? then Failed(NotNull("subcategories.name"))
    else if categoryId.None? then Failed(NotNull("subcategories.categoryId"))
    else if id in SubcategoryIds(t) then Failed(UniqueKey("subcategories.id"))
    else if categoryId.value !in CategoryIds(t) then Failed(ForeignKey)
    else
      var row := Subcategory(id, name.value, categoryId.value);
      var r := t.(subcategories := t.subcategories + [row]);
      assert Valid(t) ==> KeysUnique(r) by {
        if Valid(t) { AppendKeepsUniqueIds(t.subcategories, row, SubcategoryKey); }
      }
      Written(r)
  }

  /** All NOT NULL product columns have a value (a `None` field is bound as
      SQL NULL). */
  predicate Complete(f: ProductFields) {
    f.name.Some? && f.price.Some? && f.stock.Some? && f.categoryId.Some? && f.subCategoryId.Some?
  }

  /** The product row `id` with the column values `f`. */
  function ProductRowOf(id: Id, f: ProductFields): ProductRow
    requires Complete(f)
  {
    ProductRow(id, f.name.value, f.description, f.price.value, f.stock.value,
               f.categoryId.value, f.subCategoryId.value)
  }

  /** The NOT NULL constraint, if any, that the product column values violate,
      checking the columns in declaration order. */
  function MissingProductColumn(f: ProductFields): (e: Option<DbError>)
    ensures e.None? <==> Complete(f)
  {
    if f.name.None? then Some(NotNull("products.name"))
    else if f.price.None? then Some(NotNull("products.price"))
    else if f.stock.None? then Some(NotNull("products.stock"))
    else if f.categoryId.None? then Some(NotNull("products.categoryId"))
    else if f.subCategoryId.None? then Some(NotNull("products.subCategoryId"))
    else None
  }

  /** Both parents named by the product column values exist. */
  predicate ParentsExist(t: Tables, f: ProductFields)
    requires Complete(f)
  {
    f.categoryId.value in CategoryIds(t) && f.subCategoryId.value in SubcategoryIds(t)
  }

  /** `INSERT INTO products (...)`: rejected on a NULL required column, a
      taken id, or a category or subcategory that does not exist. */
  function InsertProduct(t: Tables, id: Id, f: ProductFields): (w: Write)
    ensures w.Written? <==> Complete(f) && id !in ProductIds(t) && ParentsExist(t, f)
    ensures w.Written? ==>
      && w.tables.products == t.products + [ProductRowOf(id, f)]
      && w.tables.(products := t.products) == t
    ensures Valid(t) && w.Written? ==> Valid(w.tables)
  {
    var missing := MissingProductColumn(f);
    if missing.Some? then Failed(missing.value)
    else if id in ProductIds(t) then Failed(UniqueKey("products.id"))
    else if !ParentsExist(t, f) then Failed(ForeignKey)
    else
      var r := t.(products := t.products + [ProductRowOf(id, f)]);
      assert Valid(t) ==> KeysUnique(r) by {
        if Valid(t) { AppendKeepsUniqueIds(t.products, ProductRowOf(id, f), ProductKey); }
      }
      Written(r)
  }

  /** `UPDATE products SET <six columns> WHERE id = ?`: when no row has the
      id nothing is written and nothing is checked; otherwise the columns
      are overwritten in place unless a NOT NULL or foreign key constraint
      rejects the new values. */
  function UpdateProduct(t: Tables, id: Id, f: ProductFields): (w: Write)
    ensures w.Written? <==> id !in ProductIds(t) || (Complete(f) && ParentsExist(t, f))
    ensures id !in ProductIds(t) ==> w == Written(t)
    ensures w.Written? && id in ProductIds(t) ==>
      && w.tables.(products := t.products) == t
      && |w.tables.products| == |t.products|
      && forall i :: 0 <= i < |t.products| ==>
           w.tables.products[i] == if t.products[i].id == id then ProductRowOf(id, f) else t.products[i]
    ensures w.Written? ==> ProductIds(w.tables) == ProductIds(t)
    ensures Valid(t) && w.Written? ==> Valid(w.tables)
  {
    if id !in ProductIds(t) then Written(t)
    else
      var missing := MissingProductColumn(f);
      if missing.Some? then Failed(missing.value)
      else if !ParentsExist(t, f) then Failed(ForeignKey)
      else
        var r := t.(products := Map(t.products, (p: ProductRow) =>
                   if p.id == id then ProductRowOf(id, f) else p));
        assert ProductIds(r) == ProductIds(t) by {
          forall k | k in ProductIds(t) ensures k in ProductIds(r) {
            var p :| p in t.products && p.id == k;
            var i :| 0 <= i < |t.products| && t.products[i] == p;
            assert r.products[i].id == k;
          }
        }
        assert Valid(t) ==> Valid(r) by {
          if Valid(t) {
            assert forall i :: 0 <= i < |r.products| ==> r.products[i].id == t.products[i].id;
          }
        }
        Written(r)
  }

  /** `INSERT INTO product_images (id, productId, imageUrl)`: rejected on a
      NULL url, a taken id or a product that does not exist. */
  function InsertImage(t: Tables, id: Id, productId: Id, imageUrl: Option<Url>): (w: Write)
    ensures w.Written? <==> imageUrl.Some? && id !in ImageIds(t) && productId in ProductIds(t)
    ensures w.Written? ==>
      && w.tables.images == t.images + [ImageRow(id, productId, imageUrl.value)]
      && w.tables.(images := t.images) == t
    ensures Valid(t) && w.Written? ==> Valid(w.tables)
  {
    if imageUrl.None? then Failed(NotNull("product_images.imageUrl"))
    else if id in ImageIds(t) then Failed(UniqueKey("product_images.id"))
    else if productId !in ProductIds(t) then Failed(ForeignKey)
    else
      var r := t.(images := t.images + [ImageRow(id, productId, imageUrl.value)]);
      assert Valid(t) ==> KeysUnique(r) by {
        if Valid(t) { AppendKeepsUniqueIds(t.images, ImageRow(id, productId, imageUrl.value), ImageKey); }
      }
      Written(r)
  }

  /** `WHERE categoryId = ?` on subcategory rows. */
  function InCategory(categoryId: Id): SubcategoryRow -> bool {
    (s: SubcategoryRow) => s.categoryId == categoryId
  }

  /** `WHERE productId = ?` on image rows. */
  function OfProduct(productId: Id): ImageRow -> bool {
    (m: ImageRow) => m.productId == productId
  }

  /** The image rows of other products than `productId`. */
  function NotOfProduct(productId: Id): ImageRow -> bool {
    (m: ImageRow) => m.productId != productId
  }

  /** `DELETE FROM product_images WHERE productId = ?`: the image rows of
      that product go, every other row stays in order. */
  function DeleteImagesOf(t: Tables, productId: Id): (r: Tables)
    ensures r.(images := t.images) == t
    ensures forall x :: x in r.images <==> x in t.images && x.productId != productId
    ensures Valid(t) ==> Valid(r)
  {
    var r := t.(images := Filter(t.images, NotOfProduct(productId)));
    assert Valid(t) ==> KeysUnique(r) by {
      if Valid(t) { FilterKeepsUniqueIds(t.images, NotOfProduct(productId), ImageKey); }
    }
    r
  }

  /** After the delete the product has no image rows, and every other
      product has the same image rows in the same order. */
  lemma DeleteImagesOfRows(t: Tables, productId: Id, q: Id)
    ensures Filter(DeleteImagesOf(t, productId).images, OfProduct(q))
         == if q == productId then [] else Filter(t.images, OfProduct(q))
  {
    var r := DeleteImagesOf(t, productId);
    if q == productId {
      FilterKeepsNone(r.images, OfProduct(q));
    } else {
      FilterFilter(t.images, NotOfProduct(productId), OfProduct(q));
    }
  }

  /** Appending a row whose key is not yet used keeps the keys unique. */
  lemma AppendKeepsUniqueIds<T>(s: seq<T>, x: T, key: T -> Id)
    requires UniqueIds(s, key)
    requires forall y :: y in s ==> key(y) != key(x)
    ensures UniqueIds(s + [x], key)
  {
    var r := s + [x];
    forall i, j | 0 <= i < j < |r| ensures key(r[i]) != key(r[j]) {
      if j == |s| { assert r[i] in s; }
    }
  }
}
