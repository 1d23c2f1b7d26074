/** How the console's store follows the server. After each write the store
    applies a list update to what it last fetched instead of fetching
    again; the lemmas here compare that update with what a fresh GET would
    return. They agree for every action except the two category deletes,
    which leave in the store the products the server deleted with them. */
module Sync {
  import opened Common
  import opened Wire
  import opened Schema
  import opened Server
  import opened Store

  /** `addCategory` after POST /api/categories: appending the answer gives
      the new listing. */
  lemma CreateCategorySync(t: Tables, id: Id, name: Option<string>, imageUrl: Option<Url>)
    requires Valid(t)
    ensures var h := CreateCategoryHandler(t, id, name, imageUrl);
      h.reply.Ok? ==> ListCategories(h.tables) == ListCategories(t) + [h.reply.body]
  {
    var h := CreateCategoryHandler(t, id, name, imageUrl);
    if h.reply.Ok? {
      var r := h.tables;
      assert r.subcategories == t.subcategories;
      MapCongruent(t.categories, CategoryViewer(r), CategoryViewer(t));
      MapAppend(t.categories, [CategoryRow(id, name.value, imageUrl)], CategoryViewer(r));
      FilterKeepsNone(t.subcategories, InCategory(id));
    }
  }

  /** `addSubCategory` after POST /api/subcategories: appending the answer
      under its category gives the new listing. */
  lemma CreateSubcategorySync(t: Tables, id: Id, name: Option<string>, categoryId: Option<Id>)
    ensures var h := CreateSubcategoryHandler(t, id, name, categoryId);
      h.reply.Ok? ==>
        ListCategories(h.tables) == WithSubcategory(ListCategories(t), categoryId.value, h.reply.body)
  {
    var h := CreateSubcategoryHandler(t, id, name, categoryId);
    if h.reply.Ok? {
      var r := h.tables;
      var sub := h.reply.body;
      var expected := WithSubcategory(ListCategories(t), categoryId.value, sub);
      forall i | 0 <= i < |t.categories| ensures ListCategories(r)[i] == expected[i] {
        var c := t.categories[i];
        FilterAppend(t.subcategories, [sub], InCategory(c.id));
      }
    }
  }

  /** `addProduct` after POST /api/products: appending the answer gives the
      new listing. */
  lemma CreateProductSync(t: Tables, id: Id, body: ProductBody, imageIds: seq<Id>)
    requires IdsFor(body, imageIds) && Valid(t)
    ensures var h := CreateProductHandler(t, id, body, imageIds);
      h.reply.Ok? ==> ListProducts(h.tables) == ListProducts(t) + [h.reply.body]
  {
    var h := CreateProductHandler(t, id, body, imageIds);
    CreateProductEffect(t, id, body, imageIds);
    if h.reply.Ok? {
      var r := h.tables;
      var row := ProductRowOf(id, body.fields);
      assert id !in ProductIds(t);
      forall x | x in t.products ensures ProductViewer(r)(x) == ProductViewer(t)(x) {
        assert ImagesOf(r, x.id) == ImagesOf(t, x.id);
      }
      MapCongruent(t.products, ProductViewer(r), ProductViewer(t));
      MapAppend(t.products, [row], ProductViewer(r));
      assert ProductView(r, row) == h.reply.body;
    }
  }

  /** `updateProduct` after PUT /api/products/:id: replacing the products
      with the id by the answer gives the new listing. */
  lemma UpdateProductSync(t: Tables, id: Id, body: ProductBody, imageIds: seq<Id>)
    requires IdsFor(body, imageIds)
    ensures var h := UpdateProductHandler(t, id, body, imageIds);
      h.reply.Ok? ==> ListProducts(h.tables) == ReplaceProduct(ListProducts(t), id, h.reply.body)
  {
    var h := UpdateProductHandler(t, id, body, imageIds);
    UpdateProductEffect(t, id, body, imageIds);
    if h.reply.Ok? {
      var expected := ReplaceProduct(ListProducts(t), id, h.reply.body);
      forall i | 0 <= i < |t.products| ensures ListProducts(h.tables)[i] == expected[i] {
      }
    }
  }

  /** The image rows of a product that a cascade keeps are all kept. */
  lemma CascadeKeepsImagesOf(t: Tables, cats: set<Id>, subs: set<Id>, prods: set<Id>, q: Id)
    requires q !in GoneProducts(t, cats, subs, prods)
    ensures ImagesOf(Cascade(t, cats, subs, prods), q) == ImagesOf(t, q)
  {
    FilterFilter(t.images, KeepImage(GoneProducts(t, cats, subs, prods)), OfProduct(q));
  }

  /** The product listing after a cascade is the old listing filtered by
      `keep`, for any `keep` that picks out the views of the kept rows. */
  lemma CascadeProducts(t: Tables, cats: set<Id>, subs: set<Id>, prods: set<Id>, keep: ProductJson -> bool)
    requires UniqueIds(t.products, ProductKey)
    requires var c := GoneCategories(t, cats);
      var s := GoneSubcategories(t, cats, subs);
      forall x :: x in t.products ==> KeepProduct(prods, c, s)(x) == keep(ProductView(t, x))
    ensures ListProducts(Cascade(t, cats, subs, prods)) == Filter(ListProducts(t), keep)
  {
    var r := Cascade(t, cats, subs, prods);
    var c := GoneCategories(t, cats);
    var s := GoneSubcategories(t, cats, subs);
    var kept := Filter(t.products, KeepProduct(prods, c, s));
    MapFilter(t.products, ProductViewer(t), KeepProduct(prods, c, s), keep);
    forall x | x in kept ensures ProductViewer(r)(x) == ProductViewer(t)(x) {
      assert x.id !in GoneProducts(t, cats, subs, prods) by {
        forall y | y in t.products && y.id == x.id ensures y == x {
          SameIdSameEntry(t.products, ProductKey, x, y);
        }
      }
      CascadeKeepsImagesOf(t, cats, subs, prods, x.id);
    }
    MapCongruent(kept, ProductViewer(r), ProductViewer(t));
  }

  /** `deleteProduct` after DELETE /api/products/:id: filtering the product
      out gives the new product listing, and the category listing is as it
      was. */
  lemma DeleteProductSync(t: Tables, id: Id)
    requires Valid(t)
    ensures var r := DeleteProductHandler(t, id).tables;
      && ListProducts(r) == WithoutProduct(ListProducts(t), id)
      && ListCategories(r) == ListCategories(t)
  {
    var r := DeleteProductHandler(t, id).tables;
    assert GoneCategories(t, {}) == {};
    assert GoneSubcategories(t, {}, {}) == {};
    CascadeProducts(t, {}, {}, {id}, ProductIsNot(id));
    MapCongruent(t.categories, CategoryViewer(r), CategoryViewer(t));
  }

  /** `deleteCategory` after DELETE /api/categories/:id: filtering the
      category out gives the new category listing. */
  lemma DeleteCategorySync(t: Tables, id: Id)
    ensures ListCategories(DeleteCategoryHandler(t, id).tables) == WithoutCategory(ListCategories(t), id)
  {
    var r := DeleteCategoryHandler(t, id).tables;
    var gone := GoneCategories(t, {id});
    var kept := Filter(t.categories, KeepCategory({id}));
    MapFilter(t.categories, CategoryViewer(t), KeepCategory({id}), CategoryIsNot(id));
    forall x | x in kept ensures CategoryViewer(r)(x) == CategoryViewer(t)(x) {
      FilterFilter(t.subcategories, KeepSubcategory({}, gone), InCategory(x.id));
    }
    MapCongruent(kept, CategoryViewer(r), CategoryViewer(t));
  }

  /** One category's entry after a subcategory delete is its old entry
      with the subcategory stripped. */
  lemma DeleteSubcategoryEntry(t: Tables, id: Id, c: CategoryRow)
    ensures CategoryView(DeleteSubcategoryHandler(t, id).tables, c)
         == StripSubcategory(CategoryView(t, c), id)
  {
    var r := DeleteSubcategoryHandler(t, id).tables;
    var keep := KeepSubcategory({id}, {});
    assert GoneCategories(t, {}) == {};
    assert r.subcategories == Filter(t.subcategories, keep);
    FilterCommute(t.subcategories, keep, InCategory(c.id));
    FilterCongruent(Filter(t.subcategories, InCategory(c.id)), keep, SubcategoryIsNot(id));
  }

  /** `deleteSubCategory` after DELETE /api/subcategories/:id: stripping the
      id from every category gives the new category listing. */
  lemma DeleteSubcategorySync(t: Tables, id: Id)
    ensures ListCategories(DeleteSubcategoryHandler(t, id).tables)
         == WithoutSubcategory(ListCategories(t), id)
  {
    var r := DeleteSubcategoryHandler(t, id).tables;
    assert GoneCategories(t, {}) == {};
    assert r.categories == t.categories;
    var expected := WithoutSubcategory(ListCategories(t), id);
    forall i | 0 <= i < |t.categories| ensures ListCategories(r)[i] == expected[i] {
      DeleteSubcategoryEntry(t, id, t.categories[i]);
    }
  }
}
