/** Three places where the console and the server part ways. Each is stated
    twice: once for the code as it stands, with the input that exposes it,
    and once for the evidently intended behaviour, proved to agree with the
    server. */
module Findings {
  import opened Common
  import opened Wire
  import opened Schema
  import opened Server
  import opened Store
  import opened Sync

  // ---------------------------------------------------------------------
  // The delete button of a subcategory

  /** The id that `deleteSubCategory` receives from the delete button of a
      subcategory as the button is written: it passes the category's id and
      then the subcategory's id, and the action reads only its first
      parameter. */
  function ButtonIdAsWritten(category: CategoryJson, sub: Subcategory): Id {
    category.id
  }

  /** The id the button is meant to pass: the subcategory's own. */
  function ButtonId(category: CategoryJson, sub: Subcategory): Id {
    sub.id
  }

  /** As written, pressing the button of a listed subcategory deletes no
      row on the server (the category's id names no subcategory), and the
      store's own update removes nothing either: the subcategory stays. */
  lemma DeleteButtonAsWritten(t: Tables, i: nat, sub: Subcategory)
    requires i < |ListCategories(t)| && sub in ListCategories(t)[i].subCategories
    requires ListCategories(t)[i].id !in SubcategoryIds(t)
    ensures var id := ButtonIdAsWritten(ListCategories(t)[i], sub);
      && DeleteSubcategoryHandler(t, id).tables == t
      && WithoutSubcategory(ListCategories(t), id) == ListCategories(t)
      && sub in ListCategories(DeleteSubcategoryHandler(t, id).tables)[i].subCategories
  {
    var cs := ListCategories(t);
    var id := cs[i].id;
    assert GoneCategories(t, {}) == {};
    assert GoneSubcategories(t, {}, {id}) == {};
    assert GoneProducts(t, {}, {id}, {}) == {};
    var r := WithoutSubcategory(cs, id);
    forall k | 0 <= k < |cs| ensures r[k] == cs[k] {
      forall s | s in cs[k].subCategories ensures s.id != id {
        assert s in t.subcategories;
      }
      FilterKeepsAll(cs[k].subCategories, SubcategoryIsNot(id));
    }
  }

  /** With the subcategory's own id, the server deletes it, the store's
      update agrees with the server's new listing, and the subcategory is
      gone from every category. */
  lemma DeleteButtonCorrected(t: Tables, i: nat, sub: Subcategory)
    requires i < |ListCategories(t)| && sub in ListCategories(t)[i].subCategories
    ensures var id := ButtonId(ListCategories(t)[i], sub);
      var after := ListCategories(DeleteSubcategoryHandler(t, id).tables);
      && after == WithoutSubcategory(ListCategories(t), id)
      && forall k :: 0 <= k < |after| ==> sub !in after[k].subCategories
  {
    DeleteSubcategorySync(t, sub.id);
  }

  // ---------------------------------------------------------------------
  // Products left behind by the category deletes

  /** A product row is listed by GET /api/products. */
  lemma ListedProduct(t: Tables, p: ProductRow)
    requires p in t.products
    ensures ProductView(t, p) in ListProducts(t)
  {
    var i :| 0 <= i < |t.products| && t.products[i] == p;
    assert ListProducts(t)[i] == ProductView(t, p);
  }

  /** A product whose row a cascade deletes is not listed afterwards. */
  lemma UnlistedAfterCascade(t: Tables, cats: set<Id>, subs: set<Id>, p: ProductRow)
    requires UniqueIds(t.products, ProductKey) && p in t.products
    requires !KeepProduct({}, GoneCategories(t, cats), GoneSubcategories(t, cats, subs))(p)
    ensures ProductView(t, p) !in ListProducts(Cascade(t, cats, subs, {}))
  {
    var r := Cascade(t, cats, subs, {});
    var keep := KeepProduct({}, GoneCategories(t, cats), GoneSubcategories(t, cats, subs));
    forall j | 0 <= j < |r.products| ensures ListProducts(r)[j].id != p.id {
      var y := r.products[j];
      assert y in t.products && keep(y);
      if y.id == p.id {
        SameIdSameEntry(t.products, ProductKey, y, p);
      }
    }
  }

  /** As written, `deleteCategory` leaves the product list alone, while the
      server deletes with the category every product filed under it: the
      store goes on showing a product the server no longer has. */
  lemma CategoryDeleteAsWritten(t: Tables, id: Id, p: ProductRow)
    requires Valid(t) && p in t.products && p.categoryId == id
    ensures ProductView(t, p) in ListProducts(t)
    ensures ProductView(t, p) !in ListProducts(DeleteCategoryHandler(t, id).tables)
  {
    ListedProduct(t, p);
    var c :| c in t.categories && c.id == id;
    assert id in GoneCategories(t, {id});
    UnlistedAfterCascade(t, {id}, {}, p);
  }

  /** As written, `deleteSubCategory` leaves the product list alone, while
      the server deletes every product filed under the subcategory. */
  lemma SubcategoryDeleteAsWritten(t: Tables, id: Id, p: ProductRow)
    requires Valid(t) && p in t.products && p.subCategoryId == id
    ensures ProductView(t, p) in ListProducts(t)
    ensures ProductView(t, p) !in ListProducts(DeleteSubcategoryHandler(t, id).tables)
  {
    ListedProduct(t, p);
    var s :| s in t.subcategories && s.id == id;
    assert id in GoneSubcategories(t, {}, {id});
    UnlistedAfterCascade(t, {}, {id}, p);
  }

  /** The ids of the subcategories the listing `cs` shows under category `id`. */
  function SubcategoryIdsUnder(cs: seq<CategoryJson>, id: Id): set<Id> {
    set c, s | c in cs && c.id == id && s in c.subCategories :: s.id
  }

  /** The products a category delete should keep: those filed neither
      under the category nor under one of its subcategories. */
  function KeepAfterCategoryDelete(cs: seq<CategoryJson>, id: Id): ProductJson -> bool {
    var under := SubcategoryIdsUnder(cs, id);
    (p: ProductJson) =>
      p.fields.categoryId != Some(id)
      && !(p.fields.subCategoryId.Some? && p.fields.subCategoryId.value in under)
  }

  /** The products a subcategory delete should keep. */
  function KeepAfterSubcategoryDelete(id: Id): ProductJson -> bool {
    (p: ProductJson) => p.fields.subCategoryId != Some(id)
  }

  /** The subcategories that the listing shows under a category are the
      ones that a delete of the category takes with it. */
  lemma SubcategoriesUnderAreGone(t: Tables, id: Id)
    ensures SubcategoryIdsUnder(ListCategories(t), id) == GoneSubcategories(t, {id}, {})
  {
    var cs := ListCategories(t);
    var gone := GoneSubcategories(t, {id}, {});
    forall z | z in SubcategoryIdsUnder(cs, id) ensures z in gone {
      var c, s :| c in cs && c.id == id && s in c.subCategories && s.id == z;
      var i :| 0 <= i < |cs| && cs[i] == c;
      assert t.categories[i].id == id;
      assert id in GoneCategories(t, {id});
    }
    forall z | z in gone ensures z in SubcategoryIdsUnder(cs, id) {
      var s :| s in t.subcategories && s.categoryId in GoneCategories(t, {id}) && s.id == z;
      var k :| 0 <= k < |t.categories| && t.categories[k].id == id;
      assert s in cs[k].subCategories;
    }
  }

  /** For one product, the intended filter keeps it exactly when a category
      delete keeps its row. */
  lemma CategoryKeepAgrees(t: Tables, id: Id, x: ProductRow)
    requires NoOrphans(t) && x in t.products
    requires SubcategoryIdsUnder(ListCategories(t), id) == GoneSubcategories(t, {id}, {})
    ensures KeepProduct({}, GoneCategories(t, {id}), GoneSubcategories(t, {id}, {}))(x)
         == KeepAfterCategoryDelete(ListCategories(t), id)(ProductView(t, x))
  {
    var c := GoneCategories(t, {id});
    if x.categoryId == id {
      var y :| y in t.categories && y.id == x.categoryId;
      assert id in c;
    }
    assert x.categoryId in c <==> x.categoryId == id;
  }

  /** With the products filtered as intended, the store's product list after
      `deleteCategory` is what the server then lists. */
  lemma CategoryDeleteCorrected(t: Tables, id: Id)
    requires Valid(t)
    ensures ListProducts(DeleteCategoryHandler(t, id).tables)
         == Filter(ListProducts(t), KeepAfterCategoryDelete(ListCategories(t), id))
  {
    var keep := KeepAfterCategoryDelete(ListCategories(t), id);
    var c := GoneCategories(t, {id});
    var s := GoneSubcategories(t, {id}, {});
    SubcategoriesUnderAreGone(t, id);
    forall x | x in t.products ensures KeepProduct({}, c, s)(x) == keep(ProductView(t, x)) {
      CategoryKeepAgrees(t, id, x);
    }
    CascadeProducts(t, {id}, {}, {}, keep);
  }

  /** With the products filtered as intended, the store's product list after
      `deleteSubCategory` is what the server then lists. */
  lemma SubcategoryDeleteCorrected(t: Tables, id: Id)
    requires Valid(t)
    ensures ListProducts(DeleteSubcategoryHandler(t, id).tables)
         == Filter(ListProducts(t), KeepAfterSubcategoryDelete(id))
  {
    var keep := KeepAfterSubcategoryDelete(id);
    assert GoneCategories(t, {}) == {};
    var s := GoneSubcategories(t, {}, {id});
    forall x | x in t.products ensures KeepProduct({}, {}, s)(x) == keep(ProductView(t, x)) {
      assert x.subCategoryId in s <==> x.subCategoryId == id;
    }
    CascadeProducts(t, {}, {id}, {}, keep);
  }
}
