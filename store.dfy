/** The admin console's state store: the categories and products last
    received from the server, a `loading` flag and an `error` message. Each
    of its nine actions calls the server once and follows the same
    protocol: set `loading` and clear `error`; on success apply a list
    update, on failure record the error; finally clear `loading`. The
    server call is reduced to its outcome, a parameter of the action. */
module Store {
  import opened Common
  import opened Wire

  // ---------------------------------------------------------------------
  // The list updates applied on success

  function CategoryIsNot(id: Id): CategoryJson -> bool {
    (c: CategoryJson) => c.id != id
  }

  function SubcategoryIsNot(id: Id): Subcategory -> bool {
    (s: Subcategory) => s.id != id
  }

  function ProductIsNot(id: Id): ProductJson -> bool {
    (p: ProductJson) => p.id != id
  }

  /** `addSubCategory`: `sub` is appended to the subcategories of every
      category whose id is `parentId`; nothing else changes. */
  function WithSubcategory(cs: seq<CategoryJson>, parentId: Id, sub: Subcategory): (r: seq<CategoryJson>)
    ensures |r| == |cs|
    ensures forall i :: 0 <= i < |cs| ==>
      && r[i].id == cs[i].id && r[i].name == cs[i].name && r[i].imageUrl == cs[i].imageUrl
      && r[i].subCategories == cs[i].subCategories + (if cs[i].id == parentId then [sub] else [])
  {
    Map(cs, (c: CategoryJson) =>
      if c.id == parentId then c.(subCategories := c.subCategories + [sub]) else c)
  }

  /** `updateProduct`: every product whose id is `id` is replaced by
      `updated`; the others stay, in order. */
  function ReplaceProduct(ps: seq<ProductJson>, id: Id, updated: ProductJson): (r: seq<ProductJson>)
    ensures |r| == |ps|
    ensures forall i :: 0 <= i < |ps| ==> r[i] == if ps[i].id == id then updated else ps[i]
  {
    Map(ps, (p: ProductJson) => if p.id == id then updated else p)
  }

  /** `deleteProduct`: the products with id `id` go; the others stay, in order. */
  function WithoutProduct(ps: seq<ProductJson>, id: Id): (r: seq<ProductJson>)
    ensures forall p :: p in r <==> p in ps && p.id != id
  {
    Filter(ps, ProductIsNot(id))
  }

  /** `deleteCategory`: the categories with id `id` go; the others stay, in order. */
  function WithoutCategory(cs: seq<CategoryJson>, id: Id): (r: seq<CategoryJson>)
    ensures forall c :: c in r <==> c in cs && c.id != id
  {
    Filter(cs, CategoryIsNot(id))
  }

  /** `deleteProduct` keeps the surviving products in order: removing from
      a concatenation removes from each part, and a single product stays
      exactly when its id differs. */
  lemma WithoutProductOrder(a: seq<ProductJson>, b: seq<ProductJson>, p: ProductJson, id: Id)
    ensures WithoutProduct(a + b, id) == WithoutProduct(a, id) + WithoutProduct(b, id)
    ensures WithoutProduct([p], id) == if p.id == id then [] else [p]
  {
    FilterAppend(a, b, ProductIsNot(id));
    assert [p][1..] == [];
  }

  /** `deleteCategory` keeps the surviving categories in order, in the same
      sense. */
  lemma WithoutCategoryOrder(a: seq<CategoryJson>, b: seq<CategoryJson>, c: CategoryJson, id: Id)
    ensures WithoutCategory(a + b, id) == WithoutCategory(a, id) + WithoutCategory(b, id)
    ensures WithoutCategory([c], id) == if c.id == id then [] else [c]
  {
    FilterAppend(a, b, CategoryIsNot(id));
    assert [c][1..] == [];
  }

  /** A category without the subcategories whose id is `id`. */
  function StripSubcategory(c: CategoryJson, id: Id): CategoryJson {
    c.(subCategories := Filter(c.subCategories, SubcategoryIsNot(id)))
  }

  /** `deleteSubCategory`: the subcategory `id` is removed from the list of
      every category, not only from the one that holds it; the categories
      themselves all stay, in order, with their other fields, and each keeps
      its other subcategories in their order (`Common.FilterAppend`). */
  function WithoutSubcategory(cs: seq<CategoryJson>, id: Id): (r: seq<CategoryJson>)
    ensures |r| == |cs|
    ensures forall i :: 0 <= i < |cs| ==>
      && r[i].id == cs[i].id && r[i].name == cs[i].name && r[i].imageUrl == cs[i].imageUrl
      && (forall s :: s in r[i].subCategories <==> s in cs[i].subCategories && s.id != id)
      && r[i].subCategories == Filter(cs[i].subCategories, SubcategoryIsNot(id))
  {
    Map(cs, (c: CategoryJson) => StripSubcategory(c, id))
  }

  /** Stripping a subcategory from every category is the same as stripping
      it from the one category `k` that holds it. */
  lemma StripOnlyTouchesOwner(cs: seq<CategoryJson>, id: Id, k: nat)
    requires k < |cs|
    requires forall i, s :: 0 <= i < |cs| && i != k && s in cs[i].subCategories ==> s.id != id
    ensures WithoutSubcategory(cs, id) == cs[k := StripSubcategory(cs[k], id)]
  {
    var r := WithoutSubcategory(cs, id);
    forall i | 0 <= i < |cs| && i != k ensures r[i] == cs[i] {
      FilterKeepsAll(cs[i].subCategories, SubcategoryIsNot(id));
    }
  }

  // ---------------------------------------------------------------------
  // The outcome of a server call

  /** What a rejected call threw: an `Error`, whose message is kept, or
      some other value, for which the action's fixed text is used. */
  datatype Thrown = ErrorObject(message: string) | NotAnError

  /** A server call that resolved with a value, or threw. */
  datatype Outcome<T> = Resolved(value: T) | Threw(thrown: Thrown)

  /** `error instanceof Error ? error.message : fallback` */
  function ErrorText(thrown: Thrown, fallback: string): (text: string)
    ensures thrown.ErrorObject? ==> text == thrown.message
    ensures thrown.NotAnError? ==> text == fallback
  {
    match thrown
    case ErrorObject(message) => message
    case NotAnError => fallback
  }

  /** The store's four fields at one moment. */
  datatype Snapshot = Snapshot(
    categories: seq<CategoryJson>, products: seq<ProductJson>, loading: bool, error: Option<string>)

  /** `set({ loading: true, error: null })` */
  function Begin(v: Snapshot): Snapshot {
    v.(loading := true, error := None)
  }

  /** `set({ loading: false })` */
  function End(v: Snapshot): Snapshot {
    v.(loading := false)
  }

  // ---------------------------------------------------------------------
  // The store

  class AdminStore {
    var categories: seq<CategoryJson>
    var products: seq<ProductJson>
    var loading: bool
    var error: Option<string>
    /** The state after each `set` call so far, in order. */
    ghost var trace: seq<Snapshot>

    function State(): Snapshot
      reads this
    {
      Snapshot(categories, products, loading, error)
    }

    /** The initial state: empty lists, not loading, no error. */
    constructor ()
      ensures State() == Snapshot([], [], false, None) && trace == []
    {
      categories, products, loading, error := [], [], false, None;
      trace := [];
    }

    /** One `set` call: the fields become `v`. */
    method Set(v: Snapshot)
      modifies this
      ensures State() == v && trace == old(trace) + [v]
    {
      categories, products, loading, error := v.categories, v.products, v.loading, v.error;
      trace := trace + [v];
    }

    /** The three `set` calls of an action since the trace was `before` and
        the state `start`: the first sets `loading` and clears `error`, the
        last clears `loading` and leaves the current state. */
    ghost predicate Followed(before: seq<Snapshot>, start: Snapshot)
      reads this
    {
      && |trace| == |before| + 3 && trace[..|before|] == before
      && trace[|before|] == Begin(start)
      && trace[|before| + 2] == State() && !loading
    }

    /** The protocol every action follows, with `update` the state its
        success `set` produces. */
    method Run<T>(outcome: Outcome<T>, update: Snapshot, fallback: string)
      modifies this
      ensures Followed(old(trace), old(State()))
      ensures outcome.Resolved? ==> State() == End(update)
      ensures outcome.Threw? ==>
        State() == old(State()).(loading := false, error := Some(ErrorText(outcome.thrown, fallback)))
    {
      Set(Begin(State()));
      if outcome.Resolved? {
        Set(update);
      } else {
        Set(State().(error := Some(ErrorText(outcome.thrown, fallback))));
      }
      Set(End(State()));
    }

    /** `fetchCategories`: the whole category list becomes the server's. */
    method FetchCategories(outcome: Outcome<seq<CategoryJson>>)
      modifies this
      ensures Followed(old(trace), old(State()))
      ensures products == old(products)
      ensures outcome.Resolved? ==> categories == outcome.value && error.None?
      ensures outcome.Threw? ==> categories == old(categories) && products == old(products)
                                  && error == Some(ErrorText(outcome.thrown, "Failed to fetch categories"))
    {
      var first := Begin(State());
      Run(outcome, if outcome.Resolved? then first.(categories := outcome.value) else first,
          "Failed to fetch categories");
    }

    /** `fetchProducts`: the whole product list becomes the server's. */
    method FetchProducts(outcome: Outcome<seq<ProductJson>>)
      modifies this
      ensures Followed(old(trace), old(State()))
      ensures categories == old(categories)
      ensures outcome.Resolved? ==> products == outcome.value && error.None?
      ensures outcome.Threw? ==> categories == old(categories) && products == old(products)
                                  && error == Some(ErrorText(outcome.thrown, "Failed to fetch products"))
    {
      var first := Begin(State());
      Run(outcome, if outcome.Resolved? then first.(products := outcome.value) else first,
          "Failed to fetch products");
    }

    /** `addCategory`: the created category is appended; the others keep
        their order. */
    method AddCategory(outcome: Outcome<CategoryJson>)
      modifies this
      ensures Followed(old(trace), old(State()))
      ensures products == old(products)
      ensures outcome.Resolved? ==> categories == old(categories) + [outcome.value] && error.None?
      ensures outcome.Threw? ==> categories == old(categories) && products == old(products)
                                  && error == Some(ErrorText(outcome.thrown, "Failed to add category"))
    {
      var first := Begin(State());
      Run(outcome, if outcome.Resolved? then first.(categories := first.categories + [outcome.value]) else first,
          "Failed to add category");
    }

    /** `addSubCategory(name, parentId)`: the created subcategory is
        appended under the category `parentId`. */
    method AddSubcategory(parentId: Id, outcome: Outcome<Subcategory>)
      modifies this
      ensures Followed(old(trace), old(State()))
      ensures products == old(products)
      ensures outcome.Resolved? ==> categories == WithSubcategory(old(categories), parentId, outcome.value) && error.None?
      ensures outcome.Threw? ==> categories == old(categories) && products == old(products)
                                  && error == Some(ErrorText(outcome.thrown, "Failed to add subcategory"))
    {
      var first := Begin(State());
      Run(outcome, if outcome.Resolved? then first.(categories := WithSubcategory(first.categories, parentId, outcome.value)) else first,
          "Failed to add subcategory");
    }

    /** `addProduct`: the created product is appended; the others keep
        their order. */
    method AddProduct(outcome: Outcome<ProductJson>)
      modifies this
      ensures Followed(old(trace), old(State()))
      ensures categories == old(categories)
      ensures outcome.Resolved? ==> products == old(products) + [outcome.value] && error.None?
      ensures outcome.Threw? ==> categories == old(categories) && products == old(products)
                                  && error == Some(ErrorText(outcome.thrown, "Failed to add product"))
    {
      var first := Begin(State());
      Run(outcome, if outcome.Resolved? then first.(products := first.products + [outcome.value]) else first,
          "Failed to add product");
    }

    /** `updateProduct(product)`: the products with `product.id` become the
        server's answer. */
    method UpdateProduct(id: Id, outcome: Outcome<ProductJson>)
      modifies this
      ensures Followed(old(trace), old(State()))
      ensures categories == old(categories)
      ensures outcome.Resolved? ==> products == ReplaceProduct(old(products), id, outcome.value) && error.None?
      ensures outcome.Threw? ==> categories == old(categories) && products == old(products)
                                  && error == Some(ErrorText(outcome.thrown, "Failed to update product"))
    {
      var first := Begin(State());
      Run(outcome, if outcome.Resolved? then first.(products := ReplaceProduct(first.products, id, outcome.value)) else first,
          "Failed to update product");
    }

    /** `deleteProduct(id)` */
    method DeleteProduct(id: Id, outcome: Outcome<()>)
      modifies this
      ensures Followed(old(trace), old(State()))
      ensures categories == old(categories)
      ensures outcome.Resolved? ==> products == WithoutProduct(old(products), id) && error.None?
      ensures outcome.Threw? ==> categories == old(categories) && products == old(products)
                                  && error == Some(ErrorText(outcome.thrown, "Failed to delete product"))
    {
      var first := Begin(State());
      Run(outcome, first.(products := WithoutProduct(first.products, id)),
          "Failed to delete product");
    }

    /** `deleteCategory(id)`: only the category list changes; the products
        of the category stay in the store. */
    method DeleteCategory(id: Id, outcome: Outcome<()>)
      modifies this
      ensures Followed(old(trace), old(State()))
      ensures products == old(products)
      ensures outcome.Resolved? ==> categories == WithoutCategory(old(categories), id) && error.None?
      ensures outcome.Threw? ==> categories == old(categories) && products == old(products)
                                  && error == Some(ErrorText(outcome.thrown, "Failed to delete category"))
    {
      var first := Begin(State());
      Run(outcome, first.(categories := WithoutCategory(first.categories, id)),
          "Failed to delete category");
    }

    /** `deleteSubCategory(id)`: the id is stripped from every category; the
        products of the subcategory stay in the store. */
    method DeleteSubcategory(id: Id, outcome: Outcome<()>)
      modifies this
      ensures Followed(old(trace), old(State()))
      ensures products == old(products)
      ensures outcome.Resolved? ==> categories == WithoutSubcategory(old(categories), id) && error.None?
      ensures outcome.Threw? ==> categories == old(categories) && products == old(products)
                                  && error == Some(ErrorText(outcome.thrown, "Failed to delete subcategory"))
    {
      var first := Begin(State());
      Run(outcome, first.(categories := WithoutSubcategory(first.categories, id)),
          "Failed to delete subcategory");
    }
  }
}
