/** The JSON objects exchanged between the admin console and the catalog
    server. The client keeps these objects as they arrive, so they are
    also the entries of its state mirror. */
module Wire {
  import opened Common

  /** A subcategory as the server sends it: the database row as it is, with
      its `categoryId`. The client's declared type names that field
      `parentId`, which is never present on the objects it actually holds. */
  datatype Subcategory = Subcategory(id: Id, name: string, categoryId: Id)

  /** A category with its subcategories nested inline. */
  datatype CategoryJson = CategoryJson(
    id: Id, name: string, imageUrl: Option<Url>, subCategories: seq<Subcategory>)

  /** The six scalar product fields as JSON values; `None` is a key that is
      absent or null. A price is an integer number of cents. */
  datatype ProductFields = ProductFields(
    name: Option<string>, description: Option<string>, price: Option<int>,
    stock: Option<int>, categoryId: Option<Id>, subCategoryId: Option<Id>)

  /** A product with its image URLs nested inline. */
  datatype ProductJson = ProductJson(id: Id, fields: ProductFields, images: seq<Url>)

  /** The body of a product create or update: the scalar fields and the
      `images` value, which the server expects to be an array of URLs. */
  datatype ProductBody = ProductBody(fields: ProductFields, images: Option<seq<Option<Url>>>)
}
