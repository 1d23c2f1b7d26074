# Catalog admin panel: tables, handlers, state mirror and image lists

This project models the core of a small e-commerce admin panel. The panel
has an Express server over an SQLite catalog and a React console that
mirrors what the server returns. It has three cooperating parts.

- **The catalog server** has four tables: categories, subcategories,
  products and product images. Each table has a text primary key, NOT NULL
  columns, and foreign keys declared `ON DELETE CASCADE`
  (`schema.dfy`). The JSON handlers run against those tables
  (`server.dfy`). Each SQL statement is a function from tables to tables
  that either applies in full or is rejected with the constraint it
  breaks. A handler runs its statements one after another without a
  transaction, so a failure part-way keeps what was already written. The
  database is the class `Server.CatalogServer`. Its four fields are the
  tables, and its methods run the statements step by step, the image
  inserts in a `while` loop. Each method is proved equal to a pure
  handler-outcome function, and the lemmas speak about those functions.
  The upload endpoint has its own file (`upload.dfy`). It accepts or
  rejects the file, builds the stored name
  `<timestamp>-<random>.<ext>`, and answers with the file's URL.
- **The console's store** (`store.dfy`) is the class `Store.AdminStore`.
  Its fields are `categories`, `products`, `loading` and `error`, and a
  ghost trace records every `set` call. Each of its nine actions takes the
  server call's outcome as a parameter. Every action sets `loading` and
  clears `error`, applies a list update or records the error, and then
  clears `loading`. `sync.dfy` compares each list update with what a fresh
  GET would return after the matching handler. `findings.dfy` holds the
  places where the two disagree.
- **The image-list editors** (`images.dfy`) are the uploader and the URL
  input of the forms. They are pure functions of the list, the bound
  `maxImages` and the user's input. The JavaScript built-ins these parts
  rely on are written out in `js.dfy`: `slice`, the index filter, `trim`,
  `split('.').pop()` and number-to-string.

Where the specification and the code differ, the model follows the code:

- Product create and update are not atomic. A failure after the product
  row was written keeps that row and any image rows already inserted.
- Nothing checks that a product's subcategory belongs to its category.
- The limit of four images exists only in the console (`maxImages`), not
  on the server.
- The foreign keys are taken as enforced, as the declared schema says.
  An insert naming a missing parent is rejected, which gives a 500.

## Model

| member | source | states |
|---|---|---|
| Schema.NoTablesValid | server/db.js:11-43 | The freshly created, empty database satisfies every key and foreign key. |
| Schema.Cascade | server/db.js:18-42 | Deleting by key with the four ON DELETE CASCADE rules: when nothing of a kind is deleted, that table and the tables below it are unchanged. |
| Schema.CascadeValid | server/db.js:13-41 | A cascading delete keeps every primary key unique and leaves no row whose foreign key names a missing parent. |
| Schema.DeleteCategoryRows | server/db.js:18-34 | After a category delete, exactly these rows stay: the other categories, the subcategories of other categories, the products in neither the category nor one of its subcategories, and the images of surviving products. |
| Schema.DeleteCategoryLeavesNothing | server/db.js:22-41 | Cascade completeness: after a category delete, no subcategory, product or image row refers to it, directly or through a subcategory or product, and the database is still valid. |
| Schema.DeleteSubcategoryRows | server/db.js:31-41 | A subcategory delete keeps every category, the other subcategories, the products not filed under it and the images of surviving products. |
| Schema.DeleteProductRows | server/db.js:37-42 | A product delete keeps the categories and subcategories, the other products and exactly the image rows of other products. |
| Schema.DeleteAbsentCategory | server/index.js:86-93 | Deleting a category id that no row has changes nothing. |
| Schema.InsertCategory | server/db.js:12-16 | The insert succeeds exactly when the name is not null and the id is new. The row is then appended and nothing else changes. Validity is preserved. |
| Schema.InsertSubcategory | server/db.js:18-23 | The insert succeeds exactly when name and category are not null, the id is new and the category exists. The row is then appended and nothing else changes. |
| Schema.MissingProductColumn | server/db.js:27-32 | The NOT NULL check finds no missing column exactly when all five required product columns have values. Description may be null. |
| Schema.InsertProduct | server/db.js:25-35 | The product insert succeeds exactly when the required columns are present, the id is new and both parents exist. The row is then appended. |
| Schema.UpdateProduct | server/index.js:156-160 | When no product has the id, nothing is checked or written. Otherwise the write succeeds exactly when the values pass NOT NULL and both foreign keys. It then overwrites the six columns of the matching rows in place and keeps the set of product ids. |
| Schema.InsertImage | server/db.js:37-42 | The image insert succeeds exactly when the URL is not null, the id is new and the product exists. The row is then appended. |
| Schema.DeleteImagesOf | server/index.js:163 | The image rows of the product go, every other row stays, and validity is preserved. |
| Schema.DeleteImagesOfRows | server/index.js:163 | Afterwards the product has no image rows, and every other product has the same image rows in the same order. |
| Server.ListCategories | server/index.js:64-69 | One entry per category row, in order, with its columns. Each entry nests exactly the subcategory rows whose categoryId is its id. |
| Server.ListProducts | server/index.js:119-124 | One entry per product row, in order, with its columns. Each entry's images are exactly the URLs of the image rows with its productId. |
| Server.InsertImages | server/index.js:140-143 | The `forEach` of image inserts changes only the image table. The old rows stay in front, every added row belongs to the product, and validity is preserved. |
| Server.InsertImagesAllPresent | server/index.js:140-143 | A run of inserts that was not stopped met no null URL. |
| Server.InsertImagesComplete | server/index.js:140-143 | A run of inserts that was not stopped added exactly one row per URL, in input order. |
| Server.InsertImagesPrefix | server/index.js:140-143 | A run of inserts, stopped or not, added the rows of the first `n` URLs in order, none of them null. It reports an error exactly when `n` is short of the whole list. |
| Server.InsertImagesNeedProduct | server/index.js:164-167 | For a product that does not exist, the first image insert is rejected and nothing is written. |
| Server.AppendedImages | server/index.js:121-122 | Appending image rows for a product adds their URLs after that product's images and leaves every other product's images alone. |
| Server.NoImagesOfAbsentProduct | server/db.js:41 | In a valid database, a product id with no product row has no images. |
| Server.InsertImagesSucceed | server/index.js:140-143 | With fresh ids and an existing product, the run is stopped exactly when some URL is null. |
| Server.CreateCategoryHandler | server/index.js:75-84 | Answers 200 exactly when the name is present and the id is new. The answer is the id, name and imageUrl with an empty subcategory list. A 500 changes nothing. Validity is preserved. |
| Server.CreateSubcategoryHandler | server/index.js:96-105 | Answers 200 exactly when the row is accepted. The answer is the row with `categoryId`, and a 500 changes nothing. |
| Server.CreateProductHandler | server/index.js:130-149 | A rejected product row changes nothing. An accepted row stays even when the answer is 500, and the category and subcategory tables are unchanged. Only image rows of the new product are added after the old ones, and a missing `images` array gives a 500. Validity is preserved. |
| Server.UpdateProductHandler | server/index.js:151-173 | A rejected UPDATE answers 500 with the database error and changes nothing. Once the UPDATE is written, the new columns stay whatever the answer. The image rows of other products stay in front, in order, and every row added belongs to the product. A missing `images` array answers 500. Validity is preserved on every path. |
| Server.DeleteCategoryHandler | server/index.js:86-93 | Always answers `{success: true}`. Afterwards no category has the id, and validity is preserved. |
| Server.DeleteSubcategoryHandler | server/index.js:107-114 | Always answers `{success: true}`. Afterwards no subcategory has the id, and validity is preserved. |
| Server.DeleteProductHandler | server/index.js:175-182 | Always answers `{success: true}`. Afterwards no product has the id, and validity is preserved. |
| Server.CreateProductSucceeds | server/index.js:130-149 | With fresh image ids, the create answers 200 exactly when the required fields are present, the id is new, both parents exist and `images` is an array without null. |
| Server.CreateProductEffect | server/index.js:140-145 | A 200 echoes the body with the new id. The product row comes last with the sent fields, and the product's images are exactly the posted URLs in order. Categories, subcategories and other products' images are unchanged. |
| Server.UpdateProductSucceeds | server/index.js:151-173 | With fresh image ids, the update answers 200 exactly when all of these hold: the values are accepted (or no product has the id), `images` is an array without null, and an unknown id comes with no images. |
| Server.UpdateProductEffect | server/index.js:156-169 | A 200 echoes the body. Every row with the id holds the sent fields and keeps its place, and other rows are unchanged. The product's images are exactly the new list, and other products' images are untouched. |
| Server.UpdateProductPartial | server/index.js:156-172 | A 500 from a failed image insert leaves the new columns written. The product's images are then the sent URLs before the one that failed, and every other product keeps its images. |
| Server.UpdateProductWithoutImages | server/index.js:156-167 | An update without an `images` array answers 500, yet the new columns stay written and the product has lost all its images. |
| Server.CatalogServer.constructor | server/db.js:11-43 | The database starts with four empty tables, which are valid. |
| Server.CatalogServer.CreateCategory | server/index.js:75-84 | Running the insert on the object gives the tables and answer of `CreateCategoryHandler`, and keeps the database valid. |
| Server.CatalogServer.DeleteCategory | server/index.js:86-93 | Running the delete gives the tables and answer of `DeleteCategoryHandler`, and keeps the database valid. |
| Server.CatalogServer.CreateSubcategory | server/index.js:96-105 | Running the insert gives the outcome of `CreateSubcategoryHandler`, and keeps the database valid. |
| Server.CatalogServer.DeleteSubcategory | server/index.js:107-114 | Running the delete gives the outcome of `DeleteSubcategoryHandler`, and keeps the database valid. |
| Server.CatalogServer.InsertImageRows | server/index.js:140-143 | The `forEach` loop, stopping at the first insert that throws, leaves the tables and error of `InsertImages`. |
| Server.CatalogServer.CreateProduct | server/index.js:130-149 | The statement sequence on the object gives the outcome of `CreateProductHandler`, partial writes included, and keeps the database valid. |
| Server.CatalogServer.UpdateProduct | server/index.js:151-173 | UPDATE, DELETE of images, then the insert loop gives the outcome of `UpdateProductHandler`, and keeps the database valid. |
| Server.CatalogServer.DeleteProduct | server/index.js:175-182 | Running the delete gives the outcome of `DeleteProductHandler`, and keeps the database valid. |
| Upload.Receive | server/index.js:43-56 | Read from the start, a request yields a file exactly when it has a single part with field `image`, an allowed type, an existing directory and at most 5 MiB, and that part is the file. It yields no file exactly when there are no parts. A second part after an acceptable first one is an unexpected field. |
| Upload.FileUrl | server/index.js:197-198 | The URL's last path segment is the stored file name whenever that name has no '/'. |
| Upload.UploadHandler | server/index.js:185-202 | The endpoint answers with a URL exactly when the request carries a single acceptable image part. The URL is `<protocol>://<host>/uploads/<type>/<stored name>`, and an empty request is a 400 "No file uploaded". Every 400 carries its rejection's text, and an image part of a type outside the allow-list gets the allow-list message. |
| Upload.StoredFilenameRoundTrip | server/index.js:36-40 | The stored name reads back into the timestamp, the random number and the text after the last '.' of the original name. |
| Upload.StoredFilenameKeepsExtension | server/index.js:38-39 | The stored name's extension is the original name's extension, or the whole original name when it has no '.'. |
| Upload.StoredFilenameNoSlash | server/index.js:37-39 | The stored name has no '/' unless the original name had one. |
| Upload.UploadedUrlNamesFile | server/index.js:197-198 | The URL of an accepted upload ends in the stored name, from which the timestamp, random number and extension read back. |
| Js.SliceTo | src/components/ImageUpload.tsx:18 | `slice(0, end)` gives a prefix. A non-negative end past the length is clamped, and a negative end counts back from the end. |
| Js.WithoutIndex | src/components/ImageUpload.tsx:35 | The index filter drops exactly the element at the index and keeps the others in order. An index outside the list drops nothing. |
| Js.Trim | src/components/ImageInput.tsx:12 | `trim()` is the contiguous slice of the input with only white space before and after it. It is empty exactly when the input is all white space, and otherwise starts and ends with a non-space. |
| Js.AfterLast | server/index.js:38 | `split('.').pop()` is a suffix with no '.'. It is the whole name or follows its last '.'. |
| Js.AfterLastJoined | server/index.js:38 | Splitting `prefix + '.' + tail`, where tail has no '.', yields the tail. |
| Js.DecimalString | server/index.js:37 | The printed number is non-empty, all digits, and has no leading zero. |
| Js.DecimalRoundTrip | server/index.js:37 | Reading the printed number back gives the number. |
| Js.DecimalStringInjective | server/index.js:37 | Distinct numbers print differently. |
| Store.WithSubcategory | src/store.ts:69-75 | Only the category whose id is `parentId` gets the subcategory appended. Every category keeps its place and other fields. |
| Store.ReplaceProduct | src/store.ts:101-105 | Length is kept, each product with the id becomes the answer, and all others are unchanged. |
| Store.WithoutProduct | src/store.ts:117-119 | Exactly the products with the id go. |
| Store.WithoutCategory | src/store.ts:131-133 | Exactly the categories with the id go. |
| Store.WithoutProductOrder | src/store.ts:117-119 | Removing a product distributes over concatenation, and one product stays exactly when its id differs, so the survivors keep their order. |
| Store.WithoutCategoryOrder | src/store.ts:131-133 | Removing a category distributes over concatenation, and one category stays exactly when its id differs, so the survivors keep their order. |
| Store.WithoutSubcategory | src/store.ts:145-150 | The id is removed from every category's subcategories, and the others keep their order (the order-preserving `Filter`). The category count and the categories' other fields are unchanged. |
| Store.StripOnlyTouchesOwner | src/store.ts:145-150 | When only category k holds the id, the over-broad strip equals stripping that one category. |
| Store.AdminStore.constructor | src/store.ts:21-25 | The store starts with empty lists, not loading and no error. |
| Store.AdminStore.Run | src/store.ts:27-37 | The shared protocol: three `set` calls, the first setting loading and clearing error and the last clearing loading. Success gives the update. Failure keeps both lists and records the error text. |
| Store.AdminStore.FetchCategories | src/store.ts:27-37 | Success replaces the whole category list. Failure keeps both lists and records the thrown Error's message, or "Failed to fetch categories" when the thrown value is not an Error. Products never change. |
| Store.AdminStore.FetchProducts | src/store.ts:39-49 | Success replaces the whole product list. Failure keeps both lists and records the thrown Error's message, or "Failed to fetch products" when the thrown value is not an Error. Categories never change. |
| Store.AdminStore.AddCategory | src/store.ts:51-63 | Success appends the created category after the others. Failure keeps both lists and records the thrown Error's message, or "Failed to add category" when the thrown value is not an Error. |
| Store.AdminStore.AddSubcategory | src/store.ts:65-81 | Success appends the subcategory under `parentId` only. Failure keeps both lists and records the thrown Error's message, or "Failed to add subcategory" when the thrown value is not an Error. |
| Store.AdminStore.AddProduct | src/store.ts:83-95 | Success appends the created product. Failure keeps both lists and records the thrown Error's message, or "Failed to add product" when the thrown value is not an Error. |
| Store.AdminStore.UpdateProduct | src/store.ts:97-111 | Success replaces the products with the id by the answer. Failure keeps both lists and records the thrown Error's message, or "Failed to update product" when the thrown value is not an Error. |
| Store.AdminStore.DeleteProduct | src/store.ts:113-125 | Success removes the products with the id. Failure keeps both lists and records the thrown Error's message, or "Failed to delete product" when the thrown value is not an Error. |
| Store.AdminStore.DeleteCategory | src/store.ts:127-139 | Success removes the categories with the id and leaves `products` untouched. Failure keeps both lists and records the thrown Error's message, or "Failed to delete category" when the thrown value is not an Error. |
| Store.AdminStore.DeleteSubcategory | src/store.ts:141-156 | Success strips the id from every category and leaves `products` untouched. Failure keeps both lists and records the thrown Error's message, or "Failed to delete subcategory" when the thrown value is not an Error. |
| ImageList.AllResolved | src/components/ImageUpload.tsx:21-22 | `Promise.all` gives every URL in order exactly when every upload resolved. |
| ImageList.FileSelectEffect | src/components/ImageUpload.tsx:15-27 | Only the first k files are uploaded, with k the free slots capped at the number of files (or, for an over-full list, the files minus the excess). When all k succeed, the list becomes the old list followed by their URLs in file order. When one fails, the list is unchanged. |
| ImageList.FileSelectBounded | src/components/ImageUpload.tsx:17-18 | Starting within the bound, as when the picker is shown, the new list has at most `maxImages` entries. |
| ImageList.HandleImageChange | src/components/ImageInput.tsx:11-17 | The list grows by one exactly when a slot is free and the input has a non-space character. The appended entry is the trimmed input at the end. Otherwise the list is unchanged, and the bound is preserved. |
| ImageList.RemoveImage | src/components/ImageUpload.tsx:34-36 | Removes exactly the entry at the index, keeping the others in order. An index outside the list changes nothing. The same expression is at src/components/ImageInput.tsx:19-21. |
| Sync.CreateCategorySync | src/store.ts:55-57 | After a 200 from POST /api/categories, appending the answer gives exactly the new GET listing. |
| Sync.CreateSubcategorySync | src/store.ts:69-75 | After a 200 from POST /api/subcategories, the store's update gives exactly the new category listing. |
| Sync.CreateProductSync | src/store.ts:87-89 | After a 200 from POST /api/products, appending the answer gives exactly the new product listing. |
| Sync.UpdateProductSync | src/store.ts:101-105 | After a 200 from PUT /api/products/:id, replacing by id gives exactly the new product listing. |
| Sync.CascadeKeepsImagesOf | server/db.js:41 | A product that a cascade keeps keeps all its images. |
| Sync.CascadeProducts | server/db.js:33-41 | After a cascade, the product listing is the old listing filtered by any test that picks out the surviving rows. |
| Sync.DeleteProductSync | src/store.ts:117-119 | After a product delete, filtering the product out gives exactly the new product listing, and the category listing is unchanged. |
| Sync.DeleteCategorySync | src/store.ts:131-133 | After a category delete, filtering the category out gives exactly the new category listing. |
| Sync.DeleteSubcategorySync | src/store.ts:145-150 | After a subcategory delete, stripping the id from every category gives exactly the new category listing. |
| Findings.DeleteButtonAsWritten | src/components/Categories.tsx:135 | The button passes the category's id, so the server deletes nothing, the store removes nothing, and the subcategory stays listed. |
| Findings.DeleteButtonCorrected | src/components/Categories.tsx:135 | Passing the subcategory's id deletes it everywhere, and the store's update agrees with the server's listing. |
| Findings.UnlistedAfterCascade | server/db.js:33-34 | A product row that a cascade deletes is absent from the listing afterwards. |
| Findings.CategoryDeleteAsWritten | src/store.ts:131-133 | A product filed under a deleted category is no longer listed by the server, yet the store keeps it. |
| Findings.SubcategoryDeleteAsWritten | src/store.ts:145-150 | A product filed under a deleted subcategory is no longer listed by the server, yet the store keeps it. |
| Findings.SubcategoriesUnderAreGone | server/db.js:22 | The subcategories that the listing shows under a category are exactly those that a delete of the category removes. |
| Findings.CategoryDeleteCorrected | src/store.ts:127-139 | Filtering out the products of the category and of its subcategories gives exactly the server's product listing after the delete. |
| Findings.SubcategoryDeleteCorrected | src/store.ts:141-156 | Filtering out the products of the subcategory gives exactly the server's product listing after the delete. |

## Left out

- Express setup, CORS, JSON parsing, static file serving, `app.listen` and the error middleware (server/index.js:12-14, 59, 204-218) are HTTP plumbing. A handler is modelled from the decoded body to its answer.
- Creating the upload directories and multer's disk writes are file I/O. Whether `uploads/<type>` exists is a parameter.
- The order in which multer's own checks fire within one part is assumed to be the order written: field, `fileFilter` type, storage, size. The size check is modelled on the file's full size, not on a partly written stream.
- The message of a storage failure comes from the file system, so it is not modelled. `Upload.Message` gives `None` for it, and the 400 answer then carries no text in the model.
- `Date.now()`, `Math.round(Math.random() * 1E9)` and `crypto.randomUUID()` are parameters. Freshness of the UUIDs is an explicit assumption (`Server.FreshImageIds`, and a new id for each row), and filename uniqueness is not claimed.
- Prices are integer cents instead of floating point, and SQLite's type coercion of bound values is not modelled: a JSON value is either present or null.
- Concurrency between requests and between console tabs is not modelled. Each handler runs alone against the tables.
- Statements are not wrapped in a transaction, so partial writes are modelled as they happen. A rollback is not modelled, because the code has none.
- src/api/index.ts and src/utils/uploadImage.ts are `fetch` wrappers. Each store action and each upload is reduced to its outcome, given as a parameter.
- src/server/index.ts is a second upload server that relies on `path.extname`, which is not part of this model.
- The React components are UI and are not modelled, apart from the delete button at src/components/Categories.tsx:135.
  - The edit path looks a product up by name (src/components/Products.tsx:38).
  - The forms trim their inputs.
  - The picker is hidden when the list is full.
- `SubCategory.parentId` is declared at src/types.ts:11 but is never present. The server sends `categoryId`, and `Wire.Subcategory` carries what the server sends.
- Clearing the file input (src/components/ImageUpload.tsx:29-31) and the URL input (src/components/ImageInput.tsx:16) only touches the DOM.
- Js.DecimalString: it prints every natural number as plain digits. `String()` switches to exponent notation from 10^21, which neither `Date.now()` nor `Math.round(Math.random() * 1E9)` reaches (server/index.js:37), so `Upload.StoredFilenameRoundTrip` is stated for all numbers.
- Sync.CascadeProducts and Sync.DeleteProductSync: these assume unique product keys, which the primary key guarantees for every reachable database.
- Store.AdminStore actions: `await` interleavings between two actions running at once are not modelled. Each action runs its three `set` calls without interruption.

## Findings

| source | as written | input that shows it | evidently intended | confidence | as-written member | corrected member |
|---|---|---|---|---|---|---|
| src/components/Categories.tsx:135 | `deleteSubCategory(category.id, subCategory.id)` against the one-parameter action at src/store.ts:141, so the category's id is sent as the subcategory id | category C holding subcategory S, with no subcategory whose id is C: pressing S's delete button deletes no row and S stays listed | `deleteSubCategory(subCategory.id)`, which deletes S on the server and in the store | high (not executed) | Findings.DeleteButtonAsWritten | Findings.DeleteButtonCorrected |
| src/store.ts:131-133 | `deleteCategory` filters only `categories`, while the server's cascade also deletes every product of the category and of its subcategories | a valid database with a product P whose categoryId is C: after deleting C, the store still lists P but GET /api/products does not | also drop from `products` those of the category and of its subcategories | high (not executed) | Findings.CategoryDeleteAsWritten | Findings.CategoryDeleteCorrected |
| src/store.ts:145-150 | `deleteSubCategory` strips the subcategory from the categories only, while the server also deletes every product filed under it | a valid database with a product P whose subCategoryId is S: after deleting S, the store still lists P but GET /api/products does not | also drop from `products` those whose subCategoryId is S | high (not executed) | Findings.SubcategoryDeleteAsWritten | Findings.SubcategoryDeleteCorrected |
