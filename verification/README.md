# Pantry Pal pantry page: a Dafny model

Pantry Pal keeps a per-user pantry. Each item has a name, a quantity and an
expiration date. The pantry page (`app/pantry/page.js`) keeps each user's
items in the document collection `pantry-items-${uid}`. It has three handlers
that write to that collection:

- `addItem` is an upsert keyed by the item name. On an existing document it
  adds to the quantity and replaces the expiration. On a missing one it creates
  the document, with quantity `Number(q) || 1`.
- `editItem` overwrites the document at a given id and never accumulates.
- `deleteItem` removes the document at a given id.

After each write, `updatePantry` rebuilds the displayed table from the whole
collection. A small form on top of this either adds or edits. Its mode
depends on whether a row is being edited.

The model has five modules:

- `Wrappers` declares `Option`, used for `editingItem`'s `null`, a missing
  document and an unwritten merge field.
- `JsNumber` models the number semantics the handlers rely on. `Number(q)` is
  either a whole number or NaN. The quantity field is either blank (`''`,
  which `Number` turns into 0) or an entry with a given coerced value. The
  module also covers `+`, in which NaN absorbs, and the `|| 1` fallback.
- `Firestore` models the store as a value. It maps a collection path to a map
  from document id to `Doc(name, quantity, expiration)`. It defines `getDoc`,
  `setDoc` with and without `{ merge: true }`, and `deleteDoc`.
- `Pantry` holds the collection path and one function per handler that says
  how that handler changes the store (`AddedDb`, `EditedDb`, `DeletedDb`). It
  also has the displayed row `{ id, ...fields }`, the set of rows a
  collection is displayed as (`Listing`), and lemmas about all of these.
- `PantryPage` holds the page as a class. The class has the store, `userUid`,
  `pantryItems`, the three form fields and `editingItem` as fields. It has one
  method per handler, and each method is proved to make exactly the write its
  `Pantry` function describes. `CollectItems` is the `forEach` push loop of
  `updatePantry`. The table is modelled as a set of rows, so the loop may
  visit the documents in any order.

The code does not enforce the following:

- Quantities are not kept non-negative. A negative entry is stored as is.
- No operation decrements an item or removes it when its quantity reaches
  zero.
- Item names are not kept unique. An edit can rename a document without
  re-keying it (`RenameDoesNotRekey`).
- A non-numeric quantity added to an existing item makes its count NaN. It
  does not fall back to 1.

## Model

| member | source | states |
|---|---|---|
| `JsNumber.Plus` | app/pantry/page.js:156 | The sum is NaN exactly when either operand is NaN. |
| `JsNumber.OrOne` | app/pantry/page.js:158 | `x \|\| 1` is always truthy. It keeps a truthy number, and it turns 0 or NaN into 1. |
| `JsNumber.ToNumber` | app/pantry/page.js:156-158 | `Number('')` is 0, and an entry's number is its coerced value. |
| `JsNumber.PlusBlankOrNaN` | app/pantry/page.js:156 | Adding a blank field leaves a quantity unchanged, because `Number('')` is 0. Adding a NaN entry makes it NaN. |
| `JsNumber.OrOneOfField` | app/pantry/page.js:158 | Blank, 0 and NaN entries become 1. Any other entry, negative ones included, is kept. |
| `Firestore.ReadAfterWrite` | app/pantry/page.js:153-155 | A `getDoc` after `setDoc` returns the document as written. A `getDoc` after `deleteDoc` finds nothing. A read of any other id is unaffected by either write. |
| `Firestore.SetDoc` | app/pantry/page.js:158 | A plain `setDoc` replaces or creates one document. Every other collection is unchanged. |
| `Firestore.Merged` | app/pantry/page.js:156 | A merged document has each field the patch writes, and keeps every other field from the stored document. |
| `Firestore.MergeDoc` | app/pantry/page.js:184 | A merging `setDoc` changes only the named document. The new document is the patch merged into what was stored, or it is created from a complete patch. Other ids and other collections are unchanged. |
| `Firestore.DeleteDoc` | app/pantry/page.js:169 | `deleteDoc` removes the id from its collection. Deleting a missing id leaves the whole store unchanged. |
| `Firestore.MergeCompleteOverwrites` | app/pantry/page.js:184 | A merge that writes every field is the same write as a plain overwrite. |
| `Pantry.CollectionPath` | app/pantry/page.js:134 | A user's collection path starts with `pantry-items-`, and the rest of the path after that prefix is exactly the uid. |
| `Pantry.CollectionPathInjective` | app/pantry/page.js:134 | Two users get the same `pantry-items-${uid}` path only if they are the same user. |
| `Pantry.AddedDb` | app/pantry/page.js:150-159 | `addItem` adds exactly key `name` to the key set. A new document holds the name, `Number(q) \|\| 1` and the expiration. An existing document gets `existing + Number(q)` and the new expiration, and keeps its stored name. Other keys and other collections are unchanged. |
| `Pantry.EditedDb` | app/pantry/page.js:181-184 | `editItem` sets document `id` to the given name, `Number(q) \|\| 1` and expiration, whatever was there before. A missing `id` is created. Everything else is unchanged. |
| `Pantry.DeletedDb` | app/pantry/page.js:167-169 | `deleteItem` removes `id` whatever its quantity. A missing `id` leaves the store exactly as it was. Other collections are unchanged. |
| `Pantry.OtherUsersUntouched` | app/pantry/page.js:150-184 | An add, edit or delete done for one user leaves every other user's collection unchanged. |
| `Pantry.AddOneTwice` | app/pantry/page.js:152-158 | Two `addItem(n, "1", e)` calls on a collection without `n` leave one new key, `n`, whose document has quantity 2. |
| `Pantry.AddToExistingNoFallback` | app/pantry/page.js:154-156 | On an existing document, a blank quantity leaves the count unchanged and a NaN quantity makes it NaN. The stored name is kept in both cases. |
| `Pantry.EditIgnoresPrevious` | app/pantry/page.js:184 | The edited document is the same whatever the store held before, so an edit does not accumulate. |
| `Pantry.RenameDoesNotRekey` | app/pantry/page.js:152-184 | Editing document `id` to name `n` keeps key `id`. A later add of `n` then creates a second document with the same name. |
| `Pantry.AsItem` | app/pantry/page.js:138 | A row `{ id: doc.id, ...doc.data() }` carries the document's id and exactly its fields. |
| `Pantry.ListingRows` | app/pantry/page.js:136-139 | Every row of a collection's listing is one of its documents with that document's id and fields. Every document has a row, and no id has two rows. |
| `Pantry.RestoreListing` | app/pantry/page.js:136-139 | The collection can be rebuilt exactly from its rows, so the table loses nothing. |
| `PantryPage.CollectItems` | app/pantry/page.js:136-139 | The loop produces exactly the collection's rows `{ id, ...fields }`, with as many rows as documents. |
| `PantryPage.Page.constructor` | app/pantry/page.js:105-112 | The page starts with nobody signed in, an empty table, an empty form and no row being edited. |
| `PantryPage.Page.OnAuthStateChanged` | app/pantry/page.js:117-148 | `userUid` becomes the user's uid, or empty after a sign-out. The table is reloaded only when the uid changes to a signed-in user. Otherwise it is kept, even when stale. |
| `PantryPage.Page.UpdatePantry` | app/pantry/page.js:132-142 | With a user signed in, the table becomes the rows of that user's whole collection, rebuilt rather than patched. With no user, it is unchanged. |
| `PantryPage.Page.AddItem` | app/pantry/page.js:150-165 | With a user signed in, it makes the write `AddedDb` describes, then reloads the table and clears the form. With no user, nothing changes. |
| `PantryPage.Page.ClearForm` | app/pantry/page.js:161-163 | After a completed add, and likewise after an edit at lines 187-189, the three form fields are empty. |
| `PantryPage.Page.DeleteItem` | app/pantry/page.js:167-172 | With a user signed in, it makes the write `DeletedDb` describes and reloads the table. The form is not touched. With no user, nothing changes. |
| `PantryPage.Page.StartEditing` | app/pantry/page.js:174-179 | The form enters edit mode for the item and is filled with its name, quantity and expiration. |
| `PantryPage.Page.EditItem` | app/pantry/page.js:181-191 | With a user signed in, it makes the write `EditedDb` describes, reloads the table, leaves edit mode and clears the form. With no user, nothing changes. |
| `PantryPage.Page.ChangeName` | app/pantry/page.js:273 | Typing sets the name field. |
| `PantryPage.Page.ChangeQuantity` | app/pantry/page.js:283 | Typing sets the quantity field. |
| `PantryPage.Page.ChangeExpiration` | app/pantry/page.js:292 | Picking a date sets the expiration field. |
| `PantryPage.Page.Submit` | app/pantry/page.js:298-304 | Submit edits the row being edited when there is one, and adds the form's fields otherwise. After a completed submit the table is in sync, the form is empty and no row is being edited. With no user, nothing changes. |

## Left out

- `PantryPage.Page.OnAuthStateChanged`: does not track `userEmail`. The page only displays it in the account menu.
- Sign-out with its redirect, the account menu (`handleSignOut`, `handleMenuOpen`, `handleMenuClose`), and all rendering and styling in `app/pantry/page.js`: these are UI and navigation, with no state the handlers use.
- `getInventoryItems`, `handleGetRecipes` and `app/api/recipe-suggestions/route.js`: these make a network round trip to a language-model service. Their only local logic is an array check on the request.
- `app/protectedRoute.js` (an auth redirect guard), `app/page.js` (routing) and `app/landing/page.js` (a static page): none of them holds pantry logic.
- Interleaving of `await`s: each handler is modelled as one atomic step. So the lost update between the read and the write in `addItem` is not modelled. Neither are writes by other tabs between a write and the reload.
- Store failures: every store call succeeds. A rejected call, which the page does not catch, is not modelled.
- `Number(...)` string coercion: the coerced value of an entry is an input. Decimal quantities, `Infinity` and the exact string-parsing rules are not modelled.
- `JsNumber.Plus`: adds exactly. The page adds doubles in `existingQuantity + Number(quantity)`, which round once a sum passes 2^53. That rounding is not modelled.
- Document id validation by the store: ids that are empty, contain `/`, are `.` or `..`, or have the form `__…__` are treated like any other key. The store rejects such ids or, for `/`, addresses a nested path.
- `Firestore.MergeDoc` and `Firestore.Merged`: each requires the document to exist or the patch to give every field, because a document here always has all three fields. A merge of a partial patch into a missing document would create a document with missing fields. The page never makes such a write.
- Table order: `getDocs` on a collection without `orderBy` returns documents in ascending document-id order. For added items that is the item name. `pantryItems` is a set of rows, so the model keeps which rows the table holds but drops their order.
