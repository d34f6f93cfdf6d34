/** The pantry page's state and handlers: the signed-in user's uid, the
    displayed list, the add/edit form and the store the handlers write. Each
    handler runs to completion before the next starts. */
module PantryPage {
  import opened JsNumber
  import opened Firestore
  import opened Pantry
  import opened Wrappers

  /** The forEach loop of `updatePantry`: one row per document of `docs`.
      The store returns the documents ordered by id; the table here is a set
      of rows, so the loop may visit them in any order. */
  method CollectItems(docs: Collection) returns (pantryList: set<Item>)
    ensures pantryList == Listing(docs)
    ensures |pantryList| == |docs|
  {
    pantryList := {};
    var rest := docs.Keys;
    while rest != {}
      invariant rest <= docs.Keys
      invariant pantryList == set id | id in docs && id !in rest :: AsItem(id, docs[id])
      invariant |pantryList| + |rest| == |docs|
      decreases |rest|
    {
      var id :| id in rest;
      assert AsItem(id, docs[id]) !in pantryList;
      pantryList := pantryList + {AsItem(id, docs[id])};
      rest := rest - {id};
    }
  }

  class Page {
    /** The document store (shared by all users). */
    var db: Db
    /** The signed-in user's uid; the empty string when nobody is signed in. */
    var userUid: string
    /** The rows shown in the pantry table. */
    var pantryItems: set<Item>
    var newItemName: string
    var newItemQuantity: QuantityField
    var newItemExpiration: string
    /** The row being edited, or none (`null`) when the form adds. */
    var editingItem: Option<Item>

    /** The form's three fields are empty. */
    predicate FormCleared()
      reads this`newItemName, this`newItemQuantity, this`newItemExpiration
    {
      newItemName == "" && newItemQuantity == Blank && newItemExpiration == ""
    }

    /** While a user is signed in, the table shows exactly that user's
        collection. */
    predicate Synced()
      reads this`userUid, this`pantryItems, this`db
    {
      userUid != "" ==> pantryItems == Listing(Documents(db, CollectionPath(userUid)))
    }

    /** The page as first rendered: nobody signed in, empty table and form. */
    constructor (store: Db)
      ensures db == store && userUid == "" && pantryItems == {}
      ensures FormCleared() && editingItem == None && Synced()
    {
      db := store;
      userUid := "";
      pantryItems := {};
      newItemName, newItemQuantity, newItemExpiration := "", Blank, "";
      editingItem := None;
    }

    /** The auth listener and the effect on `userUid`: the uid becomes the
        signed-in user's (or empty), and when it changes to a user the table
        is reloaded from that user's collection. */
    method OnAuthStateChanged(user: Option<string>)
      modifies this`userUid, this`pantryItems
      ensures userUid == (if user.Some? then user.value else "")
      ensures userUid == old(userUid) ==> pantryItems == old(pantryItems)
      ensures userUid != old(userUid) && userUid == "" ==> pantryItems == old(pantryItems)
      ensures old(Synced()) ==> Synced()
      ensures userUid != "" && userUid != old(userUid) ==> Synced()
    {
      var uid := if user.Some? then user.value else "";
      if uid != userUid {
        userUid := uid;
        if userUid != "" {
          UpdatePantry();
        }
      }
    }

    /** `updatePantry`: with a user signed in, the table is rebuilt from the
        whole of that user's collection; otherwise nothing happens. */
    method UpdatePantry()
      modifies this`pantryItems
      ensures userUid == "" ==> pantryItems == old(pantryItems)
      ensures userUid != "" ==> |pantryItems| == |Documents(db, CollectionPath(userUid))|
      ensures Synced()
    {
      if userUid != "" {
        var pantryList := CollectItems(Documents(db, CollectionPath(userUid)));
        pantryItems := pantryList;
      }
    }

    /** `addItem`: with a user signed in, the upsert of `AddedDb`, a reload
        of the table and a cleared form; otherwise nothing changes. */
    method AddItem(name: string, quantity: QuantityField, expiration: string)
      modifies this`db, this`pantryItems, this`newItemName, this`newItemQuantity, this`newItemExpiration
      ensures userUid == "" ==> unchanged(this)
      ensures userUid != "" ==> db == AddedDb(old(db), userUid, name, quantity, expiration)
      ensures userUid != "" ==> Synced() && FormCleared()
    {
      if userUid != "" {
        var path := CollectionPath(userUid);
        var docSnap := GetDoc(db, path, name);
        var written;
        if docSnap.Some? {
          var existingQuantity := docSnap.value.quantity;
          written := MergeDoc(db, path, name, Patch(None, Some(Plus(existingQuantity, ToNumber(quantity))), Some(expiration)));
        } else {
          written := SetDoc(db, path, name, Doc(name, OrOne(ToNumber(quantity)), expiration));
        }
        assert written == AddedDb(db, userUid, name, quantity, expiration);
        db := written;
        UpdatePantry();
        ClearForm();
      }
    }

    /** The three `setNewItem...('')` calls that end a completed add or edit. */
    method ClearForm()
      modifies this`newItemName, this`newItemQuantity, this`newItemExpiration
      ensures FormCleared()
    {
      newItemName, newItemQuantity, newItemExpiration := "", Blank, "";
    }

    /** `deleteItem`: with a user signed in, document `id` is removed and the
        table reloaded; the form is left as it is. */
    method DeleteItem(id: string)
      modifies this`db, this`pantryItems
      ensures userUid == "" ==> unchanged(this)
      ensures userUid != "" ==> db == DeletedDb(old(db), userUid, id) && Synced()
    {
      if userUid != "" {
        db := DeleteDoc(db, CollectionPath(userUid), id);
        UpdatePantry();
      }
    }

    /** `startEditing`: the form switches to editing `item` and is filled
        with its fields. */
    method StartEditing(item: Item)
      modifies this`editingItem, this`newItemName, this`newItemQuantity, this`newItemExpiration
      ensures editingItem == Some(item)
      ensures newItemName == item.name && newItemQuantity == Entered(item.quantity)
      ensures newItemExpiration == item.expiration
    {
      editingItem := Some(item);
      newItemName := item.name;
      newItemQuantity := Entered(item.quantity);
      newItemExpiration := item.expiration;
    }

    /** `editItem`: with a user signed in, the overwrite of `EditedDb`, a
        reload of the table, the form back in add mode and cleared;
        otherwise nothing changes. */
    method EditItem(id: string, name: string, quantity: QuantityField, expiration: string)
      modifies this`db, this`pantryItems, this`editingItem
      modifies this`newItemName, this`newItemQuantity, this`newItemExpiration
      ensures userUid == "" ==> unchanged(this)
      ensures userUid != "" ==> db == EditedDb(old(db), userUid, id, name, quantity, expiration)
      ensures userUid != "" ==> Synced() && FormCleared() && editingItem == None
    {
      if userUid != "" {
        var path := CollectionPath(userUid);
        db := MergeDoc(db, path, id, Patch(Some(name), Some(OrOne(ToNumber(quantity))), Some(expiration)));
        UpdatePantry();
        editingItem := None;
        ClearForm();
      }
    }

    /** The form's onChange handlers. */
    method ChangeName(value: string)
      modifies this`newItemName
      ensures newItemName == value
    {
      newItemName := value;
    }

    method ChangeQuantity(value: QuantityField)
      modifies this`newItemQuantity
      ensures newItemQuantity == value
    {
      newItemQuantity := value;
    }

    method ChangeExpiration(value: string)
      modifies this`newItemExpiration
      ensures newItemExpiration == value
    {
      newItemExpiration := value;
    }

    /** The submit button: an edit of the row being edited when there is
        one, an add of the form's fields otherwise. */
    method Submit()
      modifies this`db, this`pantryItems, this`editingItem
      modifies this`newItemName, this`newItemQuantity, this`newItemExpiration
      ensures old(userUid) == "" ==> unchanged(this)
      ensures userUid != "" && old(editingItem).Some? ==>
                db == EditedDb(old(db), userUid, old(editingItem).value.id,
                               old(newItemName), old(newItemQuantity), old(newItemExpiration))
                && editingItem == None
      ensures userUid != "" && old(editingItem).None? ==>
                db == AddedDb(old(db), userUid, old(newItemName), old(newItemQuantity), old(newItemExpiration))
                && editingItem == None
      ensures userUid != "" ==> Synced() && FormCleared()
    {
      if editingItem.Some? {
        EditItem(editingItem.value.id, newItemName, newItemQuantity, newItemExpiration);
      } else {
        AddItem(newItemName, newItemQuantity, newItemExpiration);
      }
    }
  }
}
