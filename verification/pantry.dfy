/** The pantry's storage rules: which collection a user's items live in, the
    writes each handler of the pantry page makes to it, and the displayed
    list that mirrors it. Each handler's write is a function of the store
    here; the page's methods are proved to perform exactly that write. */
module Pantry {
  import opened JsNumber
  import opened Firestore
  import opened Wrappers

  const CollectionPrefix: string := "pantry-items-"

  /** The collection holding user `uid`'s items: `pantry-items-${uid}`. */
  function CollectionPath(uid: string): (path: string)
    ensures |path| == |CollectionPrefix| + |uid|
    ensures path[..|CollectionPrefix|] == CollectionPrefix
    ensures path[|CollectionPrefix|..] == uid
  {
    CollectionPrefix + uid
  }

  /** Different users never share a collection. */
  lemma {:induction false} CollectionPathInjective(a: string, b: string)
    ensures CollectionPath(a) == CollectionPath(b) ==> a == b
  {
    if CollectionPath(a) == CollectionPath(b) {
      assert a == CollectionPath(a)[|CollectionPrefix|..] == CollectionPath(b)[|CollectionPrefix|..] == b;
    }
  }

  /** The store after `addItem(name, quantity, expiration)` for user `uid`:
      an existing document `name` gets quantity `existing + Number(quantity)`
      and the new expiration, keeping its stored name; a missing one is
      created with the name, `Number(quantity) || 1` and the expiration. No
      other document and no other collection changes. */
  function AddedDb(db: Db, uid: string, name: string, quantity: QuantityField, expiration: string): (r: Db)
    ensures Documents(r, CollectionPath(uid)).Keys == Documents(db, CollectionPath(uid)).Keys + {name}
    ensures name !in Documents(db, CollectionPath(uid)) ==>
              Documents(r, CollectionPath(uid))[name] == Doc(name, OrOne(ToNumber(quantity)), expiration)
    ensures name in Documents(db, CollectionPath(uid)) ==>
              var was := Documents(db, CollectionPath(uid))[name];
              Documents(r, CollectionPath(uid))[name] == Doc(was.name, Plus(was.quantity, ToNumber(quantity)), expiration)
    ensures forall k :: k != name && k in Documents(db, CollectionPath(uid)) ==>
              Documents(r, CollectionPath(uid))[k] == Documents(db, CollectionPath(uid))[k]
    ensures forall p :: p != CollectionPath(uid) ==> Documents(r, p) == Documents(db, p)
  {
    var path := CollectionPath(uid);
    var docSnap := GetDoc(db, path, name);
    if docSnap.Some? then
      MergeDoc(db, path, name, Patch(None, Some(Plus(docSnap.value.quantity, ToNumber(quantity))), Some(expiration)))
    else
      SetDoc(db, path, name, Doc(name, OrOne(ToNumber(quantity)), expiration))
  }

  /** The store after `editItem(id, name, quantity, expiration)` for user
      `uid`: document `id` holds exactly the given name, `Number(quantity) || 1`
      and expiration, whatever it held before and whether or not it
      existed. Its key stays `id`; nothing else changes. */
  function EditedDb(db: Db, uid: string, id: string, name: string, quantity: QuantityField, expiration: string): (r: Db)
    ensures Documents(r, CollectionPath(uid)) ==
              Documents(db, CollectionPath(uid))[id := Doc(name, OrOne(ToNumber(quantity)), expiration)]
    ensures forall p :: p != CollectionPath(uid) ==> Documents(r, p) == Documents(db, p)
  {
    MergeDoc(db, CollectionPath(uid), id, Patch(Some(name), Some(OrOne(ToNumber(quantity))), Some(expiration)))
  }

  /** The store after `deleteItem(id)` for user `uid`: document `id` is gone
      whatever its quantity; a missing `id` leaves the store as it was. */
  function DeletedDb(db: Db, uid: string, id: string): (r: Db)
    ensures Documents(r, CollectionPath(uid)) == Documents(db, CollectionPath(uid)) - {id}
    ensures id !in Documents(db, CollectionPath(uid)) ==> r == db
    ensures forall p :: p != CollectionPath(uid) ==> Documents(r, p) == Documents(db, p)
  {
    DeleteDoc(db, CollectionPath(uid), id)
  }

  /** A handler acting for `uid` leaves every other user's items alone. */
  lemma OtherUsersUntouched(db: Db, uid: string, other: string, name: string, id: string,
                            quantity: QuantityField, expiration: string)
    requires other != uid
    ensures Documents(AddedDb(db, uid, name, quantity, expiration), CollectionPath(other)) == Documents(db, CollectionPath(other))
    ensures Documents(EditedDb(db, uid, id, name, quantity, expiration), CollectionPath(other)) == Documents(db, CollectionPath(other))
    ensures Documents(DeletedDb(db, uid, id), CollectionPath(other)) == Documents(db, CollectionPath(other))
  {
    CollectionPathInjective(other, uid);
  }

  /** Two `addItem(n, "1", e)` calls on a collection without `n` leave one
      document at `n` with quantity 2, and no other new document. */
  lemma AddOneTwice(db: Db, uid: string, n: string, e: string)
    requires n !in Documents(db, CollectionPath(uid))
    ensures var twice := AddedDb(AddedDb(db, uid, n, Entered(Num(1)), e), uid, n, Entered(Num(1)), e);
            && Documents(twice, CollectionPath(uid)).Keys == Documents(db, CollectionPath(uid)).Keys + {n}
            && Documents(twice, CollectionPath(uid))[n] == Doc(n, Num(2), e)
  {
    var once := AddedDb(db, uid, n, Entered(Num(1)), e);
    assert Documents(once, CollectionPath(uid))[n] == Doc(n, Num(1), e);
  }

  /** Adding to an existing document does not apply the fallback to 1: a
      blank quantity leaves the count as it was, a non-numeric one turns it
      into NaN, and the stored name is kept in both cases. */
  lemma AddToExistingNoFallback(db: Db, uid: string, name: string, expiration: string)
    requires name in Documents(db, CollectionPath(uid))
    ensures var was := Documents(db, CollectionPath(uid))[name];
            Documents(AddedDb(db, uid, name, Blank, expiration), CollectionPath(uid))[name] ==
              Doc(was.name, was.quantity, expiration)
    ensures var was := Documents(db, CollectionPath(uid))[name];
            Documents(AddedDb(db, uid, name, Entered(NaN), expiration), CollectionPath(uid))[name] ==
              Doc(was.name, NaN, expiration)
  {
    PlusBlankOrNaN(Documents(db, CollectionPath(uid))[name].quantity);
  }

  /** Editing never accumulates: the edited document is the same whatever
      the store held before. */
  lemma EditIgnoresPrevious(db1: Db, db2: Db, uid: string, id: string, name: string,
                            quantity: QuantityField, expiration: string)
    ensures Documents(EditedDb(db1, uid, id, name, quantity, expiration), CollectionPath(uid))[id] ==
            Documents(EditedDb(db2, uid, id, name, quantity, expiration), CollectionPath(uid))[id]
  {
  }

  /** Editing renames a document without re-keying it: after renaming
      document `id` to `n` (a different key), adding `n` creates a second
      document with the same name instead of merging into the renamed one. */
  lemma RenameDoesNotRekey(db: Db, uid: string, id: string, n: string, e: string)
    requires id != n && n !in Documents(db, CollectionPath(uid))
    ensures var after := AddedDb(EditedDb(db, uid, id, n, Entered(Num(1)), e), uid, n, Entered(Num(1)), e);
            && id in Documents(after, CollectionPath(uid)) && n in Documents(after, CollectionPath(uid))
            && Documents(after, CollectionPath(uid))[id] == Doc(n, Num(1), e)
            && Documents(after, CollectionPath(uid))[n] == Doc(n, Num(1), e)
  {
    var edited := EditedDb(db, uid, id, n, Entered(Num(1)), e);
    assert n !in Documents(edited, CollectionPath(uid));
  }

  /** One row of the displayed list: `{ id: doc.id, ...doc.data() }`. */
  datatype Item = Item(id: string, name: string, quantity: JsNum, expiration: string)

  function AsItem(id: string, d: Doc): (row: Item)
    ensures row.id == id && AsDoc(row) == d
  {
    Item(id, d.name, d.quantity, d.expiration)
  }

  function AsDoc(it: Item): Doc {
    Doc(it.name, it.quantity, it.expiration)
  }

  /** The rows of collection `docs`: one `{ id, ...fields }` per document. */
  function Listing(docs: Collection): set<Item> {
    set id | id in docs :: AsItem(id, docs[id])
  }

  /** No two rows carry the same id. */
  predicate UniqueIds(rows: set<Item>) {
    forall a, b :: a in rows && b in rows && a.id == b.id ==> a == b
  }

  /** What the table shows of a collection, row by row: every row is a
      document of the collection with its fields, every document has a row,
      and no id has two rows. */
  lemma ListingRows(docs: Collection)
    ensures forall it :: it in Listing(docs) ==> it.id in docs && it == AsItem(it.id, docs[it.id])
    ensures forall id :: id in docs ==> AsItem(id, docs[id]) in Listing(docs)
    ensures UniqueIds(Listing(docs))
  {
    forall it | it in Listing(docs)
      ensures it.id in docs && it == AsItem(it.id, docs[it.id])
    {
      var id :| id in docs && it == AsItem(id, docs[id]);
    }
  }

  /** The collection a set of rows describes. */
  function Restore(rows: set<Item>): (docs: Collection)
    requires UniqueIds(rows)
  {
    map it | it in rows :: it.id := AsDoc(it)
  }

  /** The table loses nothing of the collection: the collection can be read
      back from its rows alone. */
  lemma RestoreListing(docs: Collection)
    ensures UniqueIds(Listing(docs))
    ensures Restore(Listing(docs)) == docs
  {
    ListingRows(docs);
    var r := Restore(Listing(docs));
    forall id | id in docs
      ensures id in r && r[id] == docs[id]
    {
      assert AsItem(id, docs[id]) in Listing(docs);
    }
    forall id | id in r
      ensures id in docs
    {
      var it :| it in Listing(docs) && it.id == id;
    }
  }
}
