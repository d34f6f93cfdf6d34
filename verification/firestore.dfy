/** The slice of the document store the pantry page uses: collections of
    documents addressed by path and id, read with `getDoc`, written with
    `setDoc` (optionally merging) and removed with `deleteDoc`. The store is
    a value here; the page holds it in a field and replaces it on each
    write. */
module Firestore {
  import opened JsNumber
  import opened Wrappers

  /** The fields of one pantry document. */
  datatype Doc = Doc(name: string, quantity: JsNum, expiration: string)

  /** One collection: document id to document. */
  type Collection = map<string, Doc>

  /** The whole store: collection path to its documents. A collection with
      no documents reads the same as a missing one. */
  type Db = map<string, Collection>

  /** The documents of the collection at `path` (none if it was never written). */
  function Documents(db: Db, path: string): Collection {
    if path in db then db[path] else map[]
  }

  /** `getDoc`: the document at `path`/`id`, if it exists. */
  function GetDoc(db: Db, path: string, id: string): (r: Option<Doc>)
    ensures r.Some? <==> id in Documents(db, path)
    ensures r.Some? ==> r.value == Documents(db, path)[id]
  {
    if id in Documents(db, path) then Some(Documents(db, path)[id]) else None
  }

  /** `setDoc` without merge: the document at `path`/`id` becomes `d`,
      created if missing; nothing else in the store changes. */
  function SetDoc(db: Db, path: string, id: string, d: Doc): (r: Db)
    ensures Documents(r, path) == Documents(db, path)[id := d]
    ensures forall p :: p != path ==> Documents(r, p) == Documents(db, p)
  {
    db[path := Documents(db, path)[id := d]]
  }

  /** The fields a merging `setDoc` writes; a `None` field is not written. */
  datatype Patch = Patch(name: Option<string>, quantity: Option<JsNum>, expiration: Option<string>)

  /** A patch that writes every field of a document. */
  predicate Complete(p: Patch) {
    p.name.Some? && p.quantity.Some? && p.expiration.Some?
  }

  /** The document a merging write of `p` leaves behind: the fields `p`
      writes, and for the others the existing document's fields. Without an
      existing document the patch must give every field (a document here
      always has all three). */
  function Merged(existing: Option<Doc>, p: Patch): (r: Doc)
    requires existing.Some? || Complete(p)
    ensures r.name == if p.name.Some? then p.name.value else existing.value.name
    ensures r.quantity == if p.quantity.Some? then p.quantity.value else existing.value.quantity
    ensures r.expiration == if p.expiration.Some? then p.expiration.value else existing.value.expiration
  {
    match existing
    case Some(d) =>
      Doc(if p.name.Some? then p.name.value else d.name,
          if p.quantity.Some? then p.quantity.value else d.quantity,
          if p.expiration.Some? then p.expiration.value else d.expiration)
    case None =>
      Doc(p.name.value, p.quantity.value, p.expiration.value)
  }

  /** `setDoc(ref, fields, { merge: true })`: only document `id` changes, to
      the merge of the patch into what was stored there. */
  function MergeDoc(db: Db, path: string, id: string, p: Patch): (r: Db)
    requires id in Documents(db, path) || Complete(p)
    ensures Documents(r, path) == Documents(db, path)[id := Merged(GetDoc(db, path, id), p)]
    ensures forall q :: q != path ==> Documents(r, q) == Documents(db, q)
  {
    SetDoc(db, path, id, Merged(GetDoc(db, path, id), p))
  }

  /** `deleteDoc`: the document at `path`/`id` is gone; deleting a missing
      document leaves the store exactly as it was. */
  function DeleteDoc(db: Db, path: string, id: string): (r: Db)
    ensures Documents(r, path) == Documents(db, path) - {id}
    ensures id !in Documents(db, path) ==> r == db
    ensures forall p :: p != path ==> Documents(r, p) == Documents(db, p)
  {
    if id in Documents(db, path) then db[path := db[path] - {id}] else db
  }

  /** A merge that writes every field replaces the document outright: it is
      the same write as `setDoc` without merge, whether or not the document
      existed. */
  lemma MergeCompleteOverwrites(db: Db, path: string, id: string, p: Patch)
    requires Complete(p)
    ensures MergeDoc(db, path, id, p) == SetDoc(db, path, id, Doc(p.name.value, p.quantity.value, p.expiration.value))
  {
  }

  /** A read sees the last write: after `setDoc` the document reads back as
      written, after `deleteDoc` it reads as missing, and a read of any other
      id in the collection is not affected by either write. */
  lemma ReadAfterWrite(db: Db, path: string, id: string, other: string, d: Doc)
    requires other != id
    ensures GetDoc(SetDoc(db, path, id, d), path, id) == Some(d)
    ensures GetDoc(DeleteDoc(db, path, id), path, id) == None
    ensures GetDoc(SetDoc(db, path, id, d), path, other) == GetDoc(db, path, other)
    ensures GetDoc(DeleteDoc(db, path, id), path, other) == GetDoc(db, path, other)
  {
  }
}
