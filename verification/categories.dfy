/**
 * The `/categories` handlers (routes/categories.js) as operations on the
 * category table. Each returns the handler's answer and the resulting store.
 *
 * Only `save()` runs the schema: `findByIdAndUpdate` is called without
 * `runValidators`, so an update stores whatever fields it is given.
 */
module CategoryRoutes {
  import opened Results
  import opened Schema
  import opened Db

  /**
   * The merge `findByIdAndUpdate` performs with a request body: supplied
   * fields win, absent ones keep their stored value, the id stays.
   */
  function Merge(c: Category, p: CategoryDoc): (r: Category)
    ensures r.id == c.id
    ensures p.name.Some? ==> r.name == p.name.value
    ensures p.name.None? ==> r.name == c.name
    ensures p.kind.Some? ==> r.kind == p.kind.value
    ensures p.kind.None? ==> r.kind == c.kind
  {
    Category(c.id, p.name.GetOr(c.name), p.kind.GetOr(c.kind))
  }

  /** `POST /categories`: build a document from the body and save it under a fresh id. */
  function Create(s: Store, body: CategoryDoc): (r: Step<Category>)
    ensures r.resp.Ok? <==> ValidCategoryDoc(body)
    ensures Valid(s) && r.resp.Ok? ==> r.resp.value.id !in s.cats && r.resp.value.id !in s.txs
    ensures r.resp.Ok? ==>
              && Some(r.resp.value.name) == body.name && Some(r.resp.value.kind) == body.kind
              && r.store.cats == s.cats[r.resp.value.id := r.resp.value]
              && r.store.txs == s.txs
    ensures !r.resp.Ok? ==> r.resp.Invalid? && r.store == s
    ensures Valid(s) ==> Valid(r.store)
  {
    match SaveCategory(s.next, body)
    case None => Step(Invalid, s)
    case Some(c) => Step(Ok(c), Store(s.cats[c.id := c], s.txs, s.next + 1))
  }

  /** `GET /categories`: every stored category, in no particular order. */
  function List(s: Store): (r: set<Category>)
    ensures Valid(s) ==> forall c :: c in r <==> c.id in s.cats && s.cats[c.id] == c
  {
    s.cats.Values
  }

  /** `GET /categories/:id`: the stored record, or NotFound. */
  function Get(s: Store, id: Id): (r: Response<Category>)
    ensures r.Ok? <==> id in s.cats
    ensures r.Ok? ==> r.value == s.cats[id]
    ensures !r.Ok? ==> r.NotFound?
  {
    if id in s.cats then Ok(s.cats[id]) else NotFound
  }

  /** `PUT /categories/:id`: merge the body into the stored record, or NotFound. */
  function Update(s: Store, id: Id, patch: CategoryDoc): (r: Step<Category>)
    ensures id !in s.cats ==> r == Step(NotFound, s)
    ensures id in s.cats ==>
              && r.resp.Ok?
              && r.store.cats.Keys == s.cats.Keys
              && r.store.cats[id] == r.resp.value
              && r.resp.value == Merge(s.cats[id], patch)
              && (forall k :: k in s.cats && k != id ==> r.store.cats[k] == s.cats[k])
              && r.store.txs == s.txs
              && r.store.next == s.next
    ensures Valid(s) ==> Valid(r.store)
  {
    if id !in s.cats then Step(NotFound, s)
    else
      var c := Merge(s.cats[id], patch);
      Step(Ok(c), s.(cats := s.cats[id := c]))
  }

  /** `DELETE /categories/:id`: remove the record, or NotFound. Transactions are not consulted. */
  function Delete(s: Store, id: Id): (r: Step<()>)
    ensures id !in s.cats ==> r == Step(NotFound, s)
    ensures id in s.cats ==>
              && r.resp.Ok?
              && r.store.cats.Keys == s.cats.Keys - {id}
              && (forall k :: k in r.store.cats ==> r.store.cats[k] == s.cats[k])
              && r.store.txs == s.txs
              && r.store.next == s.next
    ensures Valid(s) ==> Valid(r.store)
  {
    if id !in s.cats then Step(NotFound, s)
    else Step(Ok(()), s.(cats := s.cats - {id}))
  }

  // ---------------------------------------------------------------------------
  // Relations between the handlers
  // ---------------------------------------------------------------------------

  /** A created category is found by its new id, with the fields it was created with. */
  lemma GetAfterCreate(s: Store, body: CategoryDoc)
    requires ValidCategoryDoc(body)
    ensures
      var r := Create(s, body);
      && r.resp.Ok?
      && Get(r.store, r.resp.value.id) == Ok(Category(r.resp.value.id, body.name.value, body.kind.value))
  {
  }

  /** Creation mints a fresh id: the table grows by exactly one record and no record is replaced. */
  lemma CreateAddsOne(s: Store, body: CategoryDoc)
    requires Valid(s)
    requires ValidCategoryDoc(body)
    ensures
      var r := Create(s, body);
      && r.resp.value.id !in s.cats
      && |r.store.cats| == |s.cats| + 1
      && (forall k :: k in s.cats ==> k in r.store.cats && r.store.cats[k] == s.cats[k])
  {
    var r := Create(s, body);
    var c := r.resp.value;
    assert c.id !in s.cats;
    assert r.store.cats == s.cats[c.id := c];
    KeysAfterInsert(s.cats, c.id, r.store.cats);
  }

  /** Deleting what was just created restores both tables: delete undoes create. */
  lemma DeleteUndoesCreate(s: Store, body: CategoryDoc)
    requires Valid(s)
    requires ValidCategoryDoc(body)
    ensures
      var r := Create(s, body);
      var d := Delete(r.store, r.resp.value.id);
      && d.resp.Ok?
      && d.store.cats == s.cats
      && d.store.txs == s.txs
  {
    var r := Create(s, body);
    var d := Delete(r.store, r.resp.value.id);
    assert d.store.cats == s.cats;
  }

  /** Listing and reading by id agree: a record is listed exactly when it is found under its id. */
  lemma ListAgreesWithGet(s: Store)
    requires Valid(s)
    ensures forall c :: c in List(s) <==> Get(s, c.id) == Ok(c)
  {
  }

  /** After a delete the id is gone: a second delete or a get reports NotFound. */
  lemma DeleteThenGone(s: Store, id: Id)
    ensures Get(Delete(s, id).store, id) == NotFound
    ensures Delete(Delete(s, id).store, id) == Step(NotFound, Delete(s, id).store)
  {
  }

  /** Applying the same update twice leaves the same store as applying it once. */
  lemma UpdateIdempotent(s: Store, id: Id, patch: CategoryDoc)
    ensures Update(Update(s, id, patch).store, id, patch) == Update(s, id, patch)
  {
  }

  /**
   * Updates skip the schema: a stored, valid category can be given a type
   * outside the enum or an empty name.
   */
  lemma UpdateSkipsValidation(s: Store, id: Id)
    requires id in s.cats
    ensures !ValidCategory(Update(s, id, CategoryDoc(None, Some("refund"))).resp.value)
    ensures !ValidCategory(Update(s, id, CategoryDoc(Some(""), None)).resp.value)
  {
  }
}
