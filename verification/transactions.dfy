/**
 * The `/transactions` CRUD handlers (routes/transactions.js) as operations on
 * the two tables. Creation always saves a brand-new category from the body's
 * `category` object before the transaction; an update edits the category the
 * transaction already references; no handler keeps references intact when
 * categories go away.
 */
module TransactionRoutes {
  import opened Results
  import opened Schema
  import opened Db
  import CategoryRoutes
  import Summary

  /**
   * A body for POST and PUT. A field the body does not carry is None; on
   * creation a falsy `date` counts as absent too, because the handler writes
   * `req.body.date || new Date()`.
   */
  datatype TxBody = TxBody(
    kind: Option<string>,
    amount: Option<int>,
    description: Option<string>,
    date: Option<int>,
    category: Option<CategoryDoc>)

  /** A transaction as sent back after `.populate("category")`: None for a dangling reference. */
  datatype TxView = TxView(tx: Transaction, category: Option<Category>)

  /** Resolve a transaction's category reference against the category table. */
  function Populate(s: Store, t: Transaction): (v: TxView)
    ensures v.tx == t
    ensures v.category.Some? <==> t.category in s.cats
    ensures v.category.Some? ==> v.category.value == s.cats[t.category]
  {
    TxView(t, if t.category in s.cats then Some(s.cats[t.category]) else None)
  }

  /** The four scalar fields an update may rewrite; the category reference is not among them. */
  function MergeTx(t: Transaction, body: TxBody): (r: Transaction)
    ensures r.id == t.id && r.category == t.category
    ensures r.kind == (if body.kind.Some? then body.kind.value else t.kind)
    ensures r.amount == (if body.amount.Some? then body.amount.value else t.amount)
    ensures r.description == (if body.description.Some? then body.description.value else t.description)
    ensures r.date == (if body.date.Some? then body.date.value else t.date)
  {
    t.(kind := body.kind.GetOr(t.kind),
       amount := body.amount.GetOr(t.amount),
       description := body.description.GetOr(t.description),
       date := body.date.GetOr(t.date))
  }

  /**
   * The transaction document the POST handler builds from a body: the
   * category reference is the id of the category it has just saved, and the
   * date is `req.body.date || new Date()`.
   */
  function BodyDoc(body: TxBody, ref: Id, now: int): (d: TransactionDoc)
    ensures d.category == Some(ref) && d.date.Some?
    ensures ValidTransactionDoc(d) <==>
              (body.kind == Some(Income) || body.kind == Some(Expense))
              && body.amount.Some? && body.description.Some? && body.description.value != ""
  {
    TransactionDoc(body.kind, Some(ref), body.amount, body.description, Some(body.date.GetOr(now)))
  }

  /** `GET /transactions`: every stored transaction with its category resolved. */
  function List(s: Store): (r: set<TxView>)
    ensures forall k :: k in s.txs ==> Populate(s, s.txs[k]) in r
    ensures forall v :: v in r ==> v.tx in s.txs.Values && v == Populate(s, v.tx)
  {
    set t | t in s.txs.Values :: Populate(s, t)
  }

  /**
   * `POST /transactions` at time `now`. The category document is built from
   * `req.body.category` and saved first, outside the `try`: a missing object
   * throws and a failed category save rejects, both before any write and
   * both escaping the handler. The transaction is then saved referencing the
   * new category; if that save fails, the `try` answers and the category
   * stays behind.
   */
  function Create(s: Store, body: TxBody, now: int): (r: Step<Transaction>)
    ensures body.category.None? ==> r == Step(Unhandled, s)
    ensures body.category.Some? && !ValidCategoryDoc(body.category.value) ==> r == Step(Unhandled, s)
    ensures r.resp.Ok? <==>
              body.category.Some? && ValidCategoryDoc(body.category.value)
              && ValidTransactionDoc(BodyDoc(body, s.next, now))
    ensures body.category.Some? && ValidCategoryDoc(body.category.value) ==>
              && r.store.cats == s.cats[s.next := Category(s.next, body.category.value.name.value,
                                                           body.category.value.kind.value)]
              && (r.resp.Ok? || r.resp.Invalid?)
              && (r.resp.Invalid? ==> r.store.txs == s.txs)
    ensures r.resp.Ok? ==>
              && r.resp.value.category == s.next
              && Some(r.resp.value.kind) == body.kind
              && Some(r.resp.value.amount) == body.amount
              && Some(r.resp.value.description) == body.description
              && r.resp.value.date == body.date.GetOr(now)
              && r.store.txs == s.txs[r.resp.value.id := r.resp.value]
    ensures Valid(s) && r.resp.Ok? ==> r.resp.value.id !in s.txs && r.resp.value.category !in s.cats
    ensures Valid(s) ==> Valid(r.store)
  {
    match body.category
    case None => Step(Unhandled, s)
    case Some(cb) =>
      match SaveCategory(s.next, cb)
      case None => Step(Unhandled, s)
      case Some(c) =>
        var saved := Store(s.cats[c.id := c], s.txs, s.next + 2);
        match SaveTransaction(s.next + 1, BodyDoc(body, c.id, now), now)
        case None => Step(Invalid, saved)
        case Some(t) => Step(Ok(t), saved.(txs := saved.txs[t.id := t]))
  }

  /** `GET /transactions/:tid`: the record with its category resolved, or NotFound. */
  function Get(s: Store, tid: Id): (r: Response<TxView>)
    ensures r.Ok? <==> tid in s.txs
    ensures r.Ok? ==> r.value.tx == s.txs[tid] && r.value == Populate(s, s.txs[tid])
    ensures !r.Ok? ==> r.NotFound?
  {
    if tid in s.txs then Ok(Populate(s, s.txs[tid])) else NotFound
  }

  /**
   * `PUT /transactions/:transactionId`. NotFound, with nothing written, when
   * the transaction is missing, or when the body carries a category object
   * and the referenced category is missing. Otherwise the referenced
   * category is edited in place (when the body has a category object), then
   * the transaction's scalar fields are merged.
   */
  function Update(s: Store, tid: Id, body: TxBody): (r: Step<TxView>)
    ensures tid !in s.txs ==> r == Step(NotFound, s)
    ensures tid in s.txs && body.category.Some? && s.txs[tid].category !in s.cats ==>
              r == Step(NotFound, s)
    ensures tid in s.txs && (body.category.None? || s.txs[tid].category in s.cats) ==>
              var ref := s.txs[tid].category;
              && r.resp.Ok?
              && r.store.txs == s.txs[tid := MergeTx(s.txs[tid], body)]
              && r.store.txs[tid].category == ref
              && (body.category.None? ==> r.store.cats == s.cats)
              && (body.category.Some? ==>
                    r.store.cats == s.cats[ref := CategoryRoutes.Merge(s.cats[ref], body.category.value)])
              && r.resp.value == Populate(r.store, r.store.txs[tid])
              && r.store.next == s.next
    ensures Valid(s) ==> Valid(r.store)
  {
    if tid !in s.txs then Step(NotFound, s)
    else
      var t := s.txs[tid];
      if body.category.Some? && t.category !in s.cats then Step(NotFound, s)
      else
        var edited :=
          if body.category.Some? then CategoryRoutes.Update(s, t.category, body.category.value).store
          else s;
        var t' := MergeTx(t, body);
        var s' := edited.(txs := edited.txs[tid := t']);
        Step(Ok(Populate(s', t')), s')
  }

  /** `DELETE /transactions/:transactionId`: remove only that record, or NotFound. */
  function Delete(s: Store, tid: Id): (r: Step<()>)
    ensures tid !in s.txs ==> r == Step(NotFound, s)
    ensures tid in s.txs ==>
              && r.resp.Ok?
              && r.store.txs.Keys == s.txs.Keys - {tid}
              && (forall k :: k in r.store.txs ==> r.store.txs[k] == s.txs[k])
              && r.store.cats == s.cats
              && r.store.next == s.next
    ensures Valid(s) ==> Valid(r.store)
  {
    if tid !in s.txs then Step(NotFound, s)
    else Step(Ok(()), s.(txs := s.txs - {tid}))
  }

  // ---------------------------------------------------------------------------
  // Relations between the handlers
  // ---------------------------------------------------------------------------

  /**
   * A successful creation adds exactly one new category and one new
   * transaction that references it, under ids not used before, even when an
   * identical category is already stored.
   */
  lemma CreateAddsCategoryAndTransaction(s: Store, body: TxBody, now: int)
    requires Valid(s)
    requires Create(s, body, now).resp.Ok?
    ensures
      var r := Create(s, body, now);
      var t := r.resp.value;
      && t.id !in s.txs && t.category !in s.cats
      && r.store.cats.Keys == s.cats.Keys + {t.category}
      && r.store.txs.Keys == s.txs.Keys + {t.id}
      && |r.store.cats| == |s.cats| + 1
      && |r.store.txs| == |s.txs| + 1
  {
    var r := Create(s, body, now);
    var t := r.resp.value;
    var cats, txs := r.store.cats, r.store.txs;
    assert t.id !in s.txs && t.category !in s.cats;
    assert cats == s.cats[t.category := cats[t.category]];
    assert txs == s.txs[t.id := t];
    KeysAfterInsert(s.cats, t.category, cats);
    KeysAfterInsert(s.txs, t.id, txs);
  }

  /** Creation replaces no stored record, and the new category carries the body's name and type. */
  lemma CreateKeepsExisting(s: Store, body: TxBody, now: int)
    requires Valid(s)
    requires Create(s, body, now).resp.Ok?
    ensures
      var r := Create(s, body, now);
      var t := r.resp.value;
      && r.store.cats[t.category] == Category(t.category, body.category.value.name.value, body.category.value.kind.value)
      && (forall k :: k in s.cats ==> k in r.store.cats && r.store.cats[k] == s.cats[k])
      && (forall k :: k in s.txs ==> k in r.store.txs && r.store.txs[k] == s.txs[k])
  {
  }

  /**
   * When the category saves but the transaction does not, the request fails
   * yet a new category remains that no transaction references.
   */
  lemma CreateLeavesOrphan(s: Store, body: TxBody, now: int)
    requires Valid(s)
    requires body.category.Some? && ValidCategoryDoc(body.category.value)
    requires !ValidTransactionDoc(BodyDoc(body, s.next, now))
    ensures
      var r := Create(s, body, now);
      && r.resp.Invalid?
      && r.store.txs == s.txs
      && exists id :: id in r.store.cats && id !in s.cats
                      && forall k :: k in r.store.txs ==> r.store.txs[k].category != id
  {
    var r := Create(s, body, now);
    NextIsFresh(s);
    assert s.next in r.store.cats;
  }

  /** A created transaction is found by its id, with the new category resolved. */
  lemma GetAfterCreate(s: Store, body: TxBody, now: int)
    requires Create(s, body, now).resp.Ok?
    ensures
      var r := Create(s, body, now);
      var t := r.resp.value;
      Get(r.store, t.id) ==
        Ok(TxView(t, Some(Category(t.category, body.category.value.name.value, body.category.value.kind.value))))
  {
  }

  /** Listing and reading by id agree: a view is listed exactly when reading its id returns it. */
  lemma ListAgreesWithGet(s: Store)
    requires Valid(s)
    ensures forall v :: v in List(s) <==> Get(s, v.tx.id) == Ok(v)
  {
    forall v: TxView | Get(s, v.tx.id) == Ok(v)
      ensures v in List(s)
    {
      assert Populate(s, s.txs[v.tx.id]) in List(s);
    }
  }

  /** With `{ new: true }` the update answers with exactly what a read afterwards returns. */
  lemma GetAfterUpdate(s: Store, tid: Id, body: TxBody)
    requires tid in s.txs
    requires body.category.None? || s.txs[tid].category in s.cats
    ensures Get(Update(s, tid, body).store, tid) == Update(s, tid, body).resp
  {
  }

  /** Deleting a just-created transaction restores the transaction table but keeps its category. */
  lemma DeleteAfterCreateKeepsCategory(s: Store, body: TxBody, now: int)
    requires Valid(s)
    requires Create(s, body, now).resp.Ok?
    ensures
      var r := Create(s, body, now);
      var d := Delete(r.store, r.resp.value.id);
      && d.resp.Ok?
      && d.store.txs == s.txs
      && d.store.cats == r.store.cats
      && r.resp.value.category in d.store.cats
  {
    var r := Create(s, body, now);
    var d := Delete(r.store, r.resp.value.id);
    NextIsFresh(s);
    assert d.store.txs == s.txs;
  }

  /**
   * An update never changes which category a transaction references and
   * never adds or removes categories, whatever the body holds.
   */
  lemma UpdateKeepsReference(s: Store, tid: Id, body: TxBody)
    requires tid in s.txs
    ensures
      var r := Update(s, tid, body);
      && r.store.cats.Keys == s.cats.Keys
      && r.store.txs.Keys == s.txs.Keys
      && tid in r.store.txs && r.store.txs[tid].category == s.txs[tid].category
      && (forall k :: k in s.txs && k != tid ==> r.store.txs[k] == s.txs[k])
  {
  }

  /**
   * Deleting a referenced category succeeds and leaves the transaction in
   * place with a dangling reference: reading it resolves no category, and an
   * update that carries a category object reports NotFound.
   */
  lemma CategoryDeleteLeavesDangling(s: Store, tid: Id, body: TxBody)
    requires tid in s.txs && s.txs[tid].category in s.cats
    requires body.category.Some?
    ensures
      var d := CategoryRoutes.Delete(s, s.txs[tid].category);
      && d.resp.Ok?
      && d.store.txs == s.txs
      && Get(d.store, tid) == Ok(TxView(s.txs[tid], None))
      && Update(d.store, tid, body) == Step(NotFound, d.store)
  {
  }

  /**
   * Nothing ties a transaction's type or amount sign to its category: an
   * income of any amount, negative included, is accepted under a freshly
   * made expense category, and the other way round.
   */
  lemma KindsAndSignsUnchecked(s: Store, name: string, desc: string, amount: int, now: int)
    requires name != "" && desc != ""
    ensures Create(s, TxBody(Some(Income), Some(amount), Some(desc), None,
                             Some(CategoryDoc(Some(name), Some(Expense)))), now).resp.Ok?
    ensures Create(s, TxBody(Some(Expense), Some(amount), Some(desc), None,
                             Some(CategoryDoc(Some(name), Some(Income)))), now).resp.Ok?
  {
  }

  /** The body of an update that sets a type outside the enum and nothing else. */
  const Transfer: TxBody := TxBody(Some("transfer"), None, None, None, None)

  /**
   * An update skips the schema, so a stored transaction can take a type
   * outside the enum. A scan of the updated store is a scan of the old one
   * with that transaction replaced, and the summary counts the updated
   * transaction in neither total, wherever it sits in the scan and whatever
   * the query.
   */
  lemma UpdateMayStoreUnknownKind(s: Store, tid: Id, a: seq<Transaction>, b: seq<Transaction>, q: Summary.Query)
    requires tid in s.txs
    ensures
      var r := Update(s, tid, Transfer);
      var t' := r.store.txs[tid];
      && r.resp.Ok?
      && !InKindEnum(t'.kind)
      && !ValidTransaction(t')
      && (Valid(s) && IsScan(s, a + [s.txs[tid]] + b) ==> IsScan(r.store, a + [t'] + b))
      && Summary.Summarize(a + [t'] + b, q) == Summary.Summarize(a + b, q)
  {
    var r := Update(s, tid, Transfer);
    var t, t' := s.txs[tid], r.store.txs[tid];
    if Valid(s) && IsScan(s, a + [t] + b) {
      var rest := s.txs - {tid};
      ValuesAfterRemove(s.txs, tid);
      assert rest[tid := t'] == r.store.txs;
      ValuesAfterInsert(rest, tid, t');
      assert multiset(a + [t] + b) == multiset(a + b) + multiset{t};
      assert multiset(a + [t'] + b) == multiset(a + b) + multiset{t'};
    }
    assert multiset(a + [t'] + b) == multiset((a + b) + [t']);
    Summary.SummaryOrderIndependent(a + [t'] + b, (a + b) + [t'], q);
    Summary.SummaryOfAppended(a + b, t', q);
  }

  // ---------------------------------------------------------------------------
  // The summary over the stored collection
  // ---------------------------------------------------------------------------

  /**
   * `scan` is one pass of `find` over the transaction collection: every
   * stored transaction exactly once, in whatever order the database yields.
   */
  predicate IsScan(s: Store, scan: seq<Transaction>) {
    multiset(scan) == multiset(s.txs.Values)
  }

  /**
   * `GET /transactions/summary/all` reads the store: the query result is the
   * stored transactions that match, and every scan gives the same totals.
   */
  lemma SummaryOfStore(s: Store, a: seq<Transaction>, b: seq<Transaction>, q: Summary.Query)
    requires IsScan(s, a) && IsScan(s, b)
    ensures forall t :: t in Summary.Filter(a, q) <==> t in s.txs.Values && Summary.Matches(t, q)
    ensures Summary.Summarize(a, q) == Summary.Summarize(b, q)
  {
    forall t
      ensures t in a <==> t in s.txs.Values
    {
      assert t in a <==> t in multiset(a);
    }
    Summary.SummaryOrderIndependent(a, b, q);
  }

  /**
   * After a successful creation, a scan of the old store followed by the new
   * transaction is a scan of the new store, and the totals move by its amount
   * when it matches the query.
   */
  lemma SummaryAfterCreate(s: Store, body: TxBody, now: int, scan: seq<Transaction>, q: Summary.Query)
    requires Valid(s) && IsScan(s, scan)
    requires Create(s, body, now).resp.Ok?
    ensures
      var r := Create(s, body, now);
      var t := r.resp.value;
      var before := Summary.Summarize(scan, q);
      var after := Summary.Summarize(scan + [t], q);
      && IsScan(r.store, scan + [t])
      && (Summary.Matches(t, q) && t.kind == Income ==>
            after == Summary.Totals(before.totalIncome + t.amount, before.totalExpenses, before.balance + t.amount))
      && (Summary.Matches(t, q) && t.kind == Expense ==>
            after == Summary.Totals(before.totalIncome, before.totalExpenses + t.amount, before.balance - t.amount))
      && (!Summary.Matches(t, q) ==> after == before)
  {
    var r := Create(s, body, now);
    var t := r.resp.value;
    ValuesAfterInsert(s.txs, t.id, t);
    Summary.SummaryOfAppended(scan, t, q);
  }

  /**
   * Deleting a transaction removes it from the scan, and the totals move back
   * by its amount when it matched the query.
   */
  lemma SummaryAfterDelete(s: Store, tid: Id, a: seq<Transaction>, b: seq<Transaction>, q: Summary.Query)
    requires Valid(s) && tid in s.txs
    requires IsScan(s, a + [s.txs[tid]] + b)
    ensures
      var t := s.txs[tid];
      var before := Summary.Summarize(a + [t] + b, q);
      var after := Summary.Summarize(a + b, q);
      && IsScan(Delete(s, tid).store, a + b)
      && (Summary.Matches(t, q) && t.kind == Income ==>
            after == Summary.Totals(before.totalIncome - t.amount, before.totalExpenses, before.balance - t.amount))
      && (Summary.Matches(t, q) && t.kind == Expense ==>
            after == Summary.Totals(before.totalIncome, before.totalExpenses - t.amount, before.balance + t.amount))
      && (!Summary.Matches(t, q) ==> after == before)
  {
    var t := s.txs[tid];
    ValuesAfterRemove(s.txs, tid);
    assert multiset(a + [t] + b) == multiset(a + b) + multiset{t};
    assert multiset((a + b) + [t]) == multiset(a + b) + multiset{t};
    Summary.SummaryOrderIndependent(a + [t] + b, (a + b) + [t], q);
    Summary.SummaryOfAppended(a + b, t, q);
  }
}
