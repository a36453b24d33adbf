/**
 * The two document schemas (models/Category.js and models/Transaction.js) as
 * record types plus the validity predicates that a document save enforces.
 *
 * A document is what a handler hands to the schema before saving: every field
 * may be missing. A record is what the store holds once a save succeeded.
 * The schema's `type` field is called `kind` here because `type` is a Dafny
 * keyword. Amounts are integers (minor currency units) and dates are integer
 * timestamps.
 */
module Schema {
  import opened Results

  /** Document identifiers (ObjectIds), opaque apart from equality. */
  type Id = nat

  const Income: string := "income"
  const Expense: string := "expense"

  /** The `enum: ["income", "expense"]` constraint shared by both schemas. */
  predicate InKindEnum(k: string) {
    k == Income || k == Expense
  }

  /** `required: true` on a String path: a missing value and "" both fail. */
  predicate RequiredString(f: Option<string>) {
    f.Some? && f.value != ""
  }

  // ---------------------------------------------------------------------------
  // Category
  // ---------------------------------------------------------------------------

  datatype CategoryDoc = CategoryDoc(name: Option<string>, kind: Option<string>)

  datatype Category = Category(id: Id, name: string, kind: string)

  /** The category schema: `name` required, `type` required and in the enum. */
  predicate ValidCategoryDoc(d: CategoryDoc) {
    RequiredString(d.name) && d.kind.Some? && InKindEnum(d.kind.value)
  }

  /** A stored category record that the schema would accept. */
  predicate ValidCategory(c: Category) {
    c.name != "" && InKindEnum(c.kind)
  }

  function CategoryToDoc(c: Category): CategoryDoc {
    CategoryDoc(Some(c.name), Some(c.kind))
  }

  /** `category.save()`: validate the document, then build the record under `id`. */
  function SaveCategory(id: Id, d: CategoryDoc): (r: Option<Category>)
    ensures r.Some? <==>
              d.name.Some? && |d.name.value| > 0
              && (d.kind == Some("income") || d.kind == Some("expense"))
    ensures r.Some? ==>
              r.value.id == id && Some(r.value.name) == d.name
              && Some(r.value.kind) == d.kind
  {
    if ValidCategoryDoc(d) then Some(Category(id, d.name.value, d.kind.value))
    else None
  }

  /** Every record a save produces satisfies the schema. */
  lemma SavedCategoryIsValid(id: Id, d: CategoryDoc)
    ensures SaveCategory(id, d).Some? ==> ValidCategory(SaveCategory(id, d).value)
  {
  }

  /** Saving the document of a record gives the record back exactly when the record is valid. */
  lemma CategoryDocRoundTrip(c: Category)
    ensures SaveCategory(c.id, CategoryToDoc(c)) == (if ValidCategory(c) then Some(c) else None)
  {
  }

  // ---------------------------------------------------------------------------
  // Transaction
  // ---------------------------------------------------------------------------

  datatype TransactionDoc = TransactionDoc(
    kind: Option<string>,
    category: Option<Id>,
    amount: Option<int>,
    description: Option<string>,
    date: Option<int>)

  datatype Transaction = Transaction(
    id: Id,
    kind: string,
    category: Id,
    amount: int,
    description: string,
    date: int)

  /**
   * The transaction schema: `type` required and in the enum, `category`,
   * `amount` and `description` required. `date` is never required. Nothing
   * relates `amount`'s sign or `type` to the referenced category.
   */
  predicate ValidTransactionDoc(d: TransactionDoc) {
    && d.kind.Some? && InKindEnum(d.kind.value)
    && d.category.Some?
    && d.amount.Some?
    && RequiredString(d.description)
  }

  predicate ValidTransaction(t: Transaction) {
    InKindEnum(t.kind) && t.description != ""
  }

  function TransactionToDoc(t: Transaction): TransactionDoc {
    TransactionDoc(Some(t.kind), Some(t.category), Some(t.amount), Some(t.description), Some(t.date))
  }

  /** `default: Date.now` on `date`: a missing date becomes `now`. */
  function ApplyDateDefault(d: TransactionDoc, now: int): (r: TransactionDoc)
    ensures r.date.Some?
    ensures d.date.Some? ==> r.date == d.date
    ensures d.date.None? ==> r.date == Some(now)
    ensures r.(date := d.date) == d
  {
    if d.date.None? then d.(date := Some(now)) else d
  }

  /** `transaction.save()` at time `now`: apply the default, validate, build the record. */
  function SaveTransaction(id: Id, d: TransactionDoc, now: int): (r: Option<Transaction>)
    ensures r.Some? <==>
              (d.kind == Some("income") || d.kind == Some("expense"))
              && d.category.Some? && d.amount.Some?
              && d.description.Some? && |d.description.value| > 0
    ensures r.Some? ==>
              && r.value.id == id
              && Some(r.value.kind) == d.kind
              && Some(r.value.category) == d.category
              && Some(r.value.amount) == d.amount
              && Some(r.value.description) == d.description
              && r.value.date == d.date.GetOr(now)
  {
    var full := ApplyDateDefault(d, now);
    if ValidTransactionDoc(full) then
      Some(Transaction(id, full.kind.value, full.category.value, full.amount.value,
                       full.description.value, full.date.value))
    else None
  }

  lemma SavedTransactionIsValid(id: Id, d: TransactionDoc, now: int)
    ensures SaveTransaction(id, d, now).Some? ==> ValidTransaction(SaveTransaction(id, d, now).value)
  {
  }

  /** Saving the document of a record gives the record back exactly when the record is valid. */
  lemma TransactionDocRoundTrip(t: Transaction, now: int)
    ensures SaveTransaction(t.id, TransactionToDoc(t), now) == (if ValidTransaction(t) then Some(t) else None)
  {
  }

  /**
   * The schema accepts any amount and either kind for a document it accepts:
   * neither the sign of `amount` nor the category's own type is consulted.
   */
  lemma AmountAndKindUnconstrained(d: TransactionDoc, amount: int, kind: string)
    requires ValidTransactionDoc(d)
    requires InKindEnum(kind)
    ensures ValidTransactionDoc(d.(amount := Some(amount), kind := Some(kind)))
  {
  }
}
