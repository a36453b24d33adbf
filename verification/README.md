# Personal-finance bookkeeping API — verified model

This project models the core of a small Express/Mongoose bookkeeping service.
Clients keep **categories** (a name plus an `income | expense` type) and
**transactions**. A transaction has a type, an amount, a description, a date
and a reference to one category. The service also answers a **summary**:
total income, total expenses and balance, optionally restricted to a date
range and to one category.

The model is written in Dafny as pure functions over immutable values.

| module | file | models |
|---|---|---|
| `Results` | results.dfy | `Option`, and `Response` = `Ok \| NotFound \| Invalid \| Unhandled` |
| `Schema` | schema.dfy | the two Mongoose schemas, as validity predicates and `save()` functions |
| `Db` | store.dfy | the two collections, as maps `Id -> record`, plus an id counter and the store invariant `Valid` |
| `Summary` | summary.dfy | `GET /transactions/summary/all`: query filter, fold, balance |
| `CategoryRoutes` | categories.dfy | the `/categories` handlers |
| `TransactionRoutes` | transactions.dfy | the `/transactions` CRUD handlers |

Each writing handler is a function `(Store, request) -> Step(Response, Store)`.
A read (`Get`, `List`) returns only its answer, because it leaves the store
unchanged. The summary handler is modelled on the sequence that the
collection scan yields. `Summary.ComputeSummary` takes that sequence, and
`TransactionRoutes.IsScan` ties it to a store: it holds every stored
transaction exactly once, in any order.
`Summary.Summarize` is the reference definition of the handler's response.
It is built from `Summary.Filter`, the query, and `Summary.Tally`, the fold.
The fold adds each matching transaction's `Summary.Contribution`, and the
balance is income minus expenses. The summary lemmas are all stated in terms of it.
The schema's `type` field is called `kind`, because `type` is a Dafny keyword.
Amounts are integers, read as minor currency units. Dates are integer
timestamps in milliseconds. Ids are natural numbers, and the store mints them
from a counter `next`.

Observed behaviour that the model keeps:

- Creating a transaction always saves a new category built from the body's
  `category` object. It never looks up an existing category.
- If the transaction then fails validation, that new category stays behind
  with nothing referencing it.
- Updating a transaction edits the category it already references, in place.
  The reference itself never changes.
- Deleting a category does not touch transactions, so references can dangle.
  Reading such a transaction resolves no category. Updating it with a
  category object answers NotFound.
- The summary filters by date only when both `startDate` and `endDate` are
  given. Both ends are inclusive. The category filter is ANDed with it.
  Transactions whose type is neither `income` nor `expense` add nothing.

Three details of the code that are easy to misread:

- Both update handlers call `findByIdAndUpdate` without `runValidators`, and
  Mongoose does not validate updates by default. So an update stores any type
  or name it is given, and only creation can answer `Invalid`.
  `CategoryRoutes.UpdateSkipsValidation` and
  `TransactionRoutes.UpdateMayStoreUnknownKind` state this. It is also the
  only way a stored transaction can reach the summary's "neither income nor
  expense" case.
- `POST /transactions` reads `req.body.category.name` and saves the category
  outside the handler's `try`. A missing `category` object throws a TypeError,
  and a category that fails validation makes `save()` reject. Both happen
  before anything is written, and both escape the handler, which sends no
  response of its own. The model answers `Unhandled` with the store unchanged.
  Only the transaction's own save failure is caught; it answers `Invalid`
  (a 500) and leaves the new category behind.
- Mongoose's `required` check on a String rejects the empty string as well as
  a missing value. `RequiredString` models this.

## Model

| member | source | states |
|---|---|---|
| Schema.SaveCategory | src/models/Category.js:3-13 | a category document saves exactly when `name` is a non-empty string and `type` is "income" or "expense"; the record then carries those fields and the given id |
| Schema.SavedCategoryIsValid | src/models/Category.js:3-13 | every record a category save produces satisfies the schema |
| Schema.CategoryDocRoundTrip | src/models/Category.js:3-13 | saving a record's own document gives the record back exactly when the record is valid, and is rejected otherwise |
| Schema.ApplyDateDefault | src/models/Transaction.js:22-25 | a missing `date` becomes the current time, a supplied one is kept, and no other field changes |
| Schema.SaveTransaction | src/models/Transaction.js:3-28 | a transaction document saves exactly when its type is in the enum and category, amount and a non-empty description are present; the record then carries those fields, with the date defaulted to now |
| Schema.SavedTransactionIsValid | src/models/Transaction.js:4-21 | every saved transaction has an enum type and a non-empty description |
| Schema.TransactionDocRoundTrip | src/models/Transaction.js:3-28 | saving a record's own document gives the record back exactly when the record is valid |
| Schema.AmountAndKindUnconstrained | src/models/Transaction.js:3-28 | changing an accepted document's amount to any integer, or its type to either enum value, keeps it accepted: sign and type are tied to nothing |
| Db.EmptyIsValid | src/routes/transactions.js:24-37 | the empty store satisfies the id invariant |
| Db.NextIsFresh | src/routes/transactions.js:24-37 | in a valid store, the next minted id is used by no category, no transaction and no category reference |
| Summary.Filter | src/routes/transactions.js:143-159 | the query result holds exactly the scanned transactions that satisfy every condition, and is no longer than the scan |
| Summary.FilterMultiset | src/routes/transactions.js:156-159 | the query keeps each matching transaction as many times as the scan holds it, and drops every other transaction |
| Summary.FilterAppend | src/routes/transactions.js:156-159 | querying a concatenated scan is the concatenation of the two query results |
| Summary.FilterAppendOne | src/routes/transactions.js:156-159 | one more scanned transaction joins the result exactly when it matches |
| Summary.ComputeSummary | src/routes/transactions.js:138-182 | the handler's loop over the matching transactions yields the reference totals (filter, then fold), and balance = income - expenses |
| Summary.TallyAppend | src/routes/transactions.js:168-174 | the fold over a concatenation is the sum of the two folds |
| Summary.TallySingleton | src/routes/transactions.js:168-174 | one transaction contributes its amount as income, or as expense, or nothing, by its type |
| Summary.TallyAppendOne | src/routes/transactions.js:168-174 | appending a transaction adds its contribution; a type outside the enum leaves the totals unchanged |
| Summary.TallySplit | src/routes/transactions.js:168-174 | wherever it sits in the sequence, an "income" transaction adds its amount only to income, an "expense" one only to expenses, and any other type adds nothing |
| Summary.TallyPermutation | src/routes/transactions.js:156-174 | the fold depends only on the multiset of transactions, not on their order |
| Summary.NoMatchesGivesZero | src/routes/transactions.js:161-176 | when no scanned transaction matches, income, expenses and balance are all 0 |
| Summary.SummaryOfAppended | src/routes/transactions.js:161-176 | one more transaction in the scan moves income and balance by its amount if it matches and is income, moves expenses and the balance the other way if it matches and is expense, and changes nothing otherwise |
| Summary.SummaryOrderIndependent | src/routes/transactions.js:156-176 | two scans with the same multiset of transactions give the same totals |
| Summary.DateRangeInclusive | src/routes/transactions.js:145-150 | with both bounds, a transaction is kept exactly when start <= date <= end, so transactions dated on either bound are kept |
| Summary.OneBoundIsIgnored | src/routes/transactions.js:145-150 | with one bound or none, the result and the totals are those of the category condition alone |
| Summary.CategoryFilterExact | src/routes/transactions.js:152-154 | the category condition keeps exactly the transactions whose reference equals the id, with their multiplicity |
| Summary.FiltersCombineByAnd | src/routes/transactions.js:143-156 | the full query equals the date condition followed by the category condition |
| Summary.JanuaryExample | src/routes/transactions.js:138-182 | for January 2024, income 100 on Jan 1 counts, but expense 50 on Feb 1 and an expense at noon on Jan 31 do not (the end bound is Jan 31 at midnight): {100, 0, 100} |
| CategoryRoutes.Merge | src/routes/categories.js:40-44 | supplied fields replace the stored ones, absent fields and the id are kept |
| CategoryRoutes.Create | src/routes/categories.js:7-15 | Ok exactly for a valid body; the record then carries the body's name and type under an id not yet used, is added to the table, and nothing else changes; otherwise Invalid with the store unchanged; the invariant is kept |
| CategoryRoutes.List | src/routes/categories.js:17-24 | in a valid store, a category is listed exactly when it is stored under its own id |
| CategoryRoutes.Get | src/routes/categories.js:26-36 | Ok with the stored record exactly when the id is present, NotFound otherwise |
| CategoryRoutes.Update | src/routes/categories.js:38-52 | a missing id gives NotFound with the store unchanged; otherwise the stored record becomes the merge, and is the one returned; other categories, the transactions and the key set are unchanged |
| CategoryRoutes.Delete | src/routes/categories.js:54-64 | a missing id gives NotFound with the store unchanged; otherwise exactly that key is removed, and other categories and all transactions are unchanged |
| CategoryRoutes.GetAfterCreate | src/routes/categories.js:7-36 | a created category is then found under its new id with the body's fields |
| CategoryRoutes.CreateAddsOne | src/routes/categories.js:7-11 | in a valid store, creation grows the table by exactly one record and keeps every existing one |
| CategoryRoutes.DeleteUndoesCreate | src/routes/categories.js:7-64 | deleting a just-created category restores both tables |
| CategoryRoutes.ListAgreesWithGet | src/routes/categories.js:17-36 | a category is listed exactly when a read of its id returns it |
| CategoryRoutes.DeleteThenGone | src/routes/categories.js:26-64 | after a delete, reading the id and deleting it again both answer NotFound |
| CategoryRoutes.UpdateIdempotent | src/routes/categories.js:38-48 | repeating an update changes nothing further |
| CategoryRoutes.UpdateSkipsValidation | src/routes/categories.js:38-48 | an update can store a type outside the enum, or an empty name |
| TransactionRoutes.BodyDoc | src/routes/transactions.js:30-37 | the document built from a body references the given category and always has a date; it passes the transaction schema exactly when the body's type is in the enum and it has an amount and a non-empty description |
| TransactionRoutes.Populate | src/routes/transactions.js:57-61 | the resolved category is the stored one when the reference resolves, and absent when it dangles |
| TransactionRoutes.MergeTx | src/routes/transactions.js:99-108 | each of type, amount, description and date takes the body's value when supplied and keeps its own otherwise; the id and the category reference never change |
| TransactionRoutes.List | src/routes/transactions.js:9-20 | every stored transaction is listed with its category resolved, and nothing else is |
| TransactionRoutes.Create | src/routes/transactions.js:23-54 | no category object, or an invalid one, gives Unhandled (the failure escapes the handler) with the store unchanged; otherwise a new category is always added; the answer is Ok exactly when the transaction fields also validate, and the new transaction then references the new category, with the date defaulted to now; otherwise the answer is Invalid and the transactions are unchanged; the invariant is kept |
| TransactionRoutes.Get | src/routes/transactions.js:57-72 | Ok with the stored record and its resolved category exactly when the id is present, NotFound otherwise |
| TransactionRoutes.Update | src/routes/transactions.js:74-118 | NotFound with the store unchanged when the transaction is missing, or when a category object is sent and the referenced category is missing; otherwise the referenced category is merged in place when a category object is sent, only this transaction's scalar fields change, and the answer is the updated record with its category resolved |
| TransactionRoutes.Delete | src/routes/transactions.js:121-135 | a missing id gives NotFound with the store unchanged; otherwise only that transaction is removed and every category stays |
| TransactionRoutes.CreateAddsCategoryAndTransaction | src/routes/transactions.js:24-40 | a successful creation adds exactly one category and one transaction, both under unused ids, even when an identical category already exists |
| TransactionRoutes.CreateKeepsExisting | src/routes/transactions.js:24-40 | creation replaces no stored record, and the new category carries the body's name and type |
| TransactionRoutes.CreateLeavesOrphan | src/routes/transactions.js:29-53 | when the category saves but the transaction does not, the answer is Invalid and a new category remains that no transaction references |
| TransactionRoutes.GetAfterCreate | src/routes/transactions.js:23-72 | a created transaction is then found by its id, with the new category resolved |
| TransactionRoutes.ListAgreesWithGet | src/routes/transactions.js:9-72 | a transaction view is listed exactly when a read of its id returns it |
| TransactionRoutes.GetAfterUpdate | src/routes/transactions.js:99-114 | the update answers with exactly what a later read returns |
| TransactionRoutes.DeleteAfterCreateKeepsCategory | src/routes/transactions.js:121-131 | deleting a just-created transaction restores the transaction table and keeps its category |
| TransactionRoutes.UpdateKeepsReference | src/routes/transactions.js:84-108 | an update never changes the transaction's category reference, the set of category ids or any other transaction |
| TransactionRoutes.CategoryDeleteLeavesDangling | src/routes/categories.js:54-60 | deleting a referenced category succeeds and keeps the transaction; the transaction then reads with no category, and an update with a category object answers NotFound |
| TransactionRoutes.KindsAndSignsUnchecked | src/models/Transaction.js:3-28 | an income of any amount, negative included, is accepted under a new expense category, and the other way round |
| TransactionRoutes.UpdateMayStoreUnknownKind | src/routes/transactions.js:99-108 | an update can give a stored transaction a type outside the enum; in a valid store, replacing the transaction in a scan of the old store gives a scan of the new one, and the summary counts the updated transaction in neither total, wherever it sits in the scan |
| TransactionRoutes.SummaryOfStore | src/routes/transactions.js:156-176 | over a scan of the store, the query result holds exactly the stored transactions that match, and every scan of the same store gives the same totals |
| TransactionRoutes.SummaryAfterCreate | src/routes/transactions.js:23-40 | after a successful creation, the old scan followed by the new transaction is a scan of the new store; the totals move by its amount when it matches the query and are unchanged otherwise |
| TransactionRoutes.SummaryAfterDelete | src/routes/transactions.js:121-131 | after a delete, the scan without that transaction is a scan of the new store; if it matched the query, its amount is taken back out of income or expenses and the balance |

## Left out

- Server start-up (src/index.js): CORS and JSON middleware, the MongoDB connection and the environment variables. This is I/O plumbing.
- HTTP status codes, response JSON shapes and console logging. Each handler's outcome is a `Response` value instead.
- MongoDB query execution, `populate` joins and `createdAt`/`updatedAt` timestamps. They are modelled as map lookups. The summary's collection scan is a sequence parameter in any order, and the totals are proved independent of that order.
- ObjectId generation. A counter in the store stands in for it, and the invariant `Valid` states its freshness guarantee.
- JavaScript `Number` arithmetic on amounts. Amounts are integers, so the balance identity is exact, and floating-point rounding is not modelled.
- Parsing date strings and id strings, including the 500 path for malformed input. Dates and ids are already-parsed values.
- Type casting by Mongoose, such as a number given for a String path or a CastError on `amount`. Fields are already typed values.
- A client-supplied `_id` in a `POST /categories` body, and the duplicate-key error it can cause. Ids always come from the counter.
- Falsy but present values. On creation, a `date` of 0 or "" counts as absent, because of `req.body.date || new Date()`. An empty `startDate`, `endDate` or `category` query parameter counts as absent. Explicit `null` fields are not distinguished from absent ones.
- Async interleaving and the lack of atomicity between requests. Each handler is one sequential step. The only partial failure kept is the orphan category on creation. The second `findByIdAndUpdate` in the update handler cannot miss in a sequential run, so its 404 branch is not modelled.
- TransactionRoutes.Create: what happens after a failure escapes the handler is not modelled. Express 4 leaves the rejected promise unhandled, and Node 15 or later then exits by default. Express 5 passes it to its default error handler. `Unhandled` records only that the handler sent no response and wrote nothing.
- TransactionRoutes.Update: undefined fields in an update body are treated as stripped, so they leave stored values unchanged. Older Mongoose releases may send them as nulls instead.
- CategoryRoutes.Update: the same treatment of undefined fields applies.
