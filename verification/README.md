# Product catalogue: in-memory store and record constraints

This project models the core of a small product catalogue service. The catalogue keeps
products in process memory, in a table from integer id to product and a counter that
gives the next id (starting at 1). Creating a product builds it with the counter's
value as its id, stores it under that id and advances the counter. Looking a product up
by id returns it, or nothing when the id is not a key.

Which products may exist is decided by the record definitions. The input record
`ProductCreate` needs a name of at least one character and a price strictly greater
than zero. `Product` inherits both fields and their constraints and adds a required
`id` and a creation time. Building either record checks each field on its own and
reports one error per offending field.

Files:

- `wrappers.dfy`: `Option` (a lookup that may find nothing) and `Result` (a record, or
  the validation report that stopped it being built).
- `models.dfy` (module `Models`): the two records, their validity predicates, and the
  validating constructors `NewProductCreate` and `NewProduct`.
- `storage.dfy` (module `Storage`): the store as a value (`Catalogue`). `Create`,
  `Lookup` and `CreateAll` (a run of creates) say what the operations do to it, and
  lemmas prove the store's promises about them. The class `InMemoryStorage` updates its
  `products` map and `nextId` counter in place. Its methods are proved against
  `Create` and `Lookup`.

The store's invariant (`Storage.Inv`) says three things. Every key `k` satisfies
`1 <= k < nextId`. The product stored under `k` has id `k`. Every stored product
satisfies the field constraints. Every operation preserves it. From it follow:

- ids are unique;
- N creates from a fresh store hand out ids 1..N in order;
- a create followed by a lookup of its id finds the product;
- an id never handed out is absent.

Two points about the code shape the model:

- `create_product` builds the product through the validating `Product(...)`
  constructor, so it re-validates the fields. `Create` and `CreateProduct` therefore
  return the validation report when the fields are invalid, and the store is left
  unchanged. Lemma `CreateValidSucceeds` shows that valid input is always stored.
- The application defines only a health route and no item endpoints, so the model has
  no HTTP layer.

## Model

| member | source | states |
|---|---|---|
| `Models.FieldErrors` | api/models.py:9-10 | Each field is checked on its own. The report is empty exactly when the name has length at least 1 and the price is above 0. It holds a name error iff the name is empty and a price error iff the price is at most 0. There is at most one error per field, with name before price. |
| `Models.NewProductCreate` | api/models.py:6-10 | A `ProductCreate` is built exactly when `len(name) >= 1` and `price > 0`. It then carries the given name and price unchanged. Otherwise the non-empty field report is returned. |
| `Models.NewProduct` | api/models.py:13-17 | A `Product` is built exactly when an id is given and the inherited constraints hold. It carries the given id, name, price and creation time and is valid. When the id is absent the report is exactly the name and price errors followed by a missing-id error, because `id` is required and has no default. |
| `Models.ProductExtendsProductCreate` | api/models.py:13-16 | Given an id, a `Product` is built exactly when the `ProductCreate` with the same name and price is. Its inherited fields equal that record, and when refused the two reports are the same. |
| `Models.BothFieldsReported` | tests/test_fastapi_template.py:78-85 | An empty name with price -100 is refused with exactly two errors: one for `name`, then one for `price`. |
| `Storage.Empty` | api/storage.py:7-9 | A fresh store satisfies the invariant, has next id 1, and every lookup on it finds nothing. |
| `Storage.Lookup` | api/storage.py:22-24 | A lookup finds a product iff the id is a key, and then returns the product stored under it. Under the invariant, the found product has the looked-up id, that id is in `[1, nextId)`, and the product is valid. |
| `Storage.Create` | api/storage.py:11-20 | A create succeeds iff the input is valid. On success the product has id = the old counter and the input's name and price. The counter goes up by one. The new key was not present before. The table is the old one with only that key added. The invariant is preserved. On failure the field report is returned and there is no new state. |
| `Storage.CreateValidSucceeds` | api/storage.py:13-17 | Input that passes `ProductCreate` validation is always stored, with id = the counter. |
| `Storage.CreateThenLookup` | api/storage.py:18-24 | Round trip: looking up the id a create returned finds exactly the returned product. Every other id looks up as before. |
| `Storage.UnassignedIsAbsent` | api/storage.py:18-24 | Under the invariant, an id below 1 or at or past the counter is absent. |
| `Storage.IdsUnique` | api/storage.py:14-19 | Under the invariant, two stored products with the same id are stored under the same key. |
| `Storage.CreateAll` | api/storage.py:11-20 | A run of creates, by a caller that catches each refusal and goes on, keeps the invariant. It stores one product per valid request; an invalid one stores nothing and uses no id. Their ids are consecutive from the starting counter, and the counter ends just past the last of them. |
| `Storage.CreateAllKeys` | api/storage.py:18-19 | After a run of creates, the keys are exactly the old keys plus the ids handed out during the run. |
| `Storage.CreateAllKeepsStored` | api/storage.py:18 | After a run of creates, every previously stored id is still a key and maps to the same product as before. |
| `Storage.CreateAllStoresEach` | api/storage.py:18-24 | After a run of creates, every product it returned is found by a lookup of its id. |
| `Storage.CreateAllKeepsFields` | api/storage.py:13-17 | When every request is valid, the i-th product of a run has id = start + i. It also has the i-th request's name and price and the i-th clock reading. |
| `Storage.FromEmptyIdsAreOneToN` | api/storage.py:8-19 | From a fresh store, N valid creates return ids 1..N in creation order, the i-th with the i-th request's name and price. Each is found under its id, the stored ids are exactly 1..N, and the next id is N+1. |
| `Storage.FreshStoreScenario` | tests/api/test_storage.py:5-23 | On a fresh store, creating ("テスト商品", 100) yields id 1 with that name, and a lookup of 1 finds it. Looking up 999 finds nothing. |
| `Storage.InMemoryStorage.constructor` | api/storage.py:7-9 | A new store has an empty table and next id 1, and satisfies the invariant. |
| `Storage.InMemoryStorage.CreateProduct` | api/storage.py:11-20 | In place: the new state and the result are what `Create` gives for the old state. The invariant is kept. On success the product's id is the old counter and the counter is one greater. Only the new key, absent before, is written. On a refused input nothing changes. |
| `Storage.InMemoryStorage.GetProduct` | api/storage.py:22-24 | It changes nothing and returns what `Lookup` gives. A found product carries the requested id and is valid. An id outside `[1, nextId)` gives `None`. |
| `Storage.CreateThenGetScenario` | tests/api/test_storage.py:5-23 | Driving the `InMemoryStorage` object as the unit tests do, on a new store a create of ("テスト商品", 100) succeeds with id 1 and that name and price. `GetProduct(1)` returns that same product and `GetProduct(999)` returns `None`. |

## Left out

- `created_at` reads the wall clock. It is an opaque `Timestamp` that the caller passes in (`now`, or `clock` for a run of creates), and nothing relates one reading to another.
- `price` is a float in the source. The model uses a mathematical `real`, so NaN, infinities and rounding are not modelled. No arithmetic is done on the price.
- Coercion of input types (an integer or numeric string accepted as a price, and so on) and the wording and serialisation of validation errors are not modelled. Validation is reduced to which fields fail and why.
- The health route in api/main.py is a constant response and is not modelled. There are no item endpoints in the application code, so the HTTP status mapping is not modelled.
- The Streamlit front end and its HTTP calls (ui/main.py) are I/O and rendering.
- Test scaffolding (tests/context.py and the template, placeholder and browser-driven tests) is not modelled.
- Concurrency: the store has no synchronisation. The model is sequential and says nothing about interleaved creates.
- InMemoryStorage.CreateProduct and InMemoryStorage.GetProduct: in the source, the returned product is the same mutable object the store holds, and `Product` does not forbid assigning to its fields. A caller that sets `p.id` or `p.name` on a returned product changes the stored entry. The model treats products as immutable values, so it does not capture this aliasing. `Inv` and `IdsUnique` therefore hold only while callers do not mutate a product they got back.
