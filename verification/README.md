# Inventory ledger — a Dafny model

This project models the core of a small multi-user inventory application. Every user owns
products. Each product holds its stock in batches ("lotes"): a lot code, an optional
expiration date and a quantity. A product's stock total is the sum of its batch
quantities. The views record inbound movements (ENTRADA) and outbound movements (SALIDA)
in an append-only log:

- An inbound movement finds or creates the batch keyed by (product, lot code) and adds the
  quantity to it.
- An outbound movement is refused when the stock total is too small. Otherwise it draws the
  quantity first-expired-first-out (FEFO) from the product's batches that hold stock, and
  records one fragment "{taken} ({lot code})" per batch it touched.

The dashboard shows:

- the total inventory value, the sum of price × stock total;
- the low-stock alerts;
- the number of batches expiring within 30 days.

The report counts the caller's inbound and outbound movements. The receipt lookup finds a
movement only among the caller's own.

Modules:

- `Models`: records, `StockOf` (the stock total) and the delete rules.
  - CASCADE from a product to its batches and movements.
  - SET_NULL from a client or supplier to the movements.
- `Text`: decimal rendering of a quantity and `sep.join`.
- `Fefo`: `Allocate`, the FEFO allocation as a recursive function over the batch visiting
  order, with its properties, and the proof that a valid visiting order always exists.
- `Errors`: not-found and insufficient-stock outcomes.
- `Ledger`: the `Store` class holding the tables, with one method per state-changing view.
  - Form checks are preconditions.
  - `Valid()` is the table invariant:
    - ids are below the counter;
    - batches belong to existing products;
    - (product, lot code) is unique;
    - movements are linked to their product, supplier and client with consistent owners;
    - movement ids are distinct (the log's primary key).
  - `TakeInOrder` is the outbound loop. It updates the batch table in place and is proved
    against `Fefo.Allocate`.
- `Dashboard`: value, alerts and expiring count. `Home` accumulates the total in a loop.
- `Reports`: report counts, receipt title and owner-scoped receipt lookup.

Prices are integer cents. Dates are integer day numbers. "Today" is a parameter.

## Model

| member | source | states |
|---|---|---|
| Models.StockOf | productos/models.py:38-41 | `stock_total`: the sum of the product's batch quantities; a product without batches has 0 (the `total if total else 0` case) |
| Models.NewLot | productos/models.py:44-47 | A batch created by the inbound lookup has the key and expiration date it was created with and holds 0 (`default=0`) |
| Models.StockOfZero | productos/models.py:38-41 | The stock total is 0 exactly when every batch of the product holds 0, in particular when it has none |
| Models.StockOfBound | productos/models.py:38-41 | No batch holds more than its product's stock total |
| Models.StockOfUpdate | productos/models.py:38-41 | Changing one batch's quantity moves its own product's total by the difference and no other product's |
| Models.StockOfAppend | productos/models.py:38-41 | A new batch adds its quantity to its own product's total only |
| Models.DeleteProductLots | productos/models.py:44 | CASCADE: after deleting a product, the remaining batches are exactly the batches of other products |
| Models.DeleteProductLotsStock | productos/models.py:44 | Deleting a product leaves every other product's stock total unchanged |
| Models.DeleteProductLotsUnique | productos/models.py:44 | Deleting a product keeps (product, lot code) unique |
| Models.DeleteProductMovements | productos/models.py:51 | CASCADE: the remaining movements are exactly those of other products |
| Models.DeleteProductMovementsIds | productos/models.py:49-51 | The movements left by the CASCADE keep distinct ids |
| Models.AppendFreshId | productos/models.py:49 | A movement appended with an id above every existing id keeps the ids distinct |
| Models.DetachClient | productos/models.py:59 | SET_NULL: every movement is kept; a reference to the deleted client becomes null; nothing else in a movement changes |
| Models.DetachSupplier | productos/models.py:58 | SET_NULL: every movement is kept; a reference to the deleted supplier becomes null; nothing else in a movement changes |
| Text.DecimalString | productos/views.py:170 | The rendering of a quantity is non-empty, all digits, and starts with 0 only for 0 |
| Text.DecimalRoundTrip | productos/views.py:170 | Reading back the rendering of a quantity gives the quantity |
| Text.Join | productos/views.py:174 | `", ".join`: empty for no parts, starts with the first part, and its length is the parts' total plus one separator between each two |
| Text.JoinAppend | productos/views.py:174 | A part appended to a non-empty list follows the joined text after exactly one separator, so the parts appear in order, each after a separator |
| Fefo.FefoOrderEmpty | productos/views.py:163 | A visiting order matching the query (`IsFefoOrder`: each batch of the product with stock exactly once, sorted by expiration date) is empty exactly when the stock total is 0 |
| Fefo.Allocate | productos/views.py:163-171 | Conservation: the amounts taken plus what is still pending equal the requested amount; at most one fragment per visited batch; no batch added or removed |
| Fefo.AllocateFrame | productos/views.py:168-169 | Only quantities change, and none is raised, so every batch ends with old − taken ≥ 0 |
| Fefo.AllocateOutside | productos/views.py:163-169 | A batch that is not visited is unchanged |
| Fefo.AllocateStock | productos/views.py:163-171 | The product's stock total drops by exactly the amount taken; other products' totals are unchanged |
| Fefo.AllocateTouched | productos/views.py:166-171 | Fragment k is the k-th visited batch: its lot code, a positive amount, and exactly that batch's drop; the loop stops as soon as nothing is pending |
| Fefo.AllocateUntouched | productos/views.py:166-167 | Batches after the loop stopped are unchanged and produce no fragment |
| Fefo.AllocateDrained | productos/views.py:166-171 | Every touched batch but the last is drained to 0, so at most one batch is partly drawn; if something is still pending, every visited batch is drained |
| Fefo.AllocateCovers | productos/views.py:160-171 | The allocation covers the whole amount exactly when the amount is at most the stock total |
| Fefo.AllocateFefo | productos/views.py:163-171 | First expired, first out: every batch drawn from expires no later than every other batch of the product that still holds stock |
| Fefo.FragmentText | productos/views.py:170 | A fragment is the canonical decimal rendering of the amount taken (digits that read back as the amount), followed by " (", the lot code and ")" |
| Fefo.Detail | productos/views.py:174 | The movement detail is empty exactly when no batch was touched, and starts with the first touched batch's fragment |
| Fefo.DetailAppend | productos/views.py:170-174 | One fragment per touched batch in visiting order: a single fragment is the whole detail, and each further fragment follows the detail so far after ", " |
| Fefo.FefoExample | productos/views.py:163-174 | Batches A (5 units, earlier) and B (5 units): an outbound of 7 leaves A at 0 and B at 3, and records "5 (A), 2 (B)" |
| Fefo.InsertByExpirySorted | productos/views.py:163 | Inserting a batch by expiration date keeps the visiting order sorted and free of repetitions |
| Fefo.FefoOrder | productos/views.py:163 | For either placement of undated batches, a visiting order exists: each batch of the product with stock exactly once, sorted by expiration date |
| Ledger.OwnedProduct | productos/views.py:107 | A product lookup succeeds exactly when the product exists and belongs to the caller; otherwise it fails with NotFound |
| Ledger.FindLot | productos/views.py:137-140 | The found batch has the (product, lot code) key; no result means no batch has that key |
| Ledger.Receive | productos/views.py:137-142 | The batches after an inbound: at most one batch is added, holding the key, the given date and the amount; the existing batches keep their keys |
| Ledger.ReceiveEffect | productos/views.py:137-142 | Existing key: only that batch's quantity grows, by the amount, and its expiration date is kept. New key: exactly one batch is added, with the amount and the given expiration date. No other batch changes, and keys stay unique |
| Ledger.ReceiveStock | productos/views.py:137-142 | An inbound movement raises its product's stock total by its quantity and no other product's |
| Ledger.InboundConsistent | productos/views.py:137-144 | Recording an inbound movement keeps the table invariant |
| Ledger.OutboundConsistent | productos/views.py:166-174 | Drawing from batches and appending the outbound movement keeps the table invariant |
| Ledger.DeleteProductConsistent | productos/views.py:118-123 | Deleting a product with its batches and movements keeps the table invariant |
| Ledger.Store.CreateProduct | productos/views.py:92-103 | The owner is always the caller; a missing minimum stock becomes 5; a fresh id; nothing else changes |
| Ledger.Store.EditProduct | productos/views.py:105-116 | Succeeds exactly on the caller's own product and keeps its owner; otherwise NotFound and no change |
| Ledger.Store.DeleteProduct | productos/views.py:118-123 | Succeeds exactly on the caller's own product, removing its batches and movements; otherwise NotFound and no change |
| Ledger.Store.CreateClient | productos/views.py:64-70 | The owner is always the caller; a fresh id |
| Ledger.Store.CreateSupplier | productos/views.py:71-77 | The owner is always the caller; a fresh id |
| Ledger.Store.DeleteClient | productos/models.py:59 | The client goes; its movements stay with the reference cleared; the invariant holds |
| Ledger.Store.DeleteSupplier | productos/models.py:58 | The supplier goes; its movements stay with the reference cleared; the invariant holds |
| Ledger.Store.RecordInbound | productos/views.py:127-149 | The batches become Receive of the old ones, the stock total rises by the quantity, and exactly one ENTRADA movement "Lote {code}" with the supplier is appended |
| Ledger.Store.RecordOutbound | productos/views.py:152-179 | Below the requested amount: InsufficientStock with the stock total, and no batch or movement changes. Otherwise: batches as Allocate leaves them, stock total down by exactly the amount, other products' batches unchanged, and one SALIDA movement with the requested quantity, the joined fragments and the client |
| Ledger.Store.TakeInOrder | productos/views.py:163-172 | The in-place loop over the visiting order leaves the batches and the detail text exactly as Allocate and Detail specify |
| Dashboard.Value | productos/views.py:36-38 | The sum of price × stock total over the listing; not negative when no listed price is |
| Dashboard.ValueAppend | productos/views.py:36-38 | The total value of two listings one after the other is the sum of their values |
| Dashboard.ValuePermutation | productos/views.py:36-38 | The total value does not depend on the order of the listing |
| Dashboard.Alerts | productos/views.py:41 | The alert list holds exactly the listed products whose stock total is at most their minimum |
| Dashboard.AlertsAppend | productos/views.py:41 | The alert list keeps listing order |
| Dashboard.ExpiringCount | productos/views.py:44-49 | The count of expiring batches: at most the number of batches, and 0 when none expires within the window |
| Dashboard.ExpiringCountIsSize | productos/views.py:44-49 | The expiring count is the number of the caller's batches with stock and a date in [today, today + 30], whatever the search |
| Dashboard.Home | productos/views.py:21-58 | The accumulated total is the listing's value; the alerts and their count; the expiring count over all the caller's batches |
| Reports.OwnedMovements | productos/views.py:184 | The report lists exactly the movements of the caller's products |
| Reports.CountKind | productos/views.py:190-191 | The `.count()` of one kind: at most the number of movements |
| Reports.KindCountsPartition | productos/views.py:190-191 | The ENTRADA count plus the SALIDA count is the number of movements |
| Reports.CountKindAppend | productos/views.py:190-191 | Counting over two logs one after the other adds their counts |
| Reports.ReportFor | productos/views.py:183-192 | The report holds exactly the caller's movements, and its two counts add up to their number |
| Reports.ReportAppend | productos/views.py:183-192 | A new movement of the caller's appears at the end of the log-ordered list (the page lists newest first, which is left out) and raises its kind's count by one; other users' reports do not change |
| Reports.ReceiptTitle | productos/views.py:239 | "NOTA DE ENTRADA" for an inbound movement, "NOTA DE SALIDA" for an outbound one |
| Reports.ReceiptTitleDistinct | productos/views.py:239 | The receipt title tells the two kinds of movement apart |
| Reports.FindOwnedMovement | productos/views.py:226 | The lookup returns a movement with the id that belongs to the caller, or NotFound when there is none |
| Reports.FindOwnedMovementUnique | productos/views.py:226 | With distinct ids, the lookup returns exactly the caller's movement with that id |
| Reports.ReceiptFor | productos/views.py:224-239 | A receipt exists exactly when the caller owns a movement with that id; its title follows the movement's kind |

## Left out

- Ledger.Store.RecordOutbound: takes the batch visiting order as a parameter, `order`, required to be a FEFO order (`Fefo.IsFefoOrder`). The model does not run the database query. Where the store places batches without an expiration date is a parameter too (first on SQLite and MySQL, last on PostgreSQL). `Fefo.FefoOrder` shows that such an order always exists.
- Dashboard.Contains: matches case-sensitively. The source's search ignores case, and case folding is not modelled.
- Dashboard.Home: takes the listing as a parameter that lists exactly the matching products of the caller (`IsListing`). The ordering by product name is not modelled. `Dashboard.ValuePermutation` shows that the total does not depend on it.
- Report date-range filter and newest-first ordering: movement timestamps are not modelled.
- Formatting of the total with thousands separators: the total is an integer number of cents.
- Limits left unchecked:
  - the 200-character limit on the movement detail is not enforced;
  - the widths of the integer columns are not modelled (integers are unbounded).
- Atomicity and concurrency: each method runs as one step. The source saves batch by batch, without a transaction.
- (product, lot code) uniqueness is a database constraint nowhere. The model keeps it as an invariant of the views.
- Auth, the views outside the core, and file handling:
  - login, password change, flash messages, template rendering and URL routing;
  - PDF rendering and the download header;
  - the company profile and logo;
  - product images.
- Listing of clients and suppliers on the contacts page: a plain filter on the owner, like `Reports.OwnedMovements`.
- Deleting a client or supplier: the source has no view for it. The model covers the SET_NULL data rule with no owner check.
- Deleting a user (CASCADE to everything the user owns): users are not modelled.
- Ids: one counter serves all tables. Database sequences are per table.
- The product form always sends a minimum stock. The default of 5 applies when none is given (`CreateProduct` takes an optional value).
