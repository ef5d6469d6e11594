# Sales and audit core of a small commerce back office

This project is a Dafny model of two pieces of a Flask/SQLAlchemy back office for clients, products, orders and order items.

- **The store's write routes** (`APLICACAO_WEB.py`). These are registering and editing a client, registering and editing a product, placing a sale (`criar_venda`), and the three delete routes.
  - The store is the class `Ledger.Store`. It holds four tables keyed by integer id and the id counter that the database sequences stand for.
  - A sale is one unit of work. Each `"produto_id,qtd"` field is read with Python's `str.split` and `int()` rules (module `PyText`). The lines are checked in request order, each against the stock the earlier lines left. Stock is decremented and one item is stored per line. The total is summed exactly.
  - The first refusal rolls everything back.
  - The delete routes refuse a client that still has orders and a product that items still name. Deleting an order cascades to its items.
- **The audit recorder** (`audito.py`). These are the `before_flush` and `after_flush` hooks, modelled as the class `Audit.Session`, with `_dump_columns` and `_changes_dict` written as loops against pure specifications.
  - What the ORM reports about an object is given as plain data: its class, identity, columns and attribute histories, and whether it is modified.
  - One flush adds, in order:
    - an INSERT entry with the full snapshot for each new object of an audited class;
    - an UPDATE entry with the `{field: [before, after]}` diff for each modified object with an identity and a non-empty diff;
    - a DELETE entry for each snapshot saved before the flush.

Modules:
- `Results`: `Option` and `Result`.
- `PyText`: `int()`, `str(int)`, `str.split` and `str.join` on `seq<char>`.
- `Catalog`: the records, and the pure rules of a sale and of the form fields.
- `Ledger`: the loop of a sale over pending copies of the tables, and the `Store` class.
- `Audit`: snapshots, diffs, the entries of a flush, and the `Session` class.

Prices and totals are Dafny `real`, standing for exact `Decimal` values.

Two modelling choices follow from the code:
- The product forms accept any integer stock (APLICACAO_WEB.py:69,98), so the model does not assume that stock is non-negative. Instead, `PlaceOrder` and `SaleKeepsStock` prove that a sale never makes a non-negative stock negative.
- The sale handler creates the order before its lines and sets its total after them (APLICACAO_WEB.py:151-153,189). The model stores the order once, with its final total, at commit. The store's tables never show the order with a zero total. The audit log of the real program does: see "## Left out".

## Model

| member | source | states |
|---|---|---|
| PyText.ParseIntRoundTrip | APLICACAO_WEB.py:160-161 | `int()` reads back every integer that `str()` writes: `ParseInt(IntToString(n)) == Some(n)` for every `n`, negative ones included |
| PyText.JoinSplit | APLICACAO_WEB.py:159 | joining the pieces of `s.split(sep)` with `sep` gives back `s` |
| PyText.SplitJoin | APLICACAO_WEB.py:159 | splitting the join of separator-free pieces gives back exactly those pieces |
| Catalog.ParseItemRoundTrip | APLICACAO_WEB.py:157-163 | every line the sale form can post as `"produto_id,qtd"` is read back as that line |
| Catalog.ParseItemOneComma | APLICACAO_WEB.py:159 | a field is read as a line only if it holds exactly one comma (the split must give two parts) |
| Catalog.CheckLine | APLICACAO_WEB.py:158-174 | an accepted field parses to its line, and names an existing product with a positive quantity that the product's current stock covers |
| Catalog.CheckLines | APLICACAO_WEB.py:157-180 | an accepted request gives one line per field, each naming an existing product with a positive quantity |
| Catalog.CheckLinesAccepted | APLICACAO_WEB.py:157-180 | the line-by-line loop against the stock left by earlier lines accepts exactly the requests in which every field parses, every quantity is positive, every product exists, and the original stock of each line's product covers everything asked of it up to that line |
| Catalog.CheckLinesStockSuffices | APLICACAO_WEB.py:172-180 | for every product in an accepted request, the total requested across all lines is at most its original stock, so repeated products are checked cumulatively |
| Catalog.Receipt | APLICACAO_WEB.py:182-187 | one item per line in request order, for the new order, at the product's price when the line is read |
| Catalog.ItemsTotalAppend | APLICACAO_WEB.py:155-177 | the exact total of two groups of items is the sum of their totals |
| Ledger.StagedStock | APLICACAO_WEB.py:173-180 | after a sale's lines, every product's stock is its original stock minus the total the lines asked of it; every other field is unchanged |
| Ledger.StagedReceipt | APLICACAO_WEB.py:176-189 | a sale stores exactly its receipt under the ids after the order's and keeps every earlier item; the order's total is the exact sum of `unitPrice * quantity` over that receipt |
| Ledger.ReceiptConsistent | APLICACAO_WEB.py:182-187 | adding a new order and items that name it and existing products, under fresh ids, keeps all references and ids valid |
| Ledger.SaleConsistent | APLICACAO_WEB.py:150-190 | the tables after an accepted sale are consistent: the order's client exists, its items name it and existing products, and every id is below the counter |
| Ledger.SaleKeepsStock | APLICACAO_WEB.py:172-180 | an accepted sale leaves no stock negative that was non-negative before |
| Ledger.SaleCommits | APLICACAO_WEB.py:150-190 | committing an accepted sale keeps the tables consistent and keeps non-negative stock non-negative |
| Ledger.StageLines | APLICACAO_WEB.py:155-188 | the loop over the fields, on pending tables: it refuses with exactly the line checks' first refusal, or returns the tables and total of staging exactly the accepted lines |
| Ledger.Sell | APLICACAO_WEB.py:143-188 | the handler up to its commit: a missing or zero client id or an empty item list is refused as missing input, then an unknown client by its id; otherwise the answer is the line checks' first refusal or the staging of the accepted lines, exactly as `Outcome` gives it |
| Ledger.Store.RegisterClient | APLICACAO_WEB.py:22-30 | a blank name is refused with nothing changed; otherwise one client is added under a fresh id, with an empty e-mail stored as none |
| Ledger.Store.EditClient | APLICACAO_WEB.py:38-54 | an unknown id is not found and a blank name is refused, with nothing changed; otherwise name and e-mail are replaced |
| Ledger.Store.RegisterProduct | APLICACAO_WEB.py:66-85 | a blank name or a missing price is refused; otherwise one product is added, with stock 0 when none is given |
| Ledger.Store.EditProduct | APLICACAO_WEB.py:94-116 | unknown id or blank name or price is refused with nothing changed; otherwise name, price and category are replaced, and the stock is kept when none is supplied |
| Ledger.Store.PlaceOrder | APLICACAO_WEB.py:135-197 | all-or-nothing. A missing or zero client id or an empty item list is refused as missing input, and an unknown client is refused by its id. Any refusal is the first one the handler meets, and no table or counter changes. On success there is one new order with status `"pago"` and the exact total, one item per line, and each product's stock is down by exactly what was asked of it. The tables stay consistent and a non-negative stock stays non-negative |
| Ledger.Store.Record | APLICACAO_WEB.py:189-190 | the commit of an accepted sale: the order with its total under the next id, which no order had yet, its items and the new stock are stored together; the tables stay consistent and a non-negative stock stays non-negative |
| Ledger.Store.DeleteClient | APLICACAO_WEB.py:202-217 | a client with orders is refused, with the count, and nothing changes; otherwise exactly that client is removed |
| Ledger.Store.DeleteProduct | APLICACAO_WEB.py:219-234 | a product that items name is refused, with the count, and nothing changes; otherwise exactly that product is removed |
| Ledger.Store.DeleteOrder | APLICACAO_WEB.py:236-246 | an existing order is removed together with exactly its items; the tables stay consistent |
| Audit.PkText | audito.py:47 | the entity key is `"?"` exactly when the object has no identity |
| Audit.PkTextReadsBack | audito.py:47 | the key of an object with an identity reads back as that identity, so distinct identities give distinct keys |
| Audit.SnapshotHasColumns | audito.py:7-20 | every mapped column's key is in the snapshot |
| Audit.SnapshotOnlyColumns | audito.py:7-20 | the snapshot has no key that is not a column's key |
| Audit.SnapshotCell | audito.py:12-19 | each key holds the normalised value of its column, or None when reading it raised |
| Audit.DumpColumns | audito.py:7-20 | the loop over the columns builds exactly the snapshot |
| Audit.DiffHasReported | audito.py:22-36 | every attribute that has changes, a key, and a new value that is not a related object is in the diff |
| Audit.DiffOnlyReported | audito.py:22-36 | the diff holds no other key |
| Audit.DiffChange | audito.py:27-35 | each reported key maps to `[first deleted or None, first added or None]`, both normalised |
| Audit.DiffEmpty | audito.py:22-36 | the diff is empty exactly when no attribute is reported |
| Audit.ChangesDict | audito.py:22-36 | the loop over the attributes builds exactly the diff |
| Audit.WatchedOnlyExact | audito.py:5 | the audited objects of a flush are exactly those of the watched classes, each as often as it occurs |
| Audit.InsertOnePerWatched | audito.py:57-70 | exactly one INSERT entry per new watched object, in order, with its class, key, the session's user and ip, and `{"after": snapshot}` |
| Audit.UpdateWhen | audito.py:73-89 | a dirty object gets an UPDATE entry exactly when it is watched, has an identity, is modified, and has a reported attribute; the entry is exactly the class name, the identity's key, the session's user and ip, and the diff |
| Audit.PendingOnePerWatched | audito.py:44-50 | the pre-flush hook saves exactly one snapshot per deleted watched object, in order |
| Audit.DeleteEntries | audito.py:91-101 | one DELETE entry per saved snapshot, in order: entry k carries snapshot k's entity and key, the session's user and ip, and `{"before": snapshot}` |
| Audit.FlushEntriesOrdered | audito.py:52-101 | every entry of a flush carries the session's user and ip; INSERTs and UPDATEs name watched classes; INSERTs come first, then UPDATEs, then DELETEs |
| Audit.EntriesNotAudited | audito.py:5 | the entries themselves, flushed as new `AuditLog` rows, add no further entry |
| Audit.Session.constructor | audito.py:41-42 | no snapshot saved and nothing logged before the first flush |
| Audit.Session.BeforeFlush | audito.py:39-50 | the saved list is replaced by exactly the snapshots of this flush's deleted watched objects |
| Audit.Session.AfterFlush | audito.py:52-101 | the log grows by exactly the flush's entries: INSERTs, UPDATEs, then DELETEs |
| Audit.Session.AddInserts | audito.py:57-70 | the log grows by exactly the INSERT entries |
| Audit.Session.AddUpdates | audito.py:72-89 | the log grows by exactly the UPDATE entries |
| Audit.Session.AddDeletes | audito.py:91-101 | the log grows by exactly the DELETE entries of the saved snapshots |
| Audit.Session.Flush | audito.py:39-101 | one flush logs exactly the entries of its changes and keeps this flush's snapshots |
| Audit.Session.Commit | audito.py:41-43 | a commit, that is, the flush of the changes and then the flush of the new entries, logs each change exactly once, with no entry about an entry and no delete reported twice |

## Left out

- The Flask layer is not modelled: routing, templates, `flash`, redirects, and the listing and form routes. A form field read with `type=int` arrives as an `Option<int>` that is absent when the field is missing or unreadable. `get_or_404` is the `NotFound` refusal.
- The `type=float` price fields are not modelled. A price arrives as an exact `real`, or absent. `Decimal(str(produto.preco))` is taken as the exact stored price.
- `int()` accepts only ASCII digits and ASCII whitespace here. Python also accepts other Unicode decimal digits and whitespace.
- PyText.ParseInt: there is no limit on the number of digits. CPython 3.11 and later (and the 3.7-3.10 security releases) refuse a decimal string of more than 4300 digits, leading zeros included; the limit can be reconfigured. With such an interpreter, a field like `"0"*4300 + "1,1"` is an invalid item and the sale is rolled back (APLICACAO_WEB.py:160-163, 194-197), while the model reads it as product 1, quantity 1. `ParseIntRoundTrip` likewise holds only below that limit on those interpreters, where `str()` of a longer integer raises too.
- Decimal's 28-digit context is not modelled: totals are exact sums.
- The model hands out ids from one counter shared by all tables; the database's own sequences are not modelled. A refused sale does not advance it, although a real sequence keeps the id taken by the flush at APLICACAO_WEB.py:153. The extra flush itself and autoflush are not modelled.
- An unknown client id in a sale is modelled as the refusal the order's foreign key causes at that flush. The model files (`models.py`) are not part of this model. The foreign key from an order to its client and the `ondelete` settings are plain assumptions, not stated anywhere in the routes; only the cascade from an order to its items is named, in a comment at APLICACAO_WEB.py:240.
- The category reference of a product is stored as given and not checked. Categories, suppliers, files and users are not modelled as tables.
- The store's changes are not turned into the flush inputs of `Audit.Session`. SQLAlchemy decides which objects are new, dirty or deleted. In particular, it decides whether the items removed by an order's cascade appear among the deleted objects of that flush.
- The audit entries of a sale's first flush are not modelled. The real handler flushes at APLICACAO_WEB.py:153, so both audit hooks run there: the log gets an INSERT of the order whose snapshot still lacks its total, and the commit adds an UPDATE of `valor_total`. The model's order is stored once, with its final total, so this pair of entries does not arise.
- Store: a failing commit is not modelled. The handlers roll back and report the error when the commit raises (APLICACAO_WEB.py:51-54, 81-83, 113-116, 194-197, 214-216, 231-233, 243-245; in `cadastrar_cliente` the error is uncaught). Causes include a database constraint the model does not know of, and a value outside a column's integer range. In the model, every registration, edit, delete and accepted sale whose guards pass commits.
- Concurrency is not modelled: row locking, two sales against the same product, and sessions shared between requests.
- The entries' `created_at` timestamp is not modelled. The JSON encoding of `changes` and the key order of a snapshot dictionary are not modelled either: snapshots and diffs are maps.
- Audit.Normalize: a float is modelled as the exact value of the Decimal it comes from, without binary rounding.
- `isinstance` is modelled as membership of the class name in the watched set: subclasses of watched classes are not modelled. The identity is the first component of the identity key, as an integer. This assumes that every watched table has a single integer key: the routes show it for clients, products and orders (APLICACAO_WEB.py:37, 202, 219, 236), and the keys of the other watched tables are assumed, since `models.py` is not part of this model.
- The application factory (`app.py`), the demo-user script (`criar_usuarios_demo.py`), the DDL migration (`migrar_auditoria.py`), and `register_audit_listeners`, which does nothing, are not part of this model.
