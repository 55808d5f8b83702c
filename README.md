# ankiplace canvas core, in Dafny

ankiplace is a shared 32 x 32 pixel canvas. Users earn paint by sending in
proofs that they reviewed flash cards. Ten new proofs in one submission buy
one paint, and one paint recolours one cell. The server is a FastAPI
application over SQLite with three tables. This project models those tables
and the state logic of the routes over them:

- `canvas`: one row per cell, holding its colour, last editor and last-modified time;
- `users`: the username, paint balance and creation time of each user id;
- `review_proofs`: the set of `(user_id, card_id, timestamp)` keys already credited.

The three tables are the fields `canvas: map<Pos, Cell>`, `users: map<UserId, User>`
and `proofs: set<ProofKey>` of one class, `AnkiPlace.Database`. Each route is
one method or function of that class. A route that can fail returns a
`Result` whose error kinds (`OutOfBounds`, `InvalidColor`, `NotFound`,
`InsufficientFunds`, `PixelNotFound`) stand in for the HTTP errors;
`RegisterUser` returns its `Registration` and `GetCanvas` its list of
colours directly. The object invariant `Valid()`
says four things:

- the canvas has a row for exactly the in-range cells;
- every stored colour is in the palette;
- no balance is negative;
- every recorded proof belongs to a registered user.

Every state-changing route preserves `Valid()`.

Files:

- `types.dfy` (module `Types`): the rows of the tables, the proof keys, the errors and the route results.
- `grid.dfy` (module `Grid`): grid size, palette, paint validation, the row-major index `y*32 + x` and its inverse, and the count of seeded cells.
- `awards.dfy` (module `Awards`): proof keys of a batch, the count of new proofs, the award rule, and lemmas on deduplication and on splitting a submission.
- `database.dfy` (module `AnkiPlace`): the `Database` class with `init_db`, the routes, and a two-call idempotence client.

The checks, branches, table updates and return values of each route appear
in the same order as in `main.py`.

When no canvas row exists at an in-range position, `get_pixel_details` does
not fail: it returns a body `{"error": "Pixel not found"}` with status 200
(main.py:163-164). The model returns `Err(PixelNotFound)` for it. Under
`Valid()` this case cannot happen.

## Model

| member | source | states |
|---|---|---|
| `Grid.PaintCheck` | main.py:169-172 | a paint request passes validation iff 0 <= x, y < 32 and 0 <= colour < 16; bounds are reported before the colour |
| `Grid.CellIndex` | main.py:127-132 | the snapshot index of an in-range cell is below 1024 and decodes back to x (index mod 32) and y (index div 32) |
| `Grid.PositionOf` | main.py:127-132 | every index below 1024 names an in-range cell whose row-major index is that index (inverse of `CellIndex`) |
| `Grid.FullGridSize` | main.py:76-81 | a canvas whose keys are exactly the in-range cells has exactly 1024 rows |
| `Awards.Award` | main.py:244-248 | the award is the floor of new proofs over 10: award * 10 <= new < (award + 1) * 10 |
| `Awards.BatchKeysSize` | main.py:234-242 | a batch never counts more new proofs than it has distinct keys, nor more distinct keys than entries |
| `Awards.BatchKeysMembers` | main.py:234-241 | a key is among a batch's keys iff some entry of the batch has that `(user, card_id, timestamp)` |
| `Awards.BatchStep` | main.py:236-242 | handling one more entry adds its key and counts it as new iff it is neither recorded before nor seen earlier in the batch |
| `Awards.BatchKeysAppend` | main.py:234-242 | the keys of `a + b` are the keys of `a` together with those of `b` |
| `Awards.RecordedBatchIsNotNew` | main.py:236-242 | a batch has zero new proofs iff every one of its entries is already recorded, so a resubmitted batch adds nothing |
| `Awards.SplitSubmissionCountsOnce` | main.py:234-242 | submitting `a` then `b` finds as many new proofs in total as submitting `a + b` at once: each proof is credited at most once across calls |
| `Awards.SplitSubmissionAward` | main.py:244-248 | splitting a submission in two never earns more paint than one combined submission, and earns at most one less |
| `Awards.DistinctFreshBatchIsNew` | main.py:234-242 | a batch of pairwise distinct keys, none recorded, counts every entry as new |
| `Awards.NineThenSixteenLosesOnePaint` | main.py:244-248 | 25 distinct new proofs earn 2 paint in one call but only 0 + 1 when sent as 9 and then 16 (no remainder is banked) |
| `AnkiPlace.Database.constructor` | main.py:42-86 | a fresh database after `init_db` holds the initial canvas of 1024 blank cells, no users and no proofs, and is `Valid()` |
| `AnkiPlace.Database.InitDb` | main.py:75-81 | an empty canvas is seeded with exactly the in-range cells, each colour 0, no editor, time 0; a non-empty canvas, the users and the proofs are left as they were |
| `AnkiPlace.Database.GetCanvas` | main.py:115-134 | the snapshot has 1024 entries, the entry at `y*32 + x` is the colour of cell (x, y), and every entry is a palette index |
| `AnkiPlace.Database.EditorName` | main.py:145-150 | the editor's name is present iff the cell has an editor who has a user row, and is then that user's username |
| `AnkiPlace.Database.GetPixelDetails` | main.py:136-164 | out-of-range coordinates give `OutOfBounds`; otherwise the cell's colour, editor id and time with the left-joined username; on a valid database every in-range cell is found |
| `AnkiPlace.Database.Paint` | main.py:166-201 | errors in the order bounds, colour, unknown user, balance < 1; every failure leaves all three tables unchanged; success sets exactly cell (x, y) to the colour, user and time, lowers that user's balance by exactly 1, and changes nothing else; never succeeds on a balance below 1, and always succeeds once the checks pass for a known user with a balance of at least 1 |
| `AnkiPlace.Database.RegisterUser` | main.py:203-216 | adds the fresh id with the given name, balance 0 and the creation time, and changes nothing else; `GetUser` then returns that name and time and `GetBalance` returns 0 |
| `AnkiPlace.Database.RecordIfNew` | main.py:236-241 | reports whether the key was absent, and leaves it recorded |
| `AnkiPlace.Database.RecordBatch` | main.py:234-242 | the loop records exactly the batch's keys and counts the distinct ones not recorded before |
| `AnkiPlace.Database.CreditIfPositive` | main.py:250-252 | the user's balance rises by exactly the award, and a zero award changes nothing |
| `AnkiPlace.Database.SubmitReviews` | main.py:218-257 | an unknown user gives `NotFound` and changes nothing; otherwise `new_proofs` is the number of the batch's distinct keys not recorded before, `paint_awarded` is its floor over 10, the proof set becomes the old set plus the batch's keys, the balance rises by exactly the award, and nothing else changes |
| `AnkiPlace.Database.GetBalance` | main.py:259-270 | the balance of a registered user, never negative on a valid database; `NotFound` iff the user is unknown |
| `AnkiPlace.Database.GetUser` | main.py:272-283 | the username and creation time of a registered user; `NotFound` iff the user is unknown |
| `AnkiPlace.SubmitTwice` | main.py:234-252 | submitting the same batch twice: the second call reports 0 new proofs and 0 paint, and the state is the one the first call left |

## Left out

- HTTP transport: FastAPI routing, the pydantic request models and the mapping from errors to status codes (main.py:4-9, 89-111). Only the error kinds remain.
- `verify_secret`, the shared-secret header check in front of `submit_reviews` (main.py:18-20). It is authentication glue outside the state logic.
- `check_rate_limit` (main.py:22-27). It depends on float wall-clock time and a global dictionary, and no route calls it.
- SQLite itself: connections, the database path and directory (main.py:30-40) and the SQL text. The tables are in-memory maps and a set.
- `uuid.uuid4()` and `time.time()` (main.py:189, 206-207). The caller passes the fresh id and the current time in. `RegisterUser` requires an id not yet in `users`. A colliding id would make the INSERT fail in the source, and that path is not modelled.
- Concurrency and transaction isolation. Each route is one atomic sequential method, so interleavings of concurrent debits on one user are not modelled.
- Integer width: SQLite stores `paint_balance` and `card_id` as 64-bit integers. The model uses unbounded integers, so overflow on very large balances is not captured.
- Floating point: timestamps are Dafny `real`, compared only for equality. Float rounding of `time.time()` and of submitted timestamps is not modelled.
- NaN timestamps: the request model accepts a NaN `timestamp`, which SQLite stores as NULL. `timestamp = NULL` never matches in the duplicate check (main.py:236-238), so main.py counts a NaN-stamped proof as new on every submission. A `Time` is a `real` and has no NaN, so the model's exactly-once crediting (`SplitSubmissionCountsOnce`, `SubmitTwice`) does not cover that input.
- Out-of-range card ids: a `card_id` outside the signed 64-bit range makes the SQLite driver raise an error inside the loop of `submit_reviews` (main.py:234-241). The request then fails and its uncommitted inserts are discarded. The model has unbounded `cardId` and counts such a proof as new.
- The order in which `get_canvas` reads the rows. SQL gives no order, and the model takes the rows in an arbitrary order. The result does not depend on it.
- `Paint` requires `Valid()`, so the canvas row at (x, y) always exists. The source would still debit when its UPDATE matched no row. That can only happen on a canvas that `init_db` never seeded, which the startup call at main.py:86 rules out.
