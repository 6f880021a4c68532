# Transaction webhook service — a Dafny model

This project models the transaction webhook flow of the service's Python
backend (`backend/python_backend/main.py`). The flow is a keyed state machine
over one table, `transactions`, whose rows are keyed by the unique column
`transaction_id`. Four operations act on it:

- **Intake** (`receive_webhook`). `POST /v1/webhooks/transactions` inserts a
  row with status `PROCESSING`, using `ON CONFLICT (transaction_id) DO NOTHING`.
  It schedules one background finalisation only when a row was actually
  created. It answers `202 {"message": "Accepted"}` in every case: new id,
  duplicate id, or storage error.
- **Finalisation** (`process_transaction`). After a delay, it runs an
  unconditional `UPDATE ... SET status = 'PROCESSED', processed_at = NOW(),
  updated_at = NOW()` for its id. Any error is swallowed.
- **Lookup** (`get_transaction`). Returns the stored row, 404 when there is
  none, and 500 on a database error.
- **List** (`get_all_transactions`). Caps `limit` at 1000 and returns
  `ORDER BY created_at DESC LIMIT limit OFFSET offset`.

How the model is built:

- The table is a `map<string, Record>`.
- The background tasks are a sequence of ids.
- Clock readings are abstract natural-number ticks, passed into each step.
- The 30-second delay is the scheduler's freedom to run any pending task at any
  later step.
- Database failures are explicit parameters. `StorageFault` says where the
  intake's storage step breaks. A `dbOk` flag says whether a task, lookup or
  listing reaches the database.

Modules:

- `Wrappers` (`wrappers.dfy`): `Option` and `Result`.
- `Transactions` (`transactions.dfy`): the row, the request body, its
  validation, and the limits the column types impose.
- `Intake` (`intake.dfy`): the insert-if-absent, the handler and the endpoint.
- `Finalizer` (`finalizer.dfy`): the `UPDATE` and one run of a background task.
- `Queries` (`queries.dfy`): lookup and listing, including the newest-first
  ordering.
- `Lifecycle` (`lifecycle.dfy`): events, runs of events, the state invariant
  and the lemmas over runs.

Behaviours of the code that the model keeps:

- **Exception after the commit.** The intake commits at main.py:184 and closes
  the cursor and connection before it schedules the task (main.py:185-194). If
  a close raises, the row is already stored but no task is ever scheduled.
  `FailsAfterCommit` models this. `Lifecycle.FaultsOrphanRows` and
  `Lifecycle.OrphanStaysProcessing` show that such a row stays `PROCESSING`
  forever. A failing task has the same effect.
- **Unguarded finalisation.** The `UPDATE` does not check the previous status
  (`Finalizer.FinalizeAgain`). A row is still finalised only once, because its
  one task is scheduled only when the row is created
  (`Lifecycle.FinishProcessesOnce`).
- **Rejected LIMIT/OFFSET values.** A negative `limit` survives `min(limit,
  1000)`. PostgreSQL then rejects the negative LIMIT, and the same happens for a
  negative OFFSET or one above the bigint range. The endpoint answers 500 in
  each case.

Further facts about the code that the model keeps:

- Only two statuses are ever written. Rows are born `PROCESSING` (main.py:55,
  170) and the finalizer makes them `PROCESSED` (main.py:115). No other status
  exists.
- A duplicate submission schedules no task (main.py:187-194).
- A storage error at intake is answered 202 (main.py:202-207).
- The 202 reply body is `{"message": "Accepted"}` (main.py:200). It does not
  echo the id or the status.
- The request model requires `amount > 0` (main.py:84), so zero is rejected.
- `currency` and `transaction_id` are not checked for content. The only limits
  on them are the column sizes (main.py:50, 54).
- psycopg2 refuses a string parameter that contains a NUL character. An intake
  whose strings contain one fails before the commit and is still answered 202.
  A lookup of such an id is answered 500, not 404.
- Background tasks live in the server process's memory. A restart drops every
  task still waiting, and the rows they were to finalise stay `PROCESSING`.

## Model

| member | source | states |
|---|---|---|
| Transactions.Validate | backend/python_backend/main.py:80-85 | A body is accepted exactly when all five fields are present and `amount > 0`. The accepted request carries the body's values unchanged. A rejected body names the offending fields: `amount` exactly when it is missing or not positive, and each of the four string fields exactly when it is missing. |
| Transactions.ValidateToRaw | backend/python_backend/main.py:80-85 | Round trip: the body of a request passes validation exactly when its amount is positive, and validation then gives back that request. |
| Intake.InsertIfAbsent | backend/python_backend/main.py:166-183 | `INSERT ... ON CONFLICT DO NOTHING RETURNING`. A row comes back exactly when the id was absent. The new row is the request's fields with status PROCESSING, no `processed_at`, and both timestamps at `now`. A present id leaves the table unchanged, and no existing row is ever overwritten. |
| Intake.ReceiveWebhook | backend/python_backend/main.py:161-207 | A known id changes nothing, whatever the payload. A failed insert changes nothing, and that includes values too long for their columns and strings containing NUL. A new id gains exactly its fresh row, with every other row unchanged. Exactly one task for it is appended, unless the fault comes after the commit, in which case none is. |
| Intake.PostWebhook | backend/python_backend/main.py:145-207 | The reply is 202 with message "Accepted" exactly when the body is well formed, whether the id is new, a duplicate, or the storage step fails. Otherwise the reply is 422 and the state is unchanged. The only key the call can add is the request's own id. |
| Intake.SubmitTwice | backend/python_backend/main.py:165-200 | Submitting the same id twice, with any second payload and any fault on the second call, gives two "Accepted" replies. The result is one row holding the first payload and one queued task. |
| Finalizer.MarkProcessed | backend/python_backend/main.py:112-122 | The UPDATE sets that row's status to PROCESSED and both `processed_at` and `updated_at` to `now`, leaving its payload untouched. Every other row is unchanged and the key set never changes. An absent id leaves the table unchanged. |
| Finalizer.FinalizeAgain | backend/python_backend/main.py:112-122 | Finalising an already PROCESSED row keeps it PROCESSED but moves `processed_at` to the new tick, because the UPDATE is not guarded on the prior status. |
| Finalizer.RunTask | backend/python_backend/main.py:98-132 | Running a task always removes it from the queue. On success its row becomes PROCESSED with `processed_at = now` and an unchanged payload. On error the table is unchanged, because the exception is swallowed. Keys and other rows are never affected. |
| Queries.GetTransaction | backend/python_backend/main.py:219-250 | Returns the stored row's fields exactly when the database answers, the driver accepts the id (no NUL) and the id is stored. Returns 404 exactly when the database answers, the driver accepts the id and the id is absent. Every other case is a 500. |
| Queries.EffectiveLimit | backend/python_backend/main.py:264-265 | The effective limit is at most 1000 and at most the requested limit, and equals one of them. |
| Queries.SortNewestFirst | backend/python_backend/main.py:272-273 | `ORDER BY created_at DESC`: the result is newest first and is a permutation of its input: the same rows, each as often as before. |
| Queries.SortKeepsIdsDistinct | backend/python_backend/main.py:272-273 | Ordering never duplicates a row: distinct ids stay distinct. |
| Queries.CollectRows | backend/python_backend/main.py:272 | `SELECT *` reads every row of the table exactly once, each one as stored under its own id. |
| Queries.OrderedRows | backend/python_backend/main.py:272-273 | Every row of the table, exactly once, newest first. |
| Queries.SelectPage | backend/python_backend/main.py:270-279 | The page is exactly the LIMIT/OFFSET window of some newest-first arrangement of the whole table, each row once. Its length is what LIMIT/OFFSET keeps of the table. Every element is a stored row, the page is newest first, and no id repeats. No row left off the page falls strictly between two rows on it. From offset 0, no row left off is newer than a row on the page, and a large enough limit returns every row. |
| Queries.SelectViews | backend/python_backend/main.py:269-295 | The response list is the fields of exactly the rows in the LIMIT/OFFSET window of some newest-first arrangement of the table, as many as LIMIT/OFFSET keeps, each a stored row's fields, newest first, each id once. No row whose id the list lacks falls strictly between two entries, and from offset 0 none is newer than an entry. |
| Queries.GetAllTransactions | backend/python_backend/main.py:252-300 | The call succeeds exactly when the database answers, `limit >= 0` and `0 <= offset <= 2^63-1`. Every other case is a 500. A successful reply is the fields of exactly the rows in the LIMIT/OFFSET window of some newest-first arrangement of the table. It holds at most `min(limit, 1000)` entries and exactly as many as LIMIT/OFFSET keeps. Each entry is a stored row's fields, in newest-first order, each id at most once. No row whose id the reply lacks falls strictly between two entries, and from offset 0 no such row is newer than any entry. |
| Queries.ListDefault | backend/python_backend/main.py:252-253 | Without query parameters (`limit` 100, `offset` 0) the call succeeds exactly when the database answers. The reply is the top of the newest-first table: `min(100, rows)` entries, and no row left out is newer than an entry. |
| Lifecycle.InitialInv | backend/python_backend/main.py:47-59 | The freshly created empty table with no tasks satisfies the invariant, and no PROCESSING row lacks a task. |
| Lifecycle.StepPreservesInv | backend/python_backend/main.py:112-194 | Every event keeps the invariant, a server restart included. Rows are filed under their ids with a positive amount, values that fit their columns, status PROCESSING or PROCESSED, and timestamps matching the status. Queued tasks are distinct and name stored PROCESSING rows. No event removes a key or changes a payload, and a PROCESSED row never changes again. |
| Lifecycle.RunPreservesInv | backend/python_backend/main.py:50-57 | Over any sequence of events, the invariant holds and the table only evolves as allowed. No key is deleted, no payload changes, and a PROCESSED row never returns to PROCESSING and is never rewritten. |
| Lifecycle.FinishProcessesOnce | backend/python_backend/main.py:112-194 | A task always finds its row PROCESSING. The task moves it to PROCESSED with `processed_at = now`, and no other task for that id remains, so each row is finalised at most once. |
| Lifecycle.ReliableRunKeepsNoOrphans | backend/python_backend/main.py:183-194 | When no storage step and no task fails, every PROCESSING row keeps a queued task. |
| Lifecycle.DrainIsRun | backend/python_backend/main.py:98-132 | Draining the queue, oldest task first, is the same as running one error-free `Finish` event per pending task. |
| Lifecycle.DrainProcessesEverything | backend/python_backend/main.py:98-122 | Start from a state with no orphaned rows and drain the queue without errors. The queue ends empty and the key set is unchanged. Every row ends PROCESSED. Each previously PROCESSING row gets the task's tick as `processed_at`, and rows that were already PROCESSED are untouched. |
| Lifecycle.OrphanStaysProcessing | backend/python_backend/main.py:183-194 | A PROCESSING row without a queued task is never changed again, and never gains a task, whatever events follow. |
| Lifecycle.FaultsOrphanRows | backend/python_backend/main.py:183-207 | An exception after the intake's commit stores a PROCESSING row with no task. A failing task leaves its row PROCESSING with no task left. A restart keeps the table but drops every waiting task, each of whose rows is PROCESSING. |
| Lifecycle.RestartStrandsPending | backend/python_backend/main.py:192-194 | A task waiting when the server restarts never runs. Its row stays PROCESSING, unchanged and without a task, whatever events follow. |
| Lifecycle.NeverSubmittedNotFound | backend/python_backend/main.py:223-233 | An id that no event's request carried, and that was not stored at the start, is answered 404 after any run, or 500 when the id contains NUL. |
| Lifecycle.SubmitThenFinish | backend/python_backend/main.py:166-244 | After a new request is accepted without fault, a lookup shows its fields with status PROCESSING and no `processed_at`. After its task runs without error, the lookup shows PROCESSED with the task's tick. |

## Left out

- FastAPI application setup, CORS middleware, routing decorators and the
  uvicorn entry point: framework plumbing with no logic of the flow.
- psycopg2 connections, cursors and commits, and the `create_tables` DDL: I/O.
  Only the uniqueness of `transaction_id` is kept, as the map key together with
  `KeysMatch`. A failure anywhere in them is the `StorageFault`/`dbOk`
  parameter.
- The surrogate `id SERIAL` column: nothing in the service reads it.
- `asyncio.sleep(30)`, the 500 ms latency target and the `time.time()`
  measurements: timing and concurrency. The delay is the separately scheduled
  `Finish` step, and the scheduler may run any pending task at any later step.
- Concurrent requests: they are modelled as an interleaving of atomic steps.
  Each SQL statement is atomic in PostgreSQL, and the unique index serialises
  conflicting inserts.
- The `float` amount and its conversion to DECIMAL(10, 2): floating point. The
  amount is an integer number of cents. Rounding to two decimals, and a positive
  float that rounds to 0.00, are not modelled.
- Column length limits: they are modelled only as the storage-failure branch,
  through `FitsSchema`. PostgreSQL silently truncates an over-long value whose
  excess characters are all spaces. The model treats every over-long value as a
  failure.
- ISO timestamp strings and the `float(...)` conversions in the responses:
  presentation. Timestamps are ticks and the amount stays an integer.
- Restarts are a single event that drops all waiting tasks at once. A restart
  in the middle of a task's 30-second sleep is the same as one before the task
  starts, because the sleep changes nothing.
- The 422 error body produced by the framework: only the status code and the
  names of the offending fields are modelled.
- The `print` logging and the `GET /` health check: no state, no logic of the
  flow.
- Type checking of the request body beyond field presence, such as a string
  sent for `amount`, and of the `limit`/`offset` query parameters. Fields are
  modelled by their types, so only a missing field or a non-positive amount can
  be rejected.
- The order among rows with equal `created_at`: the SQL leaves it open. The
  listing contracts hold for every such order, and the method itself computes
  one of them.
- Lookup and listing are read-only by construction. They take the table and
  return only a reply, so no separate "state unchanged" statement is made.
