# Feedback intake and relay, modelled in Dafny

This project models the core of the feedback aggregator worker
(`src/index.ts`). The worker takes feedback records from outside sources,
stores them in a table, and relays the pending ones to a downstream
processor. The model has three parts:

- **Intake validator** (`feedback.dfy`, module `Feedback`): `parseFeedback`
  turns an untyped request body into a record or rejects it. It follows
  JavaScript truthiness: a field that is absent, `null`, `""` or `0` is
  falsy. The clock and the freshly generated id are parameters.
- **Record store** (`store.dfy`, module `Store`): the `feedback` table is a
  sequence of rows in insertion order. It has four operations:
  - the insert of `storeFeedback`;
  - the pending-batch query of `fetchPendingFeedback`;
  - the point update of `updateFeedbackStatus`;
  - the filter/order/limit/offset query of `handleGet`.

  `ORDER BY created_at` is a stable insertion sort, so rows with equal
  timestamps keep their table order.
- **Relay loop** (`relay.dfy`, module `Relay`): `processQueue` fetches up to
  ten pending records oldest-first and submits each one in turn. A record
  is marked `processed` only when the processor answers 200 and the status
  update goes through. Everything else counts as failed and leaves the
  record pending. Three parameters stand in for the outside world:
  - the processor's reply to each submission (a status code, or a thrown
    error);
  - whether each status update succeeds;
  - the clock each update reads.

  Together these form the `Env` record. The loop is a recursive function
  over the batch. `ProcessQueue` returns three things:
  - the summary `{processed, failed, errors}`;
  - the store the run leaves behind;
  - the records submitted, in order.

`scenarios.dfy` (module `Scenarios`) works through two concrete runs:
- the oldest-first batch;
- the at-least-once relay over two passes, where a record rejected on the
  first pass is delivered on the second.

`wrappers.dfy` holds `Option`.

The code is looser than its `Feedback` interface (src/index.ts:12-24)
declares, and the model follows the code:
- **Source and status values are not checked.** The validator never checks
  `source` against the six sources that interface lists, nor `status` against the
  three statuses. Any non-empty string passes
  (`ParseAcceptsAnySourceAndStatus`).
- **Timestamp order is not an invariant.** Caller-supplied timestamps are
  taken verbatim, so `updated_at >= created_at` does not hold of stored
  records (`ParseTrustsTimestamps`, `ParsedTimestampsMayBeOutOfOrder`).
- **The store round trip is not always exact.** Storing a record and reading
  it back returns it unchanged only when no optional string is present but
  empty and the status is set. Otherwise an empty optional string comes back
  absent (`StoreThenReadRoundTrip`).

## Model

| member | source | states |
|---|---|---|
| `Feedback.EpochSeconds` | src/index.ts:74 | The timestamp is the whole number of seconds in the millisecond clock reading: `s * 1000 <= ms < (s + 1) * 1000`. |
| `Feedback.ParseFeedback` | src/index.ts:69-89 | The body is rejected exactly when it is missing or its `content` or `source` is falsy. An accepted record carries a non-empty id, source, content and status, and its source and content are the body's. |
| `Feedback.ParseDefaults` | src/index.ts:74-88 | For `id`, `status`, `metadata`, `created_at` and `updated_at` of an accepted body: a truthy (for metadata: present) value from the body is kept, and otherwise the field gets its default. The defaults are: generated id, `pending`, `{}`, and the clock's seconds for each timestamp. The optional strings are copied verbatim. |
| `Feedback.MinimalPayloadDefaults` | src/index.ts:74-88 | A body with only `source` and `content` gets the generated id, status `pending`, empty metadata, and `created_at == updated_at ==` the clock's seconds. |
| `Feedback.ParseAcceptsAnySourceAndStatus` | src/index.ts:70-84 | Any non-empty source and status are accepted and kept; there is no enum check. |
| `Feedback.ParseTrustsTimestamps` | src/index.ts:86-87 | Every accepted body with non-zero `created_at` and `updated_at` keeps both values unchanged, whatever their order. |
| `Feedback.ParsedTimestampsMayBeOutOfOrder` | src/index.ts:86-87 | A body with `created_at` 20 and `updated_at` 10 is accepted with both values, so `updated_at >= created_at` is not an invariant of parsed records. |
| `Store.StoreThenReadRoundTrip` | src/index.ts:43-64 | Reading back (as `fetchPendingFeedback` does at src/index.ts:226-238) the row that `storeFeedback` binds gives the original record exactly when the record is canonical. The read-back record is always canonical. |
| `Store.Insert` | src/index.ts:43-64 | Inserting a record with a fresh id appends one row and keeps every earlier row. The id set grows by exactly that id, and distinct ids stay distinct. The row carrying the id is the record's row. |
| `Store.SortByCreated` | src/index.ts:223 | `ORDER BY created_at` (ascending or descending) yields the same rows, as a permutation, in order. |
| `Store.Window` | src/index.ts:352-353 | `LIMIT/OFFSET` yields `min(limit, n - offset)` rows, or none past the end, and row `i` of the result is row `offset + i` of the input. |
| `Store.PendingRows` | src/index.ts:222-224 | The batch has at most `limit` rows: exactly `min(limit, #pending)`. Every row in it is pending and comes from the table, the rows are ascending by `created_at`, and no row appears more often than in the table. |
| `Store.FetchPending` | src/index.ts:221-239 | The records fetched number at most `limit`, all have status `pending`, and are ascending by `created_at`. They are, one for one and in order, the read-back of the pending batch `PendingRows`, so they are exactly the `min(limit, #pending)` oldest pending rows. |
| `Store.PendingRowsIsPrefix` | src/index.ts:223-224 | The batch is a prefix of all pending rows in ascending `created_at` order. |
| `Store.PendingBatchIsOldestFirst` | src/index.ts:223-224 | No pending row left out of the batch is older than any row in it, so no record starves behind newer ones. |
| `Store.PendingRowsPrefix` | src/index.ts:223-224 | The batch under a smaller limit is a prefix of the batch under a larger one. |
| `Store.PendingRowsOfOrderedBacklog` | src/index.ts:223-224 | When every row is pending, already oldest-first and within the limit, the batch is the whole table in table order. |
| `Store.UpdateStatus` | src/index.ts:244-253 | The update keeps the table's length. Every row keeps all fields except status and `updated_at`. Rows with the id get the new status and the clock's seconds; all other rows are unchanged. |
| `Store.UpdatePreservesIds` | src/index.ts:251 | The update keeps the set of ids and the distinct-ids invariant. |
| `Store.UpdateAbsentIsNoOp` | src/index.ts:251 | Updating an id that no row carries leaves the table unchanged. |
| `Store.UpdateIdempotent` | src/index.ts:244-253 | Repeating the same update with the same clock changes nothing more. |
| `Store.UpdatesCommute` | src/index.ts:251 | Updates of two different ids commute. |
| `Store.Listing` | src/index.ts:339-352 | The filtered listing is descending by `created_at`. Each row appears as often as in the table if it matches the truthy `source`/`status` filters, and not at all otherwise. |
| `Store.Inspect` | src/index.ts:339-353 | The inspection query returns at most `limit` rows. Every row matches the filters and comes from the table, and the rows are descending by `created_at`. No row appears more often than in the table. With `n` matching rows it returns `min(limit, n - offset)` rows (none when `offset >= n`), and row `i` is row `offset + i` of the filtered, newest-first listing. |
| `Store.InspectPagesConcatenate` | src/index.ts:352-353 | The page at `offset` of size `a`, followed by the page at `offset + a` of size `b`, is the page at `offset` of size `a + b`. |
| `Store.InspectIsComplete` | src/index.ts:339-353 | A page from offset 0 whose limit covers the table holds exactly the matching rows, with their multiplicities. |
| `Relay.VisitEffect` | src/index.ts:271-299 | One visit submits the record and appends it to the sent list. A delivered record adds one to `processed` and is marked by the update. Any other outcome adds one to `failed`, appends the record's error entry, and leaves the store unchanged. |
| `Relay.RelayFrom` | src/index.ts:271-300 | The loop from position `j` adds `|batch| - j` to `processed + failed`. It adds the number of delivered positions to `processed` and the expected error entries, in order, to `errors`. It submits exactly the remaining records in batch order, and it keeps the store's length. |
| `Relay.ProcessQueue` | src/index.ts:258-303 | A run submits exactly the fetched batch, in fetch order. `processed + failed` is the batch size, which is at most 10, and `errors` has one entry per failure. `processed` counts the delivered records, and `errors` lists each undelivered record's id and cause in order. The store's length is unchanged. |
| `Relay.ExpectedErrorsLength` | src/index.ts:288-298 | Error entries plus delivered records account for every batch position. |
| `Relay.RelayKeepsRow` | src/index.ts:271-300 | A row whose id the loop does not deliver comes out of the loop unchanged. |
| `Relay.RelayMarksRow` | src/index.ts:285-287 | The row of a delivered batch record comes out marked `processed` at the clock of its update, given distinct ids. |
| `Relay.DeliveredRowMarked` | src/index.ts:285-287 | After a run, the row of each delivered record is marked `processed` at the clock its update read. |
| `Relay.UndeliveredRowUntouched` | src/index.ts:288-299 | After a run, every row whose id was not delivered is unchanged, whether or not it was in the batch. |
| `Relay.ProcessQueueTransitions` | src/index.ts:284-299 | A run changes only pending rows, only into `processed`, and only in status and `updated_at`. Afterwards a row is pending exactly when it was pending before and was not delivered. |
| `Relay.FailedRecordStaysPending` | src/index.ts:288-299 | A batch record that was not delivered keeps its row exactly, still pending, so the next run fetches it again. |
| `Relay.EmptyBatchIsNoOp` | src/index.ts:264-268 | With nothing pending, a run returns `{0, 0, []}`, submits nothing and leaves the store as it was. |
| `Scenarios.OldestTwoFirst` | src/index.ts:223-224 | Three pending records, the newest inserted first: a batch of two is the two oldest, oldest first. |
| `Scenarios.FirstPass` | src/index.ts:258-303 | Three pending records, the second rejected with a 500: the run reports two processed, one failed and the second's error. It marks the first and third and leaves the second as it was. |
| `Scenarios.AtLeastOnceOverTwoPasses` | src/index.ts:258-303 | The same run followed by a second one that accepts the remaining record reports one processed, none failed, and leaves no record pending. |

## Left out

- HTTP routing, the `handlePost`/`handleGet`/`handleProcessQueue` wrappers and their response bodies are not modelled: they are plumbing around the modelled operations.
- Serving the Swagger UI and the OpenAPI document is not modelled: it is static content.
- JSON is not modelled. Metadata is an opaque string map, and the record sent to the processor is the `Feedback` value itself. A `JSON.parse` failure on a stored metadata blob is not modelled.
- A body that is not an object, or whose fields have the wrong JSON type, is reduced to "no body" or left out. Timestamps are integers; a fractional or non-numeric timestamp is not modelled.
- `Date.now`, `Math.random` and the `fb-…` id format are not modelled; the clock reading and the generated id are parameters. Uniqueness of generated ids is probabilistic and cannot be proved.
- Store.Insert: the table's primary key is not visible in the code. A duplicate id is excluded by a precondition instead of being modelled as a storage error.
- Store.Insert: a failing `INSERT` (other than on a duplicate id) makes `storeFeedback` throw; storage failures are not modelled and the insert always succeeds.
- Store.ToRow: the `null` branch of the metadata serialisation is not reachable from a parsed record, because a record's metadata is always an object. Rows read back without metadata are still handled by `FromRow`.
- Store.SortByCreated: SQL leaves the order of rows with equal `created_at` unspecified. The model fixes it to table order.
- Store.Inspect: `limit` and `offset` are naturals. The `parseInt` of the query string, its defaults of 50 and 0, and negative or non-numeric values are not modelled.
- Relay.ProcessQueue: the error text and the `response.text()` read are not modelled. An error entry is the record's id and its cause: a non-200 status, or a thrown error.
- Relay.ProcessQueue: a failure of the batch query in `fetchPendingFeedback` makes the whole run throw, so the handler answers 500; it is not modelled and the query always succeeds.
- Relay.ProcessQueue: the transport, timeouts, and what a failed status update did to the row before it threw are not modelled. A failed update leaves the store unchanged.
- Concurrent runs of `processQueue`, and the double submission they allow, are not modelled: each run is one sequential pass.
