/** The relay loop: drain one batch of pending records to the downstream
    processor and mark a record processed only when the processor accepted
    it and the status update went through. */
module Relay {
  import opened Feedback
  import opened Store

  /** Records fetched per run. */
  const BatchSize: nat := 10
  /** The one response status the loop treats as acceptance. */
  const OkStatus: int := 200

  /** What a submission to the processor produced: a thrown error
      (transport failure, timeout) or a response with its status code. */
  datatype Reply = Threw | Answered(status: int)

  /** Everything the loop learns from outside the store, by position in the
      batch: the processor's reply to the j-th submission, whether the j-th
      status update succeeds, and the clock that update reads. */
  datatype Env = Env(reply: (nat, Feedback) -> Reply, writeOk: nat -> bool, clockMs: nat -> nat)

  /** Why a record was not marked processed. */
  datatype Cause = NotOk(status: int) | Exception
  datatype RelayError = RelayError(id: string, cause: Cause)

  /** The summary a run returns. */
  datatype Tally = Tally(processed: nat, failed: nat, errors: seq<RelayError>)

  /** A run's summary, the store it leaves, and the records it submitted,
      in submission order. */
  datatype Run = Run(tally: Tally, store: seq<Row>, sent: seq<Feedback>)

  /** The j-th batch record counts as processed: the processor answered
      exactly 200 and the status update did not throw. */
  predicate Delivered(env: Env, j: nat, row: Row) {
    env.reply(j, FromRow(row)) == Answered(OkStatus) && env.writeOk(j)
  }

  /** The cause recorded for a batch record that was not delivered. */
  function CauseOf(env: Env, j: nat, row: Row): Cause {
    match env.reply(j, FromRow(row))
    case Answered(code) => if code != OkStatus then NotOk(code) else Exception
    case Threw => Exception
  }

  /** A pending row as the loop leaves it once delivered at clock `clockMs`. */
  function Marked(row: Row, clockMs: nat): Row {
    row.(status := Processed, updated_at := EpochSeconds(clockMs))
  }

  /** One pass of the loop body for the j-th batch record: submit it, and on
      a 200 mark it processed; any other status, or an error thrown by the
      submission or by the update, counts it as failed. */
  function Visit(run: Run, j: nat, row: Row, env: Env): Run {
    var f := FromRow(row);
    var sent := run.sent + [f];
    var t := run.tally;
    match env.reply(j, f)
    case Threw =>
      Run(Tally(t.processed, t.failed + 1, t.errors + [RelayError(f.id, Exception)]), run.store, sent)
    case Answered(code) =>
      if code != OkStatus then
        Run(Tally(t.processed, t.failed + 1, t.errors + [RelayError(f.id, NotOk(code))]), run.store, sent)
      else if !env.writeOk(j) then
        Run(Tally(t.processed, t.failed + 1, t.errors + [RelayError(f.id, Exception)]), run.store, sent)
      else
        Run(Tally(t.processed + 1, t.failed, t.errors),
            UpdateStatus(run.store, f.id, Processed, env.clockMs(j)), sent)
  }

  /** The positions from `j` on whose records are delivered. */
  function DeliveredFrom(batch: seq<Row>, j: nat, env: Env): set<nat> {
    set i: nat | j <= i < |batch| && Delivered(env, i, batch[i])
  }

  /** The ids of the records delivered from position `j` on. */
  function DeliveredIds(batch: seq<Row>, j: nat, env: Env): set<string> {
    set i: nat | j <= i < |batch| && Delivered(env, i, batch[i]) :: batch[i].id
  }

  /** The error list expected from position `j` on: one entry per record
      not delivered, in batch order. */
  function ExpectedErrors(batch: seq<Row>, j: nat, env: Env): seq<RelayError>
    requires j <= |batch|
    decreases |batch| - j
  {
    if j == |batch| then []
    else
      (if Delivered(env, j, batch[j]) then [] else [RelayError(batch[j].id, CauseOf(env, j, batch[j]))])
      + ExpectedErrors(batch, j + 1, env)
  }

  /** The visit classifies each record as `Delivered` says, and changes the
      store only for a delivered record. */
  lemma VisitEffect(run: Run, j: nat, row: Row, env: Env)
    ensures var r := Visit(run, j, row, env);
      && r.sent == run.sent + [FromRow(row)]
      && (Delivered(env, j, row) ==>
            && r.tally == run.tally.(processed := run.tally.processed + 1)
            && r.store == UpdateStatus(run.store, row.id, Processed, env.clockMs(j)))
      && |r.store| == |run.store|
      && (!Delivered(env, j, row) ==>
            && r.tally == Tally(run.tally.processed, run.tally.failed + 1,
                                run.tally.errors + [RelayError(row.id, CauseOf(env, j, row))])
            && r.store == run.store)
  {
  }

  /** Peeling position `j` off the delivered positions. */
  lemma DeliveredFromStep(batch: seq<Row>, j: nat, env: Env)
    requires j < |batch|
    ensures |DeliveredFrom(batch, j, env)|
         == |DeliveredFrom(batch, j + 1, env)| + (if Delivered(env, j, batch[j]) then 1 else 0)
  {
    var D := DeliveredFrom(batch, j + 1, env);
    assert j !in D;
    assert DeliveredFrom(batch, j, env) == D + (if Delivered(env, j, batch[j]) then {j} else {});
  }

  lemma RecordsStep(batch: seq<Row>, j: nat)
    requires j < |batch|
    ensures Records(batch[j..]) == [FromRow(batch[j])] + Records(batch[j + 1..])
  {
  }

  /** The `for … of` loop from position `j` on. */
  function RelayFrom(batch: seq<Row>, j: nat, run: Run, env: Env): (r: Run)
    requires j <= |batch|
    decreases |batch| - j
    ensures r.tally.processed + r.tally.failed == run.tally.processed + run.tally.failed + (|batch| - j)
    ensures r.tally.processed == run.tally.processed + |DeliveredFrom(batch, j, env)|
    ensures r.tally.errors == run.tally.errors + ExpectedErrors(batch, j, env)
    ensures r.sent == run.sent + Records(batch[j..])
    ensures |r.store| == |run.store|
  {
    if j == |batch| then
      assert DeliveredFrom(batch, j, env) == {};
      run
    else
      var next := Visit(run, j, batch[j], env);
      var r := RelayFrom(batch, j + 1, next, env);
      VisitEffect(run, j, batch[j], env);
      RelayStep(batch, j, run, next, r, env);
      r
  }

  /** What the loop from position `j + 1` on accounts for, together with the
      visit of position `j`, is what the loop from `j` on accounts for. */
  lemma RelayStep(batch: seq<Row>, j: nat, run: Run, next: Run, r: Run, env: Env)
    requires j < |batch|
    requires next.sent == run.sent + [FromRow(batch[j])] && |next.store| == |run.store|
    requires Delivered(env, j, batch[j]) ==> next.tally == run.tally.(processed := run.tally.processed + 1)
    requires !Delivered(env, j, batch[j]) ==>
      next.tally == Tally(run.tally.processed, run.tally.failed + 1,
                          run.tally.errors + [RelayError(batch[j].id, CauseOf(env, j, batch[j]))])
    requires r.tally.processed + r.tally.failed == next.tally.processed + next.tally.failed + (|batch| - (j + 1))
    requires r.tally.processed == next.tally.processed + |DeliveredFrom(batch, j + 1, env)|
    requires r.tally.errors == next.tally.errors + ExpectedErrors(batch, j + 1, env)
    requires r.sent == next.sent + Records(batch[j + 1..])
    requires |r.store| == |next.store|
    ensures r.tally.processed + r.tally.failed == run.tally.processed + run.tally.failed + (|batch| - j)
    ensures r.tally.processed == run.tally.processed + |DeliveredFrom(batch, j, env)|
    ensures r.tally.errors == run.tally.errors + ExpectedErrors(batch, j, env)
    ensures r.sent == run.sent + Records(batch[j..])
    ensures |r.store| == |run.store|
  {
    DeliveredFromStep(batch, j, env);
    ErrorsStep(batch, j, env, run.tally.errors);
    SentStep(batch, j, run.sent);
    if Delivered(env, j, batch[j]) {
      assert next.tally.errors == run.tally.errors;
    }
  }

  /** Appending position `j`'s error entry, if any, and then the entries
      from `j + 1` on gives the entries from `j` on. */
  lemma ErrorsStep(batch: seq<Row>, j: nat, env: Env, errors: seq<RelayError>)
    requires j < |batch|
    ensures Delivered(env, j, batch[j]) ==>
      errors + ExpectedErrors(batch, j + 1, env) == errors + ExpectedErrors(batch, j, env)
    ensures !Delivered(env, j, batch[j]) ==>
      errors + [RelayError(batch[j].id, CauseOf(env, j, batch[j]))] + ExpectedErrors(batch, j + 1, env)
        == errors + ExpectedErrors(batch, j, env)
  {
    var rest := ExpectedErrors(batch, j + 1, env);
    if !Delivered(env, j, batch[j]) {
      var e := RelayError(batch[j].id, CauseOf(env, j, batch[j]));
      assert ExpectedErrors(batch, j, env) == [e] + rest;
      assert errors + [e] + rest == errors + ([e] + rest);
    }
  }

  /** Submitting position `j` and then the records from `j + 1` on submits
      the records from `j` on. */
  lemma SentStep(batch: seq<Row>, j: nat, sent: seq<Feedback>)
    requires j < |batch|
    ensures sent + [FromRow(batch[j])] + Records(batch[j + 1..]) == sent + Records(batch[j..])
  {
    RecordsStep(batch, j);
  }

  /** `processQueue`: fetch up to ten pending records oldest-first and relay
      them one at a time; an empty batch returns at once. */
  function ProcessQueue(store: seq<Row>, env: Env): (r: Run)
    ensures var batch := PendingRows(store, BatchSize);
      && r.sent == FetchPending(store, BatchSize)
      && r.tally.processed + r.tally.failed == |batch| <= BatchSize
      && |r.tally.errors| == r.tally.failed
      && r.tally.processed == |DeliveredFrom(batch, 0, env)|
      && r.tally.errors == ExpectedErrors(batch, 0, env)
      && |r.store| == |store|
  {
    var batch := PendingRows(store, BatchSize);
    var start := Run(Tally(0, 0, []), store, []);
    if |batch| == 0 then
      assert DeliveredFrom(batch, 0, env) == {};
      start
    else
      assert batch[0..] == batch;
      var r := RelayFrom(batch, 0, start, env);
      ExpectedErrorsLength(batch, 0, env);
      r
  }

  /** One error entry per record not delivered. */
  lemma {:induction false} ExpectedErrorsLength(batch: seq<Row>, j: nat, env: Env)
    requires j <= |batch|
    decreases |batch| - j
    ensures |ExpectedErrors(batch, j, env)| + |DeliveredFrom(batch, j, env)| == |batch| - j
  {
    if j < |batch| {
      ExpectedErrorsLength(batch, j + 1, env);
      DeliveredFromStep(batch, j, env);
    } else {
      assert DeliveredFrom(batch, j, env) == {};
    }
  }

  /** The loop from position `j` on leaves alone a row whose id it does not
      deliver. */
  lemma {:induction false} RelayKeepsRow(batch: seq<Row>, j: nat, run: Run, env: Env, k: nat)
    requires j <= |batch| && k < |run.store|
    requires run.store[k].id !in DeliveredIds(batch, j, env)
    decreases |batch| - j
    ensures RelayFrom(batch, j, run, env).store[k] == run.store[k]
  {
    if j < |batch| {
      var next := Visit(run, j, batch[j], env);
      VisitEffect(run, j, batch[j], env);
      assert !(Delivered(env, j, batch[j]) && batch[j].id == run.store[k].id);
      assert next.store[k] == run.store[k];
      assert DeliveredIds(batch, j + 1, env) <= DeliveredIds(batch, j, env);
      RelayKeepsRow(batch, j + 1, next, env, k);
      assert RelayFrom(batch, j, run, env) == RelayFrom(batch, j + 1, next, env);
    }
  }

  /** The loop from position `j` on marks the row of the delivered record at
      position `i` processed, at the clock its update read. Needs distinct
      ids in the batch, which the primary key guarantees. */
  lemma {:induction false} RelayMarksRow(batch: seq<Row>, j: nat, run: Run, env: Env, i: nat, k: nat)
    requires UniqueIds(batch)
    requires j <= i < |batch| && k < |run.store|
    requires batch[i].id == run.store[k].id && Delivered(env, i, batch[i])
    decreases |batch| - j
    ensures RelayFrom(batch, j, run, env).store[k] == Marked(run.store[k], env.clockMs(i))
  {
    var next := Visit(run, j, batch[j], env);
    VisitEffect(run, j, batch[j], env);
    if i == j {
      assert next.store[k] == Marked(run.store[k], env.clockMs(j));
      forall m | j + 1 <= m < |batch| && Delivered(env, m, batch[m]) ensures batch[m].id != next.store[k].id {
        assert m != j;
      }
      RelayKeepsRow(batch, j + 1, next, env, k);
    } else {
      assert batch[j].id != batch[i].id;
      assert next.store[k] == run.store[k];
      RelayMarksRow(batch, j + 1, next, env, i, k);
    }
    assert RelayFrom(batch, j, run, env) == RelayFrom(batch, j + 1, next, env);
  }

  /** The batch a run relays has distinct ids. */
  lemma BatchIdsUnique(store: seq<Row>)
    requires UniqueIds(store)
    ensures UniqueIds(PendingRows(store, BatchSize))
  {
    UniqueIdsOfSelection(store, PendingRows(store, BatchSize));
  }

  /** After a run, the row of a delivered batch record is marked processed
      at the clock its update read. */
  lemma DeliveredRowMarked(store: seq<Row>, env: Env, i: nat, k: nat)
    requires UniqueIds(store)
    requires i < |PendingRows(store, BatchSize)| && k < |store|
    requires PendingRows(store, BatchSize)[i].id == store[k].id
    requires Delivered(env, i, PendingRows(store, BatchSize)[i])
    ensures ProcessQueue(store, env).store[k] == Marked(store[k], env.clockMs(i))
  {
    var batch := PendingRows(store, BatchSize);
    var start := Run(Tally(0, 0, []), store, []);
    BatchIdsUnique(store);
    RelayMarksRow(batch, 0, start, env, i, k);
    ProcessQueueRelaysBatch(store, env);
  }

  /** After a run, a row whose id was not delivered, inside the batch or
      outside it, is untouched. */
  lemma UndeliveredRowUntouched(store: seq<Row>, env: Env, k: nat)
    requires k < |store|
    requires store[k].id !in DeliveredIds(PendingRows(store, BatchSize), 0, env)
    ensures ProcessQueue(store, env).store[k] == store[k]
  {
    var batch := PendingRows(store, BatchSize);
    if |batch| > 0 {
      RelayKeepsRow(batch, 0, Run(Tally(0, 0, []), store, []), env, k);
      ProcessQueueRelaysBatch(store, env);
    }
  }

  /** A run with a non-empty batch is the loop over that batch from a zero
      summary and the store as it was. */
  lemma ProcessQueueRelaysBatch(store: seq<Row>, env: Env)
    requires |PendingRows(store, BatchSize)| > 0
    ensures ProcessQueue(store, env)
         == RelayFrom(PendingRows(store, BatchSize), 0, Run(Tally(0, 0, []), store, []), env)
  {
  }

  /** A store row shares its id with a batch record exactly when it is that
      record. */
  lemma BatchRowIsStoreRow(store: seq<Row>, i: nat, k: nat)
    requires UniqueIds(store)
    requires i < |PendingRows(store, BatchSize)| && k < |store|
    requires PendingRows(store, BatchSize)[i].id == store[k].id
    ensures store[k] == PendingRows(store, BatchSize)[i]
  {
    var row := PendingRows(store, BatchSize)[i];
    assert row in store;
    var m :| 0 <= m < |store| && store[m] == row;
    assert m == k;
  }

  /** A run changes only pending rows, and only into `processed`; after it a
      row is pending exactly when it was pending and its id was not
      delivered. */
  lemma ProcessQueueTransitions(store: seq<Row>, env: Env)
    requires UniqueIds(store)
    ensures var batch := PendingRows(store, BatchSize);
      var r := ProcessQueue(store, env);
      forall k :: 0 <= k < |store| ==>
        && (r.store[k] != store[k] ==>
              IsPending(store[k]) && r.store[k].status == Processed && SameRecord(store[k], r.store[k]))
        && (IsPending(r.store[k]) <==> IsPending(store[k]) && store[k].id !in DeliveredIds(batch, 0, env))
  {
    forall k | 0 <= k < |store| {
      RowTransition(store, env, k);
    }
  }

  /** The transition of one row over a run. */
  lemma RowTransition(store: seq<Row>, env: Env, k: nat)
    requires UniqueIds(store) && k < |store|
    ensures var batch := PendingRows(store, BatchSize);
      var r := ProcessQueue(store, env);
      && (r.store[k] != store[k] ==>
            IsPending(store[k]) && r.store[k].status == Processed && SameRecord(store[k], r.store[k]))
      && (IsPending(r.store[k]) <==> IsPending(store[k]) && store[k].id !in DeliveredIds(batch, 0, env))
  {
    var batch := PendingRows(store, BatchSize);
    if store[k].id in DeliveredIds(batch, 0, env) {
      var i :| 0 <= i < |batch| && Delivered(env, i, batch[i]) && batch[i].id == store[k].id;
      BatchRowIsStoreRow(store, i, k);
      DeliveredRowMarked(store, env, i, k);
    } else {
      UndeliveredRowUntouched(store, env, k);
    }
  }

  /** A batch record that was not delivered keeps its row exactly as it
      was, still pending, so the next run fetches it again. */
  lemma FailedRecordStaysPending(store: seq<Row>, env: Env, i: nat, k: nat)
    requires UniqueIds(store)
    requires i < |PendingRows(store, BatchSize)| && k < |store|
    requires !Delivered(env, i, PendingRows(store, BatchSize)[i])
    requires store[k].id == PendingRows(store, BatchSize)[i].id
    ensures ProcessQueue(store, env).store[k] == store[k]
    ensures IsPending(ProcessQueue(store, env).store[k])
  {
    var batch := PendingRows(store, BatchSize);
    BatchIdsUnique(store);
    BatchRowIsStoreRow(store, i, k);
    forall m | 0 <= m < |batch| && Delivered(env, m, batch[m]) ensures batch[m].id != store[k].id {
      assert m != i;
    }
    UndeliveredRowUntouched(store, env, k);
  }

  /** With nothing pending, a run submits nothing, reports zero processed,
      zero failed and no errors, and leaves the store as it was. */
  lemma EmptyBatchIsNoOp(store: seq<Row>, env: Env)
    requires forall k :: 0 <= k < |store| ==> !IsPending(store[k])
    ensures ProcessQueue(store, env) == Run(Tally(0, 0, []), store, [])
  {
    var pending := Where(store, IsPending);
    forall x ensures multiset(pending)[x] == 0 {
      if IsPending(x) {
        assert x !in store;
      }
    }
    assert multiset(pending) == multiset{};
  }
}
