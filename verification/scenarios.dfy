/** Concrete runs of the pipeline: the oldest-first batch and the
    at-least-once relay over two passes. */
module Scenarios {
  import opened Wrappers
  import opened Feedback
  import opened Store
  import opened Relay

  /** A pending record with both timestamps set to `createdAt`. */
  function SampleRow(id: string, createdAt: int): Row {
    Row(id, "email", None, None, "text", None, None, Pending, Some(map[]), createdAt, createdAt)
  }

  /** Three pending records, the newest inserted first: a batch of two is
      the two oldest, oldest first. */
  lemma OldestTwoFirst(a: Row, b: Row, c: Row)
    requires IsPending(a) && IsPending(b) && IsPending(c)
    requires a.created_at <= b.created_at < c.created_at
    ensures PendingRows([c, a, b], 2) == [a, b]
  {
    AllPendingKept(a, b, c);
    NewestFirstSorts(a, b, c);
    assert [a, b, c][0..2] == [a, b];
    PendingRowsIsWindow([c, a, b], 2);
  }

  lemma AllPendingKept(a: Row, b: Row, c: Row)
    requires IsPending(a) && IsPending(b) && IsPending(c)
    ensures Where([c, a, b], IsPending) == [c, a, b]
  {
    var s := [c, a, b];
    forall i | 0 <= i < |s| ensures IsPending(s[i]) {
      assert s[i] == c || s[i] == a || s[i] == b;
    }
    WhereAllIsIdentity(s, IsPending);
  }

  /** Sorting the newest-first insertion order puts the newest last. */
  lemma NewestFirstSorts(a: Row, b: Row, c: Row)
    requires a.created_at <= b.created_at < c.created_at
    ensures SortByCreated([c, a, b], false) == [a, b, c]
  {
    assert [c, a, b][1..] == [a, b];
    assert [a, b][1..] == [b];
    assert [b][1..] == [];
    assert SortByCreated([b], false) == [b];
    assert SortByCreated([a, b], false) == [a, b];
    assert InsertSorted(c, [b], false) == [b, c];
    assert InsertSorted(c, [a, b], false) == [a] + [b, c];
  }

  /** Three pending records with distinct ids, created in order. */
  predicate ThreeInOrder(a: Row, b: Row, c: Row) {
    && IsPending(a) && IsPending(b) && IsPending(c)
    && a.id != b.id && b.id != c.id && a.id != c.id
    && a.created_at <= b.created_at <= c.created_at
  }

  lemma UniqueIdsOfThree(a: Row, b: Row, c: Row)
    requires a.id != b.id && b.id != c.id && a.id != c.id
    ensures UniqueIds([a, b, c])
  {
    var s := [a, b, c];
    forall i, j | 0 <= i < 3 && 0 <= j < 3 && s[i].id == s[j].id ensures i == j {
      assert s[i].id == (if i == 0 then a.id else if i == 1 then b.id else c.id);
      assert s[j].id == (if j == 0 then a.id else if j == 1 then b.id else c.id);
    }
  }

  /** All three records are pending and already oldest-first, so the first
      batch is the whole table in table order. */
  lemma FirstBatch(a: Row, b: Row, c: Row)
    requires ThreeInOrder(a, b, c)
    ensures PendingRows([a, b, c], BatchSize) == [a, b, c]
    ensures UniqueIds([a, b, c])
  {
    var s := [a, b, c];
    PendingRowsOfOrderedBacklog(s, BatchSize);
    UniqueIdsOfThree(a, b, c);
  }

  lemma SeqOfThree(x: seq<Row>, p: Row, q: Row, r: Row)
    requires |x| == 3 && x[0] == p && x[1] == q && x[2] == r
    ensures x == [p, q, r]
  {
  }

  /** The first pass when the processor accepts the first and third record
      and rejects the second with a 500: its summary. */
  lemma FirstPassTally(a: Row, b: Row, c: Row, env: Env)
    requires ThreeInOrder(a, b, c)
    requires Delivered(env, 0, a) && !Delivered(env, 1, b) && Delivered(env, 2, c)
    requires env.reply(1, FromRow(b)) == Answered(500)
    ensures ProcessQueue([a, b, c], env).tally == Tally(2, 1, [RelayError(b.id, NotOk(500))])
  {
    FirstBatch(a, b, c);
    FirstPassErrors(a, b, c, env);
  }

  lemma FirstPassErrors(a: Row, b: Row, c: Row, env: Env)
    requires Delivered(env, 0, a) && !Delivered(env, 1, b) && Delivered(env, 2, c)
    requires env.reply(1, FromRow(b)) == Answered(500)
    ensures ExpectedErrors([a, b, c], 0, env) == [RelayError(b.id, NotOk(500))]
  {
    var s := [a, b, c];
    assert ExpectedErrors(s, 2, env) == [];
    assert ExpectedErrors(s, 1, env) == [RelayError(b.id, NotOk(500))];
  }

  /** The first pass marks the accepted records. */
  lemma FirstPassMarks(a: Row, b: Row, c: Row, env: Env)
    requires ThreeInOrder(a, b, c)
    requires Delivered(env, 0, a) && Delivered(env, 2, c)
    ensures var r := ProcessQueue([a, b, c], env);
      r.store[0] == Marked(a, env.clockMs(0)) && r.store[2] == Marked(c, env.clockMs(2))
  {
    FirstBatch(a, b, c);
    DeliveredRowMarked([a, b, c], env, 0, 0);
    DeliveredRowMarked([a, b, c], env, 2, 2);
  }

  /** The first pass leaves the rejected record as it was. */
  lemma FirstPassKeepsRejected(a: Row, b: Row, c: Row, env: Env)
    requires ThreeInOrder(a, b, c)
    requires !Delivered(env, 1, b)
    ensures ProcessQueue([a, b, c], env).store[1] == b
  {
    FirstBatch(a, b, c);
    FailedRecordStaysPending([a, b, c], env, 1, 1);
  }

  /** The whole first pass. */
  lemma FirstPass(a: Row, b: Row, c: Row, env: Env)
    requires ThreeInOrder(a, b, c)
    requires Delivered(env, 0, a) && !Delivered(env, 1, b) && Delivered(env, 2, c)
    requires env.reply(1, FromRow(b)) == Answered(500)
    ensures var r := ProcessQueue([a, b, c], env);
      && r.tally == Tally(2, 1, [RelayError(b.id, NotOk(500))])
      && r.store == [Marked(a, env.clockMs(0)), b, Marked(c, env.clockMs(2))]
  {
    FirstPassTally(a, b, c, env);
    FirstPassMarks(a, b, c, env);
    FirstPassKeepsRejected(a, b, c, env);
    var r := ProcessQueue([a, b, c], env);
    SeqOfThree(r.store, Marked(a, env.clockMs(0)), b, Marked(c, env.clockMs(2)));
  }

  /** After the first pass only the rejected record is pending. */
  lemma SecondBatch(a: Row, b: Row, c: Row, ta: nat, tc: nat)
    requires ThreeInOrder(a, b, c)
    ensures var t := [Marked(a, ta), b, Marked(c, tc)];
      PendingRows(t, BatchSize) == [b] && UniqueIds(t)
  {
    var t := [Marked(a, ta), b, Marked(c, tc)];
    assert t[1..] == [b, Marked(c, tc)];
    assert t[1..][1..] == [Marked(c, tc)];
    assert Where([Marked(c, tc)], IsPending) == [];
    assert Where([b, Marked(c, tc)], IsPending) == [b];
    assert Where(t, IsPending) == [b];
    UniqueIdsOfThree(Marked(a, ta), b, Marked(c, tc));
  }

  /** The second pass, with the processor accepting the remaining record:
      its summary. */
  lemma SecondPassTally(a: Row, b: Row, c: Row, ta: nat, tc: nat, env: Env)
    requires ThreeInOrder(a, b, c)
    requires Delivered(env, 0, b)
    ensures ProcessQueue([Marked(a, ta), b, Marked(c, tc)], env).tally == Tally(1, 0, [])
  {
    SecondBatch(a, b, c, ta, tc);
    assert ExpectedErrors([b], 0, env) == [];
  }

  /** The second pass leaves no record pending. */
  lemma SecondPassDrains(a: Row, b: Row, c: Row, ta: nat, tc: nat, env: Env)
    requires ThreeInOrder(a, b, c)
    requires Delivered(env, 0, b)
    ensures var r := ProcessQueue([Marked(a, ta), b, Marked(c, tc)], env);
      forall k :: 0 <= k < |r.store| ==> !IsPending(r.store[k])
  {
    var t := [Marked(a, ta), b, Marked(c, tc)];
    SecondBatch(a, b, c, ta, tc);
    var r := ProcessQueue(t, env);
    assert DeliveredIds([b], 0, env) == {b.id};
    DeliveredRowMarked(t, env, 0, 1);
    UndeliveredRowUntouched(t, env, 0);
    UndeliveredRowUntouched(t, env, 2);
    forall k | 0 <= k < |r.store| ensures !IsPending(r.store[k]) {
      assert k == 0 || k == 1 || k == 2;
    }
  }

  /** The whole second pass, over the store the first pass left. */
  lemma SecondPass(t: seq<Row>, a: Row, b: Row, c: Row, ta: nat, tc: nat, env: Env)
    requires ThreeInOrder(a, b, c)
    requires t == [Marked(a, ta), b, Marked(c, tc)]
    requires Delivered(env, 0, b)
    ensures var r := ProcessQueue(t, env);
      && r.tally == Tally(1, 0, [])
      && forall k :: 0 <= k < |r.store| ==> !IsPending(r.store[k])
  {
    SecondPassTally(a, b, c, ta, tc, env);
    SecondPassDrains(a, b, c, ta, tc, env);
  }

  /** Three pending records; on the first pass the processor rejects the
      second with a 500 and accepts the others, on the second it accepts
      again. The first pass processes two, fails one and leaves the second
      pending; the second pass processes it and leaves nothing pending. */
  lemma AtLeastOnceOverTwoPasses(a: Row, b: Row, c: Row, firstEnv: Env, secondEnv: Env)
    requires ThreeInOrder(a, b, c)
    requires firstEnv.reply(0, FromRow(a)) == Answered(OkStatus) && firstEnv.writeOk(0)
    requires firstEnv.reply(1, FromRow(b)) == Answered(500)
    requires firstEnv.reply(2, FromRow(c)) == Answered(OkStatus) && firstEnv.writeOk(2)
    requires secondEnv.reply(0, FromRow(b)) == Answered(OkStatus) && secondEnv.writeOk(0)
    ensures var first := ProcessQueue([a, b, c], firstEnv);
      var second := ProcessQueue(first.store, secondEnv);
      && first.tally.processed == 2 && first.tally.failed == 1
      && first.tally.errors == [RelayError(b.id, NotOk(500))]
      && first.store[1] == b && IsPending(first.store[1])
      && second.tally.processed == 1 && second.tally.failed == 0 && second.tally.errors == []
      && forall k :: 0 <= k < |second.store| ==> !IsPending(second.store[k])
  {
    assert Delivered(firstEnv, 0, a) && !Delivered(firstEnv, 1, b) && Delivered(firstEnv, 2, c);
    FirstPass(a, b, c, firstEnv);
    var first := ProcessQueue([a, b, c], firstEnv);
    SecondPass(first.store, a, b, c, firstEnv.clockMs(0), firstEnv.clockMs(2), secondEnv);
  }

  /** Three concrete records, created at 1, 2 and 3 with ids "a", "b" and
      "c", satisfy the scenario's assumptions. */
  lemma SampleRowsInOrder()
    ensures ThreeInOrder(SampleRow("a", 1), SampleRow("b", 2), SampleRow("c", 3))
  {
  }
}
