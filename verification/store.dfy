/** The feedback table as a sequence of rows in insertion order, with the
    operations the worker issues against it: insert, the pending-batch
    query, the point status update and the inspection query. */
module Store {
  import opened Wrappers
  import opened Feedback

  /** One row of the `feedback` table. `None` is SQL NULL; `metadata` holds
      the serialized metadata object. */
  datatype Row = Row(
    id: string,
    source: string,
    source_id: Option<string>,
    title: Option<string>,
    content: string,
    author: Option<string>,
    author_email: Option<string>,
    status: string,
    metadata: Option<Metadata>,
    created_at: int,
    updated_at: int)

  /** `v || null` (and, read back, `v || undefined`): a falsy optional
      string becomes NULL. */
  function OrNull(v: Option<string>): (r: Option<string>)
    ensures r.None? <==> !Truthy(v)
    ensures r.Some? ==> r == v
  {
    if Truthy(v) then v else None
  }

  /** The values `storeFeedback` binds to the INSERT. */
  function ToRow(f: Feedback): Row {
    Row(f.id, f.source, OrNull(f.source_id), OrNull(f.title), f.content,
        OrNull(f.author), OrNull(f.author_email), OrString(Some(f.status), Pending),
        Some(f.metadata), f.created_at, f.updated_at)
  }

  /** The record `fetchPendingFeedback` builds from a row it read. */
  function FromRow(r: Row): Feedback {
    Feedback(r.id, r.source, OrNull(r.source_id), OrNull(r.title), r.content,
             OrNull(r.author), OrNull(r.author_email), OrString(Some(r.status), Pending),
             r.metadata.GetOr(map[]), r.created_at, r.updated_at)
  }

  /** A record that survives the trip through the table unchanged: no
      optional string is present but empty, and the status is set. */
  predicate Canonical(f: Feedback) {
    && (f.source_id.Some? ==> f.source_id.value != "")
    && (f.title.Some? ==> f.title.value != "")
    && (f.author.Some? ==> f.author.value != "")
    && (f.author_email.Some? ==> f.author_email.value != "")
    && f.status != ""
  }

  /** Storing a record and reading it back gives the same record exactly
      when the record is canonical; otherwise empty optional strings come
      back absent and an empty status comes back `pending`. */
  lemma StoreThenReadRoundTrip(f: Feedback)
    ensures FromRow(ToRow(f)) == f <==> Canonical(f)
    ensures Canonical(FromRow(ToRow(f)))
  {
  }

  /** The ids present in a table. */
  function Ids(s: seq<Row>): set<string> {
    set i | 0 <= i < |s| :: s[i].id
  }

  /** The primary-key invariant: no two rows share an id. */
  predicate UniqueIds(s: seq<Row>) {
    forall i, j :: 0 <= i < |s| && 0 <= j < |s| && s[i].id == s[j].id ==> i == j
  }

  /** `storeFeedback`: appends the record's row. The table's primary key
      rejects a duplicate id; that constraint is a precondition here. */
  function Insert(s: seq<Row>, f: Feedback): (r: seq<Row>)
    requires f.id !in Ids(s)
    ensures |r| == |s| + 1 && r[..|s|] == s
    ensures Ids(r) == Ids(s) + {f.id}
    ensures UniqueIds(s) ==> UniqueIds(r)
    ensures forall i :: 0 <= i < |r| && r[i].id == f.id ==> r[i] == ToRow(f)
  {
    var r := s + [ToRow(f)];
    assert forall i :: 0 <= i < |s| ==> r[i] == s[i];
    assert Ids(r) == Ids(s) + {f.id} by {
      forall x | x in Ids(r) ensures x in Ids(s) + {f.id} {
        var i :| 0 <= i < |r| && r[i].id == x;
        if i < |s| { assert s[i].id == x; }
      }
      forall x | x in Ids(s) + {f.id} ensures x in Ids(r) {
        if x == f.id {
          assert r[|s|].id == x;
        } else {
          var i :| 0 <= i < |s| && s[i].id == x;
          assert r[i].id == x;
        }
      }
    }
    r
  }

  // ---------------------------------------------------------------------
  // Filtering and ordering

  /** `WHERE keep(row)`: the rows that satisfy `keep`, in table order. */
  function Where(s: seq<Row>, keep: Row -> bool): (r: seq<Row>)
    ensures |r| <= |s|
    ensures forall i :: 0 <= i < |r| ==> keep(r[i])
    ensures forall x :: multiset(r)[x] == if keep(x) then multiset(s)[x] else 0
    ensures multiset(r) <= multiset(s)
  {
    if |s| == 0 then []
    else
      assert s == [s[0]] + s[1..];
      var rest := Where(s[1..], keep);
      if keep(s[0]) then [s[0]] + rest else rest
  }

  /** `a` may come before `b` under `ORDER BY created_at ASC` (or `DESC`). */
  predicate InOrder(a: Row, b: Row, desc: bool) {
    if desc then a.created_at >= b.created_at else a.created_at <= b.created_at
  }

  predicate SortedBy(s: seq<Row>, desc: bool) {
    forall i, j :: 0 <= i < j < |s| ==> InOrder(s[i], s[j], desc)
  }

  /** Places `x` before the first row it may precede. */
  function InsertSorted(x: Row, s: seq<Row>, desc: bool): (r: seq<Row>)
    requires SortedBy(s, desc)
    ensures SortedBy(r, desc)
    ensures multiset(r) == multiset(s) + multiset{x}
    ensures |r| == |s| + 1
  {
    if |s| == 0 then [x]
    else if InOrder(x, s[0], desc) then
      PrependSorted(x, s, desc);
      [x] + s
    else
      assert s == [s[0]] + s[1..];
      var rest := InsertSorted(x, s[1..], desc);
      HeadPrecedesInsertion(x, s, rest, desc);
      PrependSorted(s[0], rest, desc);
      [s[0]] + rest
  }

  /** A row that may precede every row of a sorted listing may head it. */
  lemma PrependSorted(y: Row, t: seq<Row>, desc: bool)
    requires SortedBy(t, desc)
    requires |t| > 0 ==> InOrder(y, t[0], desc)
    ensures SortedBy([y] + t, desc)
  {
    var u := [y] + t;
    forall i, j | 0 <= i < j < |u| ensures InOrder(u[i], u[j], desc) {
      if i == 0 && j > 1 {
        assert InOrder(t[0], t[j - 1], desc);
      }
    }
  }

  /** When `x` does not go first, the head of `s` precedes everything the
      insertion into the rest of `s` yields. */
  lemma HeadPrecedesInsertion(x: Row, s: seq<Row>, rest: seq<Row>, desc: bool)
    requires |s| > 0 && SortedBy(s, desc) && !InOrder(x, s[0], desc)
    requires multiset(rest) == multiset(s[1..]) + multiset{x}
    requires |rest| > 0
    ensures InOrder(s[0], rest[0], desc)
  {
    assert rest[0] in multiset(rest);
    if rest[0] != x {
      assert rest[0] in multiset(s[1..]);
      var k :| 0 <= k < |s[1..]| && s[1..][k] == rest[0];
      assert s[k + 1] == rest[0];
    }
  }

  /** `ORDER BY created_at`: a stable insertion sort, so rows with equal
      timestamps keep their table order. */
  function SortByCreated(s: seq<Row>, desc: bool): (r: seq<Row>)
    ensures SortedBy(r, desc)
    ensures multiset(r) == multiset(s)
    ensures |r| == |s|
  {
    if |s| == 0 then []
    else
      assert s == [s[0]] + s[1..];
      InsertSorted(s[0], SortByCreated(s[1..], desc), desc)
  }

  /** Rows that all satisfy the condition pass the filter unchanged. */
  lemma {:induction false} WhereAllIsIdentity(s: seq<Row>, keep: Row -> bool)
    requires forall i :: 0 <= i < |s| ==> keep(s[i])
    ensures Where(s, keep) == s
  {
    if |s| > 0 {
      WhereAllIsIdentity(s[1..], keep);
      assert s == [s[0]] + s[1..];
    }
  }

  /** Sorting a listing that is already in order changes nothing. */
  lemma {:induction false} SortSortedIsIdentity(s: seq<Row>, desc: bool)
    requires SortedBy(s, desc)
    ensures SortByCreated(s, desc) == s
  {
    if |s| > 0 {
      SortSortedIsIdentity(s[1..], desc);
      assert s == [s[0]] + s[1..];
      if |s| > 1 {
        assert InOrder(s[0], s[1], desc);
      }
    }
  }

  /** `LIMIT limit OFFSET offset` over an already ordered result. */
  function Window(s: seq<Row>, offset: nat, limit: nat): (r: seq<Row>)
    ensures |r| == if offset >= |s| then 0 else if limit < |s| - offset then limit else |s| - offset
    ensures forall i :: 0 <= i < |r| ==> r[i] == s[offset + i]
  {
    if offset >= |s| then []
    else if limit < |s| - offset then s[offset..offset + limit]
    else s[offset..]
  }

  /** A window holds a selection of the rows it was cut from. */
  lemma WindowIsSelection(s: seq<Row>, offset: nat, limit: nat)
    ensures multiset(Window(s, offset, limit)) <= multiset(s)
  {
    var r := Window(s, offset, limit);
    if offset < |s| {
      assert s == s[..offset] + r + s[offset + |r|..];
    }
  }

  // ---------------------------------------------------------------------
  // The pending-batch query

  predicate IsPending(r: Row) {
    r.status == Pending
  }

  /** `SELECT * FROM feedback WHERE status = 'pending' ORDER BY created_at
      ASC LIMIT limit`. */
  function PendingRows(s: seq<Row>, limit: nat): (r: seq<Row>)
    ensures |r| <= limit
    ensures |r| == if limit < |Where(s, IsPending)| then limit else |Where(s, IsPending)|
    ensures forall i :: 0 <= i < |r| ==> IsPending(r[i]) && r[i] in s
    ensures SortedBy(r, false)
    ensures multiset(r) <= multiset(s)
  {
    var all := SortByCreated(Where(s, IsPending), false);
    var r := Window(all, 0, limit);
    WindowIsSelection(all, 0, limit);
    forall i | 0 <= i < |r| ensures IsPending(r[i]) && r[i] in s {
      assert r[i] == all[i];
      assert r[i] in multiset(all);
    }
    r
  }

  /** Rows read back as records, in order. */
  function Records(rows: seq<Row>): (b: seq<Feedback>)
    ensures |b| == |rows|
    ensures forall i :: 0 <= i < |b| ==> b[i].id == rows[i].id && b[i].created_at == rows[i].created_at
  {
    seq(|rows|, i requires 0 <= i < |rows| => FromRow(rows[i]))
  }

  /** `fetchPendingFeedback`: the pending batch, read back as records. */
  function FetchPending(s: seq<Row>, limit: nat): (b: seq<Feedback>)
    ensures |b| <= limit
    ensures forall i :: 0 <= i < |b| ==> b[i].status == Pending
    ensures forall i, j :: 0 <= i < j < |b| ==> b[i].created_at <= b[j].created_at
    ensures var rows := PendingRows(s, limit);
      |b| == |rows| && forall i :: 0 <= i < |b| ==> b[i] == FromRow(rows[i])
  {
    var rows := PendingRows(s, limit);
    assert forall i, j :: 0 <= i < j < |rows| ==> InOrder(rows[i], rows[j], false);
    Records(rows)
  }

  /** In an ascending listing, every row of a prefix is no newer than any
      row the prefix leaves out. */
  lemma SortedPrefixIsOldest(all: seq<Row>, k: nat)
    requires k <= |all| && SortedBy(all, false)
    ensures forall i, x :: 0 <= i < k && multiset(all[..k])[x] < multiset(all)[x] ==>
      all[i].created_at <= x.created_at
  {
    assert all == all[..k] + all[k..];
    forall i, x | 0 <= i < k && multiset(all[..k])[x] < multiset(all)[x]
      ensures all[i].created_at <= x.created_at
    {
      assert x in multiset(all[k..]);
      var m :| 0 <= m < |all[k..]| && all[k..][m] == x;
      assert all[k + m] == x;
      assert InOrder(all[i], all[k + m], false);
    }
  }

  /** `PendingRows` is a prefix of the ascending listing of pending rows. */
  lemma PendingRowsIsPrefix(s: seq<Row>, limit: nat)
    ensures var all := SortByCreated(Where(s, IsPending), false);
      var b := PendingRows(s, limit);
      |b| <= |all| && b == all[..|b|]
  {
  }

  /** The batch is oldest-first and starves no one: every pending row left
      out of it (counting duplicates) is no older than every row in it. */
  lemma PendingBatchIsOldestFirst(s: seq<Row>, limit: nat)
    ensures var b := PendingRows(s, limit);
      forall i, x :: 0 <= i < |b| && IsPending(x) && multiset(b)[x] < multiset(s)[x] ==>
        b[i].created_at <= x.created_at
  {
    var all := SortByCreated(Where(s, IsPending), false);
    var b := PendingRows(s, limit);
    PendingRowsIsPrefix(s, limit);
    SortedPrefixIsOldest(all, |b|);
    forall i, x | 0 <= i < |b| && IsPending(x) && multiset(b)[x] < multiset(s)[x]
      ensures b[i].created_at <= x.created_at
    {
      assert multiset(all)[x] == multiset(s)[x];
    }
  }

  /** A table with unique ids holds each row at most once. */
  lemma {:induction false} UniqueIdsCountOnce(s: seq<Row>, x: Row)
    requires UniqueIds(s)
    ensures multiset(s)[x] <= 1
  {
    if |s| > 0 {
      var t := s[1..];
      assert s == [s[0]] + t;
      assert UniqueIds(t) by {
        forall i, j | 0 <= i < |t| && 0 <= j < |t| && t[i].id == t[j].id ensures i == j {
          assert s[i + 1].id == s[j + 1].id;
        }
      }
      UniqueIdsCountOnce(t, x);
      if s[0] == x {
        forall m | 0 <= m < |t| ensures t[m] != x {
          assert s[m + 1].id != s[0].id;
        }
        assert x !in t;
      }
    }
  }

  /** Any selection of rows from a table with unique ids (a sub-multiset,
      in any order) has unique ids too. */
  lemma UniqueIdsOfSelection(s: seq<Row>, t: seq<Row>)
    requires UniqueIds(s) && multiset(t) <= multiset(s)
    ensures UniqueIds(t)
  {
    forall i, j | 0 <= i < j < |t| ensures t[i].id != t[j].id {
      if t[i] == t[j] {
        assert t == t[..j] + t[j..];
        assert t[..j][i] == t[i];
        assert t[j..][0] == t[i];
        assert multiset(t)[t[i]] == multiset(t[..j])[t[i]] + multiset(t[j..])[t[i]];
        UniqueIdsCountOnce(s, t[i]);
        assert false;
      } else {
        assert t[i] in multiset(s) && t[j] in multiset(s);
        var p :| 0 <= p < |s| && s[p] == t[i];
        var q :| 0 <= q < |s| && s[q] == t[j];
        assert s[p].id != s[q].id;
      }
    }
  }

  /** The batch is the first `limit` rows of the pending rows in ascending
      order. */
  lemma PendingRowsIsWindow(s: seq<Row>, limit: nat)
    ensures PendingRows(s, limit) == Window(SortByCreated(Where(s, IsPending), false), 0, limit)
  {
  }

  /** When every row is pending, the rows are already oldest-first and they
      fit in the limit, the batch is the whole table in table order. */
  lemma PendingRowsOfOrderedBacklog(s: seq<Row>, limit: nat)
    requires forall i :: 0 <= i < |s| ==> IsPending(s[i])
    requires SortedBy(s, false) && |s| <= limit
    ensures PendingRows(s, limit) == s
  {
    WhereAllIsIdentity(s, IsPending);
    SortSortedIsIdentity(s, false);
    assert Window(s, 0, limit) == s;
  }

  /** A smaller limit yields a prefix of the batch a larger one yields. */
  lemma PendingRowsPrefix(s: seq<Row>, small: nat, large: nat)
    requires small <= large
    ensures var p := PendingRows(s, small); var q := PendingRows(s, large);
      |p| <= |q| && p == q[..|p|]
  {
  }

  // ---------------------------------------------------------------------
  // Point update

  /** `r` is `s` with at most its status and `updated_at` changed. */
  predicate SameRecord(s: Row, r: Row) {
    r == s.(status := r.status, updated_at := r.updated_at)
  }

  /** `updateFeedbackStatus`: `UPDATE feedback SET status = ?, updated_at = ?
      WHERE id = ?`, stamped with the clock's seconds. An absent id matches
      no row. */
  function UpdateStatus(s: seq<Row>, id: string, status: string, clockMs: nat): (r: seq<Row>)
    ensures |r| == |s|
    ensures forall i :: 0 <= i < |s| ==> SameRecord(s[i], r[i])
    ensures forall i :: 0 <= i < |s| && s[i].id == id ==>
      r[i].status == status && r[i].updated_at == EpochSeconds(clockMs)
    ensures forall i :: 0 <= i < |s| && s[i].id != id ==> r[i] == s[i]
  {
    seq(|s|, i requires 0 <= i < |s| =>
      if s[i].id == id then s[i].(status := status, updated_at := EpochSeconds(clockMs)) else s[i])
  }

  /** The update keeps the set of ids and the primary-key invariant. */
  lemma UpdatePreservesIds(s: seq<Row>, id: string, status: string, clockMs: nat)
    ensures Ids(UpdateStatus(s, id, status, clockMs)) == Ids(s)
    ensures UniqueIds(s) ==> UniqueIds(UpdateStatus(s, id, status, clockMs))
  {
    var r := UpdateStatus(s, id, status, clockMs);
    assert forall i :: 0 <= i < |s| ==> r[i].id == s[i].id;
    assert Ids(r) == Ids(s) by {
      forall x | x in Ids(r) ensures x in Ids(s) {
        var i :| 0 <= i < |r| && r[i].id == x;
        assert s[i].id == x;
      }
      forall x | x in Ids(s) ensures x in Ids(r) {
        var i :| 0 <= i < |s| && s[i].id == x;
        assert r[i].id == x;
      }
    }
  }

  /** Updating an id no row carries leaves the table as it was. */
  lemma UpdateAbsentIsNoOp(s: seq<Row>, id: string, status: string, clockMs: nat)
    requires id !in Ids(s)
    ensures UpdateStatus(s, id, status, clockMs) == s
  {
    var r := UpdateStatus(s, id, status, clockMs);
    forall i | 0 <= i < |s| ensures r[i] == s[i] {
      assert s[i].id in Ids(s);
    }
  }

  /** Repeating an update with the same status and clock changes nothing
      more: marking a record processed twice equals marking it once. */
  lemma UpdateIdempotent(s: seq<Row>, id: string, status: string, clockMs: nat)
    ensures var once := UpdateStatus(s, id, status, clockMs);
      UpdateStatus(once, id, status, clockMs) == once
  {
  }

  /** Updates of two different ids commute. */
  lemma UpdatesCommute(s: seq<Row>, a: string, sa: string, ta: nat, b: string, sb: string, tb: nat)
    requires a != b
    ensures UpdateStatus(UpdateStatus(s, a, sa, ta), b, sb, tb)
         == UpdateStatus(UpdateStatus(s, b, sb, tb), a, sa, ta)
  {
  }

  // ---------------------------------------------------------------------
  // The inspection query

  /** The optional equality filters of the inspection query; a falsy
      parameter (absent or empty) adds no condition. */
  predicate Matches(r: Row, source: Option<string>, status: Option<string>) {
    && (Truthy(source) ==> r.source == source.value)
    && (Truthy(status) ==> r.status == status.value)
  }

  /** The rows the filters select, newest first, before paging. */
  function Listing(s: seq<Row>, source: Option<string>, status: Option<string>): (r: seq<Row>)
    ensures SortedBy(r, true)
    ensures forall x :: multiset(r)[x] == if Matches(x, source, status) then multiset(s)[x] else 0
  {
    SortByCreated(Where(s, x => Matches(x, source, status)), true)
  }

  /** `SELECT * FROM feedback WHERE 1=1 [AND source = ?] [AND status = ?]
      ORDER BY created_at DESC LIMIT limit OFFSET offset`. */
  function Inspect(s: seq<Row>, source: Option<string>, status: Option<string>, limit: nat, offset: nat): (r: seq<Row>)
    ensures |r| <= limit
    ensures forall i :: 0 <= i < |r| ==> Matches(r[i], source, status) && r[i] in s
    ensures SortedBy(r, true)
    ensures multiset(r) <= multiset(s)
    ensures var all := Listing(s, source, status);
      |r| == if offset >= |all| then 0 else if limit < |all| - offset then limit else |all| - offset
    ensures var all := Listing(s, source, status);
      forall i :: 0 <= i < |r| ==> r[i] == all[offset + i]
  {
    ListingWindow(s, source, status, limit, offset);
    Window(Listing(s, source, status), offset, limit)
  }

  /** Every row of a window of the listing matches the filters and comes
      from the table. */
  lemma ListingWindow(s: seq<Row>, source: Option<string>, status: Option<string>, limit: nat, offset: nat)
    ensures var r := Window(Listing(s, source, status), offset, limit);
      && (forall i :: 0 <= i < |r| ==> Matches(r[i], source, status) && r[i] in s)
      && multiset(r) <= multiset(s)
  {
    var all := Listing(s, source, status);
    var r := Window(all, offset, limit);
    WindowIsSelection(all, offset, limit);
    forall i | 0 <= i < |r| ensures Matches(r[i], source, status) && r[i] in s {
      assert r[i] == all[offset + i];
      assert r[i] in multiset(all);
    }
  }

  /** Adjacent windows of one listing concatenate into the window that
      spans both. */
  lemma WindowsConcatenate(all: seq<Row>, offset: nat, a: nat, b: nat)
    ensures Window(all, offset, a) + Window(all, offset + a, b) == Window(all, offset, a + b)
  {
    var p := Window(all, offset, a);
    var q := Window(all, offset + a, b);
    var pq := Window(all, offset, a + b);
    assert |p + q| == |pq|;
    forall i | 0 <= i < |pq| ensures (p + q)[i] == pq[i] {
      if i < |p| {
        assert (p + q)[i] == p[i];
      } else {
        assert (p + q)[i] == q[i - |p|];
      }
    }
  }

  /** Consecutive pages tile the listing: the page at `offset` of size `a`
      followed by the page at `offset + a` of size `b` is the page at
      `offset` of size `a + b`. */
  lemma InspectPagesConcatenate(s: seq<Row>, source: Option<string>, status: Option<string>, a: nat, b: nat, offset: nat)
    ensures Inspect(s, source, status, a, offset) + Inspect(s, source, status, b, offset + a)
         == Inspect(s, source, status, a + b, offset)
  {
    WindowsConcatenate(Listing(s, source, status), offset, a, b);
  }

  /** A page large enough to hold the whole table, from offset zero, holds
      exactly the rows the filters select. */
  lemma InspectIsComplete(s: seq<Row>, source: Option<string>, status: Option<string>, limit: nat)
    requires limit >= |s|
    ensures forall x :: multiset(Inspect(s, source, status, limit, 0))[x]
                     == if Matches(x, source, status) then multiset(s)[x] else 0
  {
    var all := Listing(s, source, status);
    assert |all| == |multiset(all)| <= |multiset(s)| == |s| by {
      assert multiset(all) <= multiset(s);
    }
    assert Window(all, 0, limit) == all;
  }
}
