/** When splitting the log into batches does not matter, and what two compactors can do to it. */
module Compaction {
  import opened Basics
  import opened Merge
  import opened UpdateLog

  predicate Increasing(ids: seq<nat>) { forall i, j | 0 <= i < j < |ids| :: ids[i] < ids[j] }

  /** A document's compacted rows in log order, among the first n rows. */
  function CompactedIds(rows: seq<Row>, doc: string, n: nat): (ids: seq<nat>)
    requires n <= |rows|
    ensures Increasing(ids) && Known(rows, ids) && forall i | 0 <= i < |ids| :: ids[i] < n
    ensures forall id: nat :: id in ids <==> id < n && Compacted(rows, doc, id)
  {
    if n == 0 then []
    else CompactedIds(rows, doc, n - 1) + if Compacted(rows, doc, n - 1) then [n - 1] else []
  }

  /** The state that one snapshot of all of a document's compacted rows, in log order, would have written. */
  function OneSnapshot<S>(apply: (S, Bytes) -> S, base: S, rows: seq<Row>, doc: string): S {
    ApplyAll(apply, base, Payloads(rows, CompactedIds(rows, doc, |rows|)))
  }

  lemma PayloadsIn(rows: seq<Row>, a: seq<nat>, b: seq<nat>, p: Bytes)
    requires Known(rows, a) && Known(rows, b) && (forall id: nat :: id in a ==> id in b)
    ensures p in Payloads(rows, a) ==> p in Payloads(rows, b)
  {
    if i :| 0 <= i < |a| && Payloads(rows, a)[i] == p {
      assert a[i] in a;
      var j :| 0 <= j < |b| && b[j] == a[i];
      assert Payloads(rows, b)[j] == p;
    }
  }

  /** With a conflict-free merge, however the log was split into snapshots and in whatever order the rows were read,
      the blob is the one that a single snapshot would have written. */
  lemma BatchingIsInvisible<S(!new)>(apply: (S, Bytes) -> S, init: map<string, S>, db: Db<S>, doc: string)
    requires ConflictFree(apply) && Consistent(apply, init, db) && doc in init
    ensures db.blobs[doc] == OneSnapshot(apply, init[doc], db.rows, doc)
  {
    assert DocConsistent(apply, init, db, doc);
    var ids, sorted := db.merged[doc], CompactedIds(db.rows, doc, |db.rows|);
    forall p ensures p in Payloads(db.rows, ids) <==> p in Payloads(db.rows, sorted) {
      PayloadsIn(db.rows, ids, sorted, p);
      PayloadsIn(db.rows, sorted, ids, p);
    }
    SameDiffsSameState(apply, init[doc], Payloads(db.rows, ids), Payloads(db.rows, sorted));
  }

  lemma LastIsLargest(ids: seq<nat>, id: nat)
    requires Increasing(ids) && ids != []
    ensures id in ids ==> id <= ids[|ids| - 1]
    ensures id in ids[..|ids| - 1] <==> id in ids && id != ids[|ids| - 1]
  {
  }

  lemma {:induction false} IncreasingUnique(a: seq<nat>, b: seq<nat>)
    requires Increasing(a) && Increasing(b) && forall id: nat :: id in a <==> id in b
    ensures a == b
  {
    assert (a != [] ==> a[0] in a) && (b != [] ==> b[0] in b);
    if a != [] {
      var x, y := a[|a| - 1], b[|b| - 1];
      assert x in b && y in a;
      LastIsLargest(a, y);
      LastIsLargest(b, x);
      var init, init' := a[..|a| - 1], b[..|b| - 1];
      forall id: nat ensures id in init <==> id in init' {
        LastIsLargest(a, id);
        LastIsLargest(b, id);
      }
      IncreasingUnique(init, init');
    }
  }

  /** With one compactor, batches follow one another in log order: compacted rows come before pending ones, and rows
      read by the running snapshot before those it did not read. */
  ghost predicate BatchesFollow<S(!new)>(db: Db<S>) {
    && (forall doc, a: nat, b: nat | Compacted(db.rows, doc, a) && Pending(db.rows, doc, b) :: a < b)
    && (forall t | t in db.txns && t.HasRows? ::
         && (forall id | id in t.ids :: Pending(db.rows, t.doc, id))
         && forall a: nat, b: nat | a in t.ids && Pending(db.rows, t.doc, b) && b !in t.ids :: a < b)
  }

  lemma BatchesFollowStep<S(!new)>(apply: (S, Bytes) -> S, init: map<string, S>, db: Db<S>, e: DbEvent)
    requires Sane(apply, init, db) && Undisturbed(db) && BatchesFollow(db) && DbEnabled(db, e)
    ensures BatchesFollow(DbApply(apply, db, e))
  {
    var d := DbApply(apply, db, e);
    assert TxnWell(apply, init, db.rows, db.txns[0]) && db.txns[0] in db.txns && d.txns == [d.txns[0]];
    match e
    case Append(_, _, _, _) => BatchesFollowAppend(apply, db, e);
    case Commit(_) => BatchesFollowCommit(apply, init, db);
    case _ =>
  }

  lemma BatchesFollowAppend<S(!new)>(apply: (S, Bytes) -> S, db: Db<S>, e: DbEvent)
    requires Undisturbed(db) && BatchesFollow(db) && DbEnabled(db, e) && e.Append?
    requires db.txns[0].HasRows? ==> Known(db.rows, db.txns[0].ids)
    ensures BatchesFollow(DbApply(apply, db, e))
  {
    var d := DbApply(apply, db, e);
    forall doc, id: nat | id < |db.rows| ensures Pending(d.rows, doc, id) == Pending(db.rows, doc, id) {}
    forall doc, id: nat ensures Compacted(d.rows, doc, id) == Compacted(db.rows, doc, id) {}
    assert d.txns == [d.txns[0]];
  }

  lemma BatchesFollowCommit<S(!new)>(apply: (S, Bytes) -> S, init: map<string, S>, db: Db<S>)
    requires Sane(apply, init, db) && Undisturbed(db) && BatchesFollow(db) && DbEnabled(db, Commit(0))
    ensures BatchesFollow(DbApply(apply, db, Commit(0)))
  {
    var d, t := DbApply(apply, db, Commit(0)), db.txns[0];
    assert t in db.txns;
    forall doc, id: nat
      ensures Compacted(d.rows, doc, id) == (Compacted(db.rows, doc, id) || (id in t.ids && doc == t.doc))
    {
      if id in t.ids { assert Pending(db.rows, t.doc, id); }
    }
    forall doc, id: nat ensures Pending(d.rows, doc, id) == (Pending(db.rows, doc, id) && id !in t.ids) {}
  }

  /** The event is not a commit of a batch of the document that was read out of log order. */
  ghost predicate BatchInOrder<S(!new)>(db: Db<S>, e: DbEvent, doc: string) {
    e.Commit? && DbEnabled(db, e) && db.txns[e.k].doc == doc ==> Increasing(db.txns[e.k].ids)
  }

  lemma IncreasingConcat(a: seq<nat>, b: seq<nat>)
    requires forall x: nat, y: nat | x in a && y in b :: x < y
    ensures Increasing(a + b) <==> Increasing(a) && Increasing(b)
  {
    if Increasing(a + b) {
      forall i, j | 0 <= i < j < |a| ensures a[i] < a[j] { assert (a + b)[i] < (a + b)[j]; }
      forall i, j | 0 <= i < j < |b| ensures b[i] < b[j] { assert (a + b)[|a| + i] < (a + b)[|a| + j]; }
    } else if Increasing(a) && Increasing(b) {
      forall i, j | 0 <= i < j < |a + b| ensures (a + b)[i] < (a + b)[j] {
        assert i < |a| ==> (a + b)[i] in a;
        assert j >= |a| ==> (a + b)[j] in b;
      }
    }
  }

  /** One event keeps the document's blob in log order if and only if its batch was. */
  lemma MergedStep<S(!new)>(apply: (S, Bytes) -> S, init: map<string, S>, db: Db<S>, e: DbEvent, doc: string)
    requires Sane(apply, init, db) && Undisturbed(db) && BatchesFollow(db) && DbEnabled(db, e) && doc in init
    ensures var d := DbApply(apply, db, e);
            doc in db.merged && doc in d.merged
            && (Increasing(d.merged[doc]) <==> Increasing(db.merged[doc]) && BatchInOrder(db, e, doc))
  {
    if e.Commit? && db.txns[e.k].doc == doc {
      var t := db.txns[0];
      assert t in db.txns && DocConsistent(apply, init, db, doc) && e.k == 0;
      assert DbApply(apply, db, e).merged[doc] == t.base + t.ids && t.base == db.merged[doc];
      forall x: nat, y: nat | x in t.base && y in t.ids ensures x < y {
        assert Compacted(db.rows, doc, x) && Pending(db.rows, doc, y);
      }
      IncreasingConcat(t.base, t.ids);
    }
  }

  lemma {:induction false} AlwaysBatchesFollow<S(!new)>(apply: (S, Bytes) -> S, init: map<string, S>,
                                                        es: seq<DbEvent>, n: nat)
    requires n <= |es|
    ensures BatchesFollow(After(apply, init, 1, es, n))
  {
    if n > 0 {
      AlwaysBatchesFollow(apply, init, es, n - 1);
      AfterNext(apply, init, 1, es, n - 1);
      OneCompactorIsFresh(apply, init, es, n - 1);
      var db := After(apply, init, 1, es, n - 1);
      if DbEnabled(db, es[n - 1]) { BatchesFollowStep(apply, init, db, es[n - 1]); }
    }
  }

  lemma MergedNext<S(!new)>(apply: (S, Bytes) -> S, init: map<string, S>, es: seq<DbEvent>, n: nat, doc: string)
    requires n < |es| && doc in init
    ensures var db, d := After(apply, init, 1, es, n), After(apply, init, 1, es, n + 1);
            && doc in db.merged && doc in d.merged
            && (Increasing(d.merged[doc]) <==> Increasing(db.merged[doc]) && BatchInOrder(db, es[n], doc))
  {
    var db := After(apply, init, 1, es, n);
    OneCompactorIsFresh(apply, init, es, n);
    AfterNext(apply, init, 1, es, n);
    if DbEnabled(db, es[n]) {
      AlwaysBatchesFollow(apply, init, es, n);
      MergedStep(apply, init, db, es[n], doc);
    }
  }

  /** In every run of one compactor, a document's blob was made in log order if and only if each of its batches was read
      in log order. */
  lemma {:induction false} MergedInOrderIffBatchesAre<S(!new)>(apply: (S, Bytes) -> S, init: map<string, S>,
                                                               es: seq<DbEvent>, n: nat, doc: string)
    requires n <= |es| && doc in init
    ensures var db := After(apply, init, 1, es, n);
            && doc in db.merged
            && (Increasing(db.merged[doc]) <==> forall m | 0 <= m < n ::
                BatchInOrder(After(apply, init, 1, es, m), es[m], doc))
  {
    if n > 0 {
      MergedInOrderIffBatchesAre(apply, init, es, n - 1, doc);
      MergedNext(apply, init, es, n - 1, doc);
    }
  }

  ghost predicate BatchesInOrder<S(!new)>(apply: (S, Bytes) -> S, init: map<string, S>, es: seq<DbEvent>, doc: string) {
    forall m | 0 <= m < |es| :: BatchInOrder(After(apply, init, 1, es, m), es[m], doc)
  }

  /** With any merge at all, concatenation included: one compactor and batches in log order make the blob the one that a
      single snapshot of the compacted rows would have written. */
  lemma {:induction false} BatchingInOrderIsInvisible<S(!new)>(apply: (S, Bytes) -> S, init: map<string, S>,
                                                               es: seq<DbEvent>, doc: string)
    requires doc in init && BatchesInOrder(apply, init, es, doc)
    ensures var db := DbRun(apply, init, 1, es);
            doc in db.blobs && db.blobs[doc] == OneSnapshot(apply, init[doc], db.rows, doc)
  {
    assert es[..|es|] == es;
    var db := After(apply, init, 1, es, |es|);
    OneCompactorIsFresh(apply, init, es, |es|);
    MergedInOrderIffBatchesAre(apply, init, es, |es|, doc);
    assert DocConsistent(apply, init, db, doc);
    IncreasingUnique(db.merged[doc], CompactedIds(db.rows, doc, |db.rows|));
  }

  /** A merge that keeps the whole order: the list of the diffs applied. */
  function Listing(list: seq<Bytes>, diff: Bytes): seq<Bytes> { list + [diff] }

  lemma {:induction false} Listed(base: seq<Bytes>, diffs: seq<Bytes>)
    ensures ApplyAll(Listing, base, diffs) == base + diffs
  {
    if diffs != [] {
      Listed(base, diffs[..|diffs| - 1]);
      assert diffs == diffs[..|diffs| - 1] + [diffs[|diffs| - 1]];
    }
  }

  lemma SamePayloadsSameIds(rows: seq<Row>, doc: string, a: seq<nat>, b: seq<nat>)
    requires Known(rows, a) && Known(rows, b) && (forall id | id in a || id in b :: rows[id].doc == doc)
    requires DistinctPayloads(rows, doc) && Payloads(rows, a) == Payloads(rows, b)
    ensures a == b
  {
    assert |a| == |Payloads(rows, a)| == |b|;
    forall i | 0 <= i < |a| ensures a[i] == b[i] {
      assert a[i] in a && b[i] in b && Payloads(rows, a)[i] == Payloads(rows, b)[i];
    }
  }

  ghost predicate DistinctPayloads(rows: seq<Row>, doc: string) {
    forall i, j | 0 <= i < j < |rows| && rows[i].doc == doc && rows[j].doc == doc :: rows[i].payload != rows[j].payload
  }

  /** The premise is exact: to a merge that keeps the order of distinct diffs, batching is invisible only if every batch
      was read in log order. */
  lemma {:induction false} BatchOrderShows(init: map<string, seq<Bytes>>, es: seq<DbEvent>, doc: string)
    requires doc in init && DistinctPayloads(DbRun(Listing, init, 1, es).rows, doc)
    ensures var db := DbRun(Listing, init, 1, es);
            doc in db.blobs
            && (db.blobs[doc] == OneSnapshot(Listing, init[doc], db.rows, doc)
                <==> BatchesInOrder(Listing, init, es, doc))
  {
    assert es[..|es|] == es;
    var db := After(Listing, init, 1, es, |es|);
    OneCompactorIsFresh(Listing, init, es, |es|);
    assert DocConsistent(Listing, init, db, doc);
    if BatchesInOrder(Listing, init, es, doc) { BatchingInOrderIsInvisible(Listing, init, es, doc); }
    var ids, sorted, base := db.merged[doc], CompactedIds(db.rows, doc, |db.rows|), init[doc];
    Listed(base, Payloads(db.rows, ids));
    Listed(base, Payloads(db.rows, sorted));
    if db.blobs[doc] == OneSnapshot(Listing, base, db.rows, doc) {
      assert (base + Payloads(db.rows, ids))[|base|..] == Payloads(db.rows, ids);
      assert (base + Payloads(db.rows, sorted))[|base|..] == Payloads(db.rows, sorted);
      SamePayloadsSameIds(db.rows, doc, ids, sorted);
      MergedInOrderIffBatchesAre(Listing, init, es, |es|, doc);
    }
  }

  /** The clock never goes back or stands still between two inserts into the document. */
  ghost predicate Clocked(rows: seq<Row>, doc: string) {
    forall i, j | 0 <= i < j < |rows| && rows[i].doc == doc && rows[j].doc == doc ::
        rows[i].createdAt < rows[j].createdAt
  }

  /** What the running snapshots read is distinct rows of their documents, by created_at. */
  ghost predicate ReadByTime<S(!new)>(db: Db<S>) {
    forall t | t in db.txns && t.HasRows? ::
      && Known(db.rows, t.ids) && Distinct(t.ids)
      && (forall id | id in t.ids :: db.rows[id].doc == t.doc)
      && forall i, j | 0 <= i < j < |t.ids| :: db.rows[t.ids[i]].createdAt <= db.rows[t.ids[j]].createdAt
  }

  lemma ReadByTimeStep<S(!new)>(apply: (S, Bytes) -> S, db: Db<S>, e: DbEvent)
    requires ReadByTime(db) && DbEnabled(db, e)
    ensures ReadByTime(DbApply(apply, db, e))
  {
    var d := DbApply(apply, db, e);
    forall i | 0 <= i < |db.rows|
      ensures d.rows[i].doc == db.rows[i].doc && d.rows[i].createdAt == db.rows[i].createdAt
    {
    }
    forall t | t in d.txns && t.HasRows? && !(e.ReadRows? && t == d.txns[e.k]) ensures t in db.txns {}
  }

  lemma {:induction false} RowsOnlyGrow<S(!new)>(apply: (S, Bytes) -> S, init: map<string, S>, compactors: nat,
                                                 es: seq<DbEvent>, m: nat, n: nat)
    requires m <= n <= |es|
    ensures var before, after := After(apply, init, compactors, es, m).rows, After(apply, init, compactors, es, n).rows;
            && |before| <= |after|
            && forall i | 0 <= i < |before| ::
                 after[i].doc == before[i].doc && after[i].createdAt == before[i].createdAt
  {
    if m < n {
      RowsOnlyGrow(apply, init, compactors, es, m, n - 1);
      AfterNext(apply, init, compactors, es, n - 1);
    }
  }

  lemma {:induction false} AlwaysReadByTime<S(!new)>(apply: (S, Bytes) -> S, init: map<string, S>, compactors: nat,
                                                     es: seq<DbEvent>, n: nat)
    requires n <= |es|
    ensures ReadByTime(After(apply, init, compactors, es, n))
  {
    if n > 0 {
      AlwaysReadByTime(apply, init, compactors, es, n - 1);
      AfterNext(apply, init, compactors, es, n - 1);
      var db := After(apply, init, compactors, es, n - 1);
      if DbEnabled(db, es[n - 1]) { ReadByTimeStep(apply, db, es[n - 1]); }
    }
  }

  /** In particular if the clock agrees with the insert order of the document, since pending rows are read by
      created_at. */
  lemma {:induction false} ClockedBatchesAreInOrder<S(!new)>(apply: (S, Bytes) -> S, init: map<string, S>,
                                                             es: seq<DbEvent>, doc: string)
    requires Clocked(DbRun(apply, init, 1, es).rows, doc)
    ensures BatchesInOrder(apply, init, es, doc)
  {
    assert es[..|es|] == es;
    forall m | 0 <= m < |es| ensures BatchInOrder(After(apply, init, 1, es, m), es[m], doc) {
      var db := After(apply, init, 1, es, m);
      RowsOnlyGrow(apply, init, 1, es, m, |es|);
      AlwaysReadByTime(apply, init, 1, es, m);
      if es[m].Commit? && DbEnabled(db, es[m]) && db.txns[es[m].k].doc == doc {
        assert db.txns[es[m].k] in db.txns;
        TimeOrderIsLogOrder(db.rows, doc, db.txns[es[m].k].ids);
      }
    }
  }

  lemma TimeOrderIsLogOrder(rows: seq<Row>, doc: string, ids: seq<nat>)
    requires Clocked(rows, doc) && Known(rows, ids) && Distinct(ids) && (forall id | id in ids :: rows[id].doc == doc)
    requires forall i, j | 0 <= i < j < |ids| :: rows[ids[i]].createdAt <= rows[ids[j]].createdAt
    ensures Increasing(ids)
  {
    forall i, j | 0 <= i < j < |ids| ensures ids[i] < ids[j] { assert ids[i] in ids && ids[j] in ids; }
  }

  /** The place of a new row in a legal answer: behind all that are not later. */
  lemma {:induction false} Place(rows: seq<Row>, ids: seq<nat>, n: nat) returns (i: nat)
    requires Known(rows, ids) && n < |rows|
    requires forall j, k | 0 <= j < k < |ids| :: rows[ids[j]].createdAt <= rows[ids[k]].createdAt
    ensures i <= |ids| && forall j | i <= j < |ids| :: rows[ids[j]].createdAt > rows[n].createdAt
    ensures i > 0 ==> rows[ids[i - 1]].createdAt <= rows[n].createdAt
  {
    if ids == [] || rows[ids[|ids| - 1]].createdAt <= rows[n].createdAt { i := |ids|; }
    else { i := Place(rows, ids[..|ids| - 1], n); }
  }

  /** The query always has an answer. */
  lemma {:induction false} SomeAnswer(rows: seq<Row>, doc: string, n: nat) returns (ids: seq<nat>)
    requires n <= |rows|
    ensures IsPending(rows[..n], doc, ids)
  {
    if n == 0 {
      ids := [];
    } else {
      ids := SomeAnswer(rows, doc, n - 1);
      assert rows[..n] == rows[..n - 1] + [rows[n - 1]];
      if Pending(rows, doc, n - 1) {
        assert forall j | 0 <= j < |ids| :: ids[j] < n - 1 && rows[ids[j]] == rows[..n - 1][ids[j]];
        var i := Place(rows, ids, n - 1);
        InsertPending(rows, doc, ids, n - 1, i);
        ids := ids[..i] + [n - 1] + ids[i..];
      }
    }
  }

  /** A compactor is never stuck: an idle one can start on any document, a running one has an answer to its query or can
      commit, and it can fail at any point, which changes no table. */
  lemma NeverStuck<S(!new)>(apply: (S, Bytes) -> S, init: map<string, S>, db: Db<S>, k: nat)
    requires Sane(apply, init, db) && k < |db.txns|
    ensures DbEnabled(db, Abort(k)) && DbApply(apply, db, Abort(k)) == db.(txns := db.txns[k := Idle])
    ensures db.txns[k].Idle? ==> forall doc | doc in init :: DbEnabled(db, ReadBlob(k, doc))
    ensures db.txns[k].HasBlob? ==> exists ids :: DbEnabled(db, ReadRows(k, ids))
    ensures db.txns[k].HasRows? ==> DbEnabled(db, Commit(k))
  {
    assert TxnWell(apply, init, db.rows, db.txns[k]);
    if db.txns[k].HasBlob? {
      var ids := SomeAnswer(db.rows, db.txns[k].doc, |db.rows|);
      assert db.rows[..|db.rows|] == db.rows;
      assert DbEnabled(db, ReadRows(k, ids));
    }
  }

  lemma SwapTied(rows: seq<Row>, doc: string, ids: seq<nat>, k: nat)
    requires IsPending(rows, doc, ids) && k + 1 < |ids| && rows[ids[k]].createdAt == rows[ids[k + 1]].createdAt
    ensures IsPending(rows, doc, ids[k := ids[k + 1]][k + 1 := ids[k]])
  {
    var swapped := ids[k := ids[k + 1]][k + 1 := ids[k]];
    forall id ensures id in swapped <==> id in ids {
      if id in ids {
        var j :| 0 <= j < |ids| && ids[j] == id;
        assert swapped[if j == k then k + 1 else if j == k + 1 then k else j] == id;
      }
    }
  }

  /** The clock agrees with the insert order of the document's pending rows. */
  ghost predicate PendingClocked(rows: seq<Row>, doc: string) {
    forall i, j | 0 <= i < j < |rows| && Pending(rows, doc, i) && Pending(rows, doc, j) ::
      rows[i].createdAt < rows[j].createdAt
  }

  /** A tie, or a step back of the clock, between two pending rows allows an answer out of log order. */
  lemma TieShows(rows: seq<Row>, doc: string, i: nat, j: nat) returns (ids: seq<nat>)
    requires i < j < |rows| && Pending(rows, doc, i) && Pending(rows, doc, j) && rows[i].createdAt >= rows[j].createdAt
    ensures IsPending(rows, doc, ids) && !Increasing(ids)
  {
    ids := SomeAnswer(rows, doc, |rows|);
    assert rows[..|rows|] == rows;
    if Increasing(ids) {
      assert i in ids && j in ids;
      var a :| 0 <= a < |ids| && ids[a] == i;
      var b :| 0 <= b < |ids| && ids[b] == j;
      assert a < b && rows[ids[a]].createdAt <= rows[ids[a + 1]].createdAt <= rows[ids[b]].createdAt;
      SwapTied(rows, doc, ids, a);
      ids := ids[a := ids[a + 1]][a + 1 := ids[a]];
      assert ids[a] > ids[a + 1];
    }
  }

  /** The condition on the data: whatever the database answers, a batch is read in log order if and only if created_at
      strictly increases with the id over the document's pending rows. */
  lemma AnswersInOrderIff(rows: seq<Row>, doc: string)
    ensures PendingClocked(rows, doc) <==> forall ids | IsPending(rows, doc, ids) :: Increasing(ids)
  {
    if PendingClocked(rows, doc) {
      forall ids | IsPending(rows, doc, ids) ensures Increasing(ids) {
        forall i, j | 0 <= i < j < |ids| ensures ids[i] < ids[j] {
          assert ids[i] in ids && ids[j] in ids;
          assert Pending(rows, doc, ids[i]) && Pending(rows, doc, ids[j]);
        }
      }
    } else {
      var i, j :| 0 <= i < j < |rows| && Pending(rows, doc, i) && Pending(rows, doc, j)
               && rows[i].createdAt >= rows[j].createdAt;
      var ids := TieShows(rows, doc, i, j);
    }
  }

  /** No row is merged or about to be merged before it is there. */
  ghost predicate Bounded<S(!new)>(db: Db<S>, compactors: nat) {
    && |db.txns| == compactors
    && (forall doc | doc in db.merged :: Known(db.rows, db.merged[doc]))
    && forall t | t in db.txns && !t.Idle? :: Known(db.rows, t.base) && (t.HasRows? ==> Known(db.rows, t.ids))
  }

  lemma BoundedStep<S(!new)>(apply: (S, Bytes) -> S, db: Db<S>, compactors: nat, e: DbEvent)
    requires Bounded(db, compactors) && DbEnabled(db, e)
    ensures Bounded(DbApply(apply, db, e), compactors)
  {
    var d := DbApply(apply, db, e);
    assert |db.rows| <= |d.rows|;
    if !e.Append? { assert db.txns[e.k] in db.txns; }
    forall t | t in d.txns && !(!e.Append? && t == d.txns[e.k]) ensures t in db.txns {}
  }

  lemma {:induction false} AlwaysBounded<S(!new)>(apply: (S, Bytes) -> S, init: map<string, S>, compactors: nat,
                                                  es: seq<DbEvent>, n: nat)
    requires n <= |es|
    ensures Bounded(After(apply, init, compactors, es, n), compactors)
  {
    if n > 0 {
      AlwaysBounded(apply, init, compactors, es, n - 1);
      AfterNext(apply, init, compactors, es, n - 1);
      var db := After(apply, init, compactors, es, n - 1);
      if DbEnabled(db, es[n - 1]) { BoundedStep(apply, db, compactors, es[n - 1]); }
    }
  }

  /** Compactor k reads rows at event m and neither commits nor aborts before event n. */
  ghost predicate ReadsFrom<S(!new)>(apply: (S, Bytes) -> S, init: map<string, S>, compactors: nat, es: seq<DbEvent>,
                                     m: nat, n: nat, k: nat)
    requires m < n <= |es|
  {
    && es[m].ReadRows? && es[m].k == k && es[m].ids != [] && DbEnabled(After(apply, init, compactors, es, m), es[m])
    && forall i | m < i < n :: es[i] != Commit(k) && es[i] != Abort(k)
  }

  /** Its transaction still is what it was, and has nothing to do with rows inserted since. */
  lemma {:induction false} TxnFrozen<S(!new)>(apply: (S, Bytes) -> S, init: map<string, S>, compactors: nat,
                                              es: seq<DbEvent>, m: nat, n: nat, k: nat)
    requires m < n <= |es| && ReadsFrom(apply, init, compactors, es, m, n, k)
    ensures var before, db := After(apply, init, compactors, es, m), After(apply, init, compactors, es, n);
            && k < |db.txns| && db.txns[k].HasRows?
            && Known(before.rows, db.txns[k].base) && Known(before.rows, db.txns[k].ids)
  {
    AfterNext(apply, init, compactors, es, n - 1);
    if m == n - 1 {
      AlwaysBounded(apply, init, compactors, es, m);
      assert After(apply, init, compactors, es, m).txns[k] in After(apply, init, compactors, es, m).txns;
    } else {
      TxnFrozen(apply, init, compactors, es, m, n - 1, k);
    }
  }

  /** A lone compactor marks no row inserted since its read. */
  lemma {:induction false} LateRowUnmarked<S(!new)>(apply: (S, Bytes) -> S, init: map<string, S>, es: seq<DbEvent>,
                                                    m: nat, n: nat, id: nat)
    requires m < n <= |es| && ReadsFrom(apply, init, 1, es, m, n, 0)
    requires |After(apply, init, 1, es, m).rows| <= id < |After(apply, init, 1, es, n).rows|
    ensures !After(apply, init, 1, es, n).rows[id].compacted
  {
    AlwaysBounded(apply, init, 1, es, n - 1);
    AfterNext(apply, init, 1, es, n - 1);
    if m < n - 1 && id < |After(apply, init, 1, es, n - 1).rows| { LateRowUnmarked(apply, init, es, m, n - 1, id); }
  }

  /** Whatever happens between a snapshot's read and its commit, and however many compactors there are: the commit
      neither merges nor marks a row inserted after the read. With one compactor the row is then still pending, for
      the next. */
  lemma LateRowStaysPending<S(!new)>(apply: (S, Bytes) -> S, init: map<string, S>, compactors: nat, es: seq<DbEvent>,
                                     m: nat, n: nat, k: nat, id: nat)
    requires m < n < |es| && ReadsFrom(apply, init, compactors, es, m, n, k) && es[n] == Commit(k)
    requires |After(apply, init, compactors, es, m).rows| <= id < |After(apply, init, compactors, es, n).rows|
    ensures var db, d := After(apply, init, compactors, es, n), After(apply, init, compactors, es, n + 1);
            && k < |db.txns| && db.txns[k].HasRows? && db.txns[k].doc in d.merged && id !in d.merged[db.txns[k].doc]
            && id < |d.rows| && d.rows[id] == db.rows[id]
            && (compactors == 1 ==> Pending(d.rows, d.rows[id].doc, id))
  {
    TxnFrozen(apply, init, compactors, es, m, n, k);
    AlwaysBounded(apply, init, compactors, es, n);
    AfterNext(apply, init, compactors, es, n);
    assert After(apply, init, compactors, es, n).txns[k] in After(apply, init, compactors, es, n).txns;
    if compactors == 1 { LateRowUnmarked(apply, init, es, m, n, id); }
  }

  lemma {:induction false} DbMore<S(!new)>(apply: (S, Bytes) -> S, init: map<string, S>, compactors: nat,
                                           es: seq<DbEvent>, e: DbEvent)
    ensures var db := DbRun(apply, init, compactors, es);
            DbRun(apply, init, compactors, es + [e]) == if DbEnabled(db, e) then DbApply(apply, db, e) else db
  {
  }

  /** Two compactors: the second reads the blob before the first commits and the pending rows after. */
  function BothRead(doc: string, p: Bytes): seq<DbEvent> {
    [Append(doc, "ann", p, 0)] + [ReadBlob(0, doc)] + [ReadBlob(1, doc)]
  }

  function LostUpdate(doc: string, p: Bytes, q: Bytes): seq<DbEvent> {
    FirstCommits(doc, p) + [Append(doc, "ann", q, 1)] + [ReadRows(1, [1])] + [Commit(1)]
  }

  function FirstCommits(doc: string, p: Bytes): seq<DbEvent> { BothRead(doc, p) + [ReadRows(0, [0])] + [Commit(0)] }

  lemma BothReadState<S(!new)>(apply: (S, Bytes) -> S, base: S, doc: string, p: Bytes)
    ensures DbRun(apply, map[doc := base], 2, BothRead(doc, p))
         == Db(map[doc := base], [Row(doc, "ann", p, 0, false)], [HasBlob(doc, base, []), HasBlob(doc, base, [])],
               map[doc := []])
  {
    var init := map[doc := base];
    var e0, e1, e2 := Append(doc, "ann", p, 0), ReadBlob(0, doc), ReadBlob(1, doc);
    DbMore(apply, init, 2, [], e0);
    assert [] + [e0] == [e0];
    DbMore(apply, init, 2, [e0], e1);
    DbMore(apply, init, 2, [e0] + [e1], e2);
  }

  lemma FirstCommitsState<S(!new)>(apply: (S, Bytes) -> S, base: S, doc: string, p: Bytes)
    ensures DbRun(apply, map[doc := base], 2, FirstCommits(doc, p))
         == Db(map[doc := apply(base, p)], [Row(doc, "ann", p, 0, true)], [Idle, HasBlob(doc, base, [])],
               map[doc := [0]])
  {
    var init, es := map[doc := base], BothRead(doc, p);
    BothReadState(apply, base, doc, p);
    DbMore(apply, init, 2, es, ReadRows(0, [0]));
    var db := Db(init, [Row(doc, "ann", p, 0, false)], [HasRows(doc, base, [], [0]), HasBlob(doc, base, [])],
                 map[doc := []]);
    assert DbRun(apply, init, 2, es + [ReadRows(0, [0])]) == db;
    DbMore(apply, init, 2, es + [ReadRows(0, [0])], Commit(0));
    OnlyCommit(apply, base, doc, db);
    OneDiff(apply, base, p);
    assert Payloads(db.rows, [0]) == [p] && Mark(db.rows, [0]) == [Row(doc, "ann", p, 0, true)];
  }

  /** A commit in slot 0 that starts from a blob of no rows. */
  lemma OnlyCommit<S(!new)>(apply: (S, Bytes) -> S, base: S, doc: string, db: Db<S>)
    requires DbEnabled(db, Commit(0)) && db.txns[0] == HasRows(doc, base, [], db.txns[0].ids)
    requires db.blobs == map[doc := base] && db.merged == map[doc := []]
    ensures var ids := db.txns[0].ids;
            DbApply(apply, db, Commit(0)) == Db(map[doc := ApplyAll(apply, base, Payloads(db.rows, ids))],
                                                Mark(db.rows, ids),
                                                db.txns[0 := Idle], map[doc := ids])
  {
    assert [] + db.txns[0].ids == db.txns[0].ids;
  }

  lemma OneDiff<S>(apply: (S, Bytes) -> S, base: S, p: Bytes)
    ensures ApplyAll(apply, base, [p]) == apply(base, p)
  {
  }

  /** The second compactor's commit, from a blob it read before the first one's. */
  lemma StaleCommit<S(!new)>(apply: (S, Bytes) -> S, base: S, doc: string, p: Bytes, q: Bytes)
    ensures var db := Db(map[doc := apply(base, p)], [Row(doc, "ann", p, 0, true), Row(doc, "ann", q, 1, false)],
                         [Idle, HasRows(doc, base, [], [1])], map[doc := [0]]);
            && DbEnabled(db, Commit(1))
            && DbApply(apply, db, Commit(1)) == Overwritten(apply, base, doc, p, q)
  {
    var rows := [Row(doc, "ann", p, 0, true), Row(doc, "ann", q, 1, false)];
    assert Payloads(rows, [1]) == [q] && Mark(rows, [1]) == [Row(doc, "ann", p, 0, true), Row(doc, "ann", q, 1, true)];
    OneDiff(apply, base, q);
    assert [] + [1] == [1];
  }

  /** Row 0 is marked compacted, and the blob does not hold it. */
  function Overwritten<S>(apply: (S, Bytes) -> S, base: S, doc: string, p: Bytes, q: Bytes): Db<S> {
    Db(map[doc := apply(base, q)], [Row(doc, "ann", p, 0, true), Row(doc, "ann", q, 1, true)], [Idle, Idle],
       map[doc := [1]])
  }

  /** Two compactors lose an update for good, whatever the merge. */
  lemma TwoCompactorsLoseUpdates<S(!new)>(apply: (S, Bytes) -> S, base: S, doc: string, p: Bytes, q: Bytes)
    ensures DbRun(apply, map[doc := base], 2, LostUpdate(doc, p, q)) == Overwritten(apply, base, doc, p, q)
    ensures !Consistent(apply, map[doc := base], Overwritten(apply, base, doc, p, q))
  {
    var init, es := map[doc := base], FirstCommits(doc, p);
    FirstCommitsState(apply, base, doc, p);
    DbMore(apply, init, 2, es, Append(doc, "ann", q, 1));
    DbMore(apply, init, 2, es + [Append(doc, "ann", q, 1)], ReadRows(1, [1]));
    var db := DbRun(apply, init, 2, es + [Append(doc, "ann", q, 1)] + [ReadRows(1, [1])]);
    assert db == Db(map[doc := apply(base, p)], [Row(doc, "ann", p, 0, true), Row(doc, "ann", q, 1, false)],
                    [Idle, HasRows(doc, base, [], [1])], map[doc := [0]]);
    DbMore(apply, init, 2, es + [Append(doc, "ann", q, 1)] + [ReadRows(1, [1])], Commit(1));
    StaleCommit(apply, base, doc, p, q);
    var lost := Overwritten(apply, base, doc, p, q);
    assert Compacted(lost.rows, doc, 0) && 0 !in lost.merged[doc];
    assert !DocConsistent(apply, init, lost, doc);
  }

  /** Two inserts whose timestamps disagree with their order, compacted together. */
  function SkewedRows(doc: string, p: Bytes, q: Bytes): seq<DbEvent> {
    [Append(doc, "ann", p, 1)] + [Append(doc, "bob", q, 0)] + [ReadBlob(0, doc)]
  }

  function Skewed(doc: string, p: Bytes, q: Bytes): seq<DbEvent> {
    SkewedRows(doc, p, q) + [ReadRows(0, [1, 0])] + [Commit(0)]
  }

  lemma SkewedRowsState<S(!new)>(apply: (S, Bytes) -> S, base: S, doc: string, p: Bytes, q: Bytes)
    ensures DbRun(apply, map[doc := base], 1, SkewedRows(doc, p, q))
         == Db(map[doc := base], [Row(doc, "ann", p, 1, false), Row(doc, "bob", q, 0, false)],
               [HasBlob(doc, base, [])], map[doc := []])
  {
    var init := map[doc := base];
    var e0, e1 := Append(doc, "ann", p, 1), Append(doc, "bob", q, 0);
    DbMore(apply, init, 1, [], e0);
    assert [] + [e0] == [e0];
    DbMore(apply, init, 1, [e0], e1);
    DbMore(apply, init, 1, [e0] + [e1], ReadBlob(0, doc));
  }

  lemma SkewedState<S(!new)>(apply: (S, Bytes) -> S, base: S, doc: string, p: Bytes, q: Bytes)
    ensures DbRun(apply, map[doc := base], 1, Skewed(doc, p, q))
         == Db(map[doc := apply(apply(base, q), p)], [Row(doc, "ann", p, 1, true), Row(doc, "bob", q, 0, true)],
               [Idle], map[doc := [1, 0]])
  {
    var init, es := map[doc := base], SkewedRows(doc, p, q);
    SkewedRowsState(apply, base, doc, p, q);
    SkewedAnswer(doc, p, q);
    DbMore(apply, init, 1, es, ReadRows(0, [1, 0]));
    assert DbRun(apply, init, 1, es + [ReadRows(0, [1, 0])])
        == Db(init, [Row(doc, "ann", p, 1, false), Row(doc, "bob", q, 0, false)], [HasRows(doc, base, [], [1, 0])],
              map[doc := []]);
    DbMore(apply, init, 1, es + [ReadRows(0, [1, 0])], Commit(0));
    SkewedCommit(apply, base, doc, p, q);
  }

  lemma SkewedCommit<S(!new)>(apply: (S, Bytes) -> S, base: S, doc: string, p: Bytes, q: Bytes)
    ensures var db := Db(map[doc := base], [Row(doc, "ann", p, 1, false), Row(doc, "bob", q, 0, false)],
                         [HasRows(doc, base, [], [1, 0])], map[doc := []]);
            && DbEnabled(db, Commit(0))
            && DbApply(apply, db, Commit(0)) == Db(map[doc := apply(apply(base, q), p)],
                 [Row(doc, "ann", p, 1, true), Row(doc, "bob", q, 0, true)], [Idle], map[doc := [1, 0]])
  {
    SkewedAnswer(doc, p, q);
    TwoDiffs(apply, base, q, p);
    assert [] + [1, 0] == [1, 0];
  }

  /** What the query answers about these rows, and what merging the answer takes and marks. */
  lemma SkewedAnswer(doc: string, p: Bytes, q: Bytes)
    ensures var rows := [Row(doc, "ann", p, 1, false), Row(doc, "bob", q, 0, false)];
            && IsPending(rows, doc, [1, 0]) && Payloads(rows, [1, 0]) == [q, p]
            && Mark(rows, [1, 0]) == [Row(doc, "ann", p, 1, true), Row(doc, "bob", q, 0, true)]
  {
  }

  lemma TwoDiffs<S>(apply: (S, Bytes) -> S, base: S, p: Bytes, q: Bytes)
    ensures ApplyAll(apply, base, [p, q]) == apply(apply(base, p), q)
  {
    assert [p, q][..1] == [p];
    OneDiff(apply, base, p);
  }

  /** Then even one compactor does not merge in log order, so a merge that minds the order, like concatenation, gives
      something else than a snapshot in log order. */
  lemma SkewedClockReorders<S(!new)>(apply: (S, Bytes) -> S, base: S, doc: string, p: Bytes, q: Bytes)
    ensures var db := DbRun(apply, map[doc := base], 1, Skewed(doc, p, q));
            && !Clocked(db.rows, doc)
            && db.blobs == map[doc := apply(apply(base, q), p)]
            && OneSnapshot(apply, base, db.rows, doc) == apply(apply(base, p), q)
  {
    SkewedState(apply, base, doc, p, q);
    var rows := DbRun(apply, map[doc := base], 1, Skewed(doc, p, q)).rows;
    assert rows[0].doc == rows[1].doc && rows[0].createdAt > rows[1].createdAt;
    IncreasingUnique(CompactedIds(rows, doc, 2), [0, 1]);
    assert Payloads(rows, [0, 1]) == [p, q];
    TwoDiffs(apply, base, p, q);
  }

  /** The merge in use today. */
  function Concatenate(blob: Bytes, diff: Bytes): Bytes { blob + diff }

  function Glued(diffs: seq<Bytes>): Bytes {
    if diffs == [] then [] else Glued(diffs[..|diffs| - 1]) + diffs[|diffs| - 1]
  }

  lemma {:induction false} ConcatenationGlues(base: Bytes, diffs: seq<Bytes>)
    ensures ApplyAll(Concatenate, base, diffs) == base + Glued(diffs)
  {
    if diffs != [] { ConcatenationGlues(base, diffs[..|diffs| - 1]); }
  }

  /** In every consistent state the blob is the original one and the compacted payloads end to end, in the order
      merged, so batching is invisible exactly if that order and the log order spell the same bytes. */
  lemma {:induction false} ConcatenatedBlob(init: map<string, Bytes>, db: Db<Bytes>, doc: string)
    requires Consistent(Concatenate, init, db) && doc in init
    ensures Known(db.rows, db.merged[doc]) && db.blobs[doc] == init[doc] + Glued(Payloads(db.rows, db.merged[doc]))
    ensures db.blobs[doc] == OneSnapshot(Concatenate, init[doc], db.rows, doc) <==>
            Glued(Payloads(db.rows, db.merged[doc])) == Glued(Payloads(db.rows, CompactedIds(db.rows, doc, |db.rows|)))
  {
    assert DocConsistent(Concatenate, init, db, doc);
    var base, a := init[doc], Glued(Payloads(db.rows, db.merged[doc]));
    var b := Glued(Payloads(db.rows, CompactedIds(db.rows, doc, |db.rows|)));
    ConcatenationGlues(base, Payloads(db.rows, db.merged[doc]));
    ConcatenationGlues(base, Payloads(db.rows, CompactedIds(db.rows, doc, |db.rows|)));
    assert (base + a)[|base|..] == a && (base + b)[|base|..] == b;
  }

  /** With it, those two inserts end up as in log order if and only if the two diffs commute as byte strings. */
  lemma ConcatenationMindsTheClock(base: Bytes, doc: string, p: Bytes, q: Bytes)
    ensures var db := DbRun(Concatenate, map[doc := base], 1, Skewed(doc, p, q));
            doc in db.blobs && (db.blobs[doc] == OneSnapshot(Concatenate, base, db.rows, doc) <==> p + q == q + p)
  {
    SkewedClockReorders(Concatenate, base, doc, p, q);
    assert base + q + p == base + (q + p) && base + p + q == base + (p + q);
    assert (base + (q + p))[|base|..] == q + p && (base + (p + q))[|base|..] == p + q;
  }
}
