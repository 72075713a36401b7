/** The append-only update log and its compaction into document blobs, as steps that interleave. */
module UpdateLog {
  import opened Basics
  import opened Merge

  /** A row of `updates`; its id is its index. `compacted` says that compacted_at is set. */
  datatype Row = Row(doc: string, user: string, payload: Bytes, createdAt: int, compacted: bool)

  /** A SnapshotState transaction: not running, or after reading the blob, or after reading the pending rows as well.
      `base` is history: the rows that the blob it read was made of. */
  datatype Txn<S> =
    | Idle
    | HasBlob(doc: string, blob: S, base: seq<nat>)
    | HasRows(doc: string, blob: S, base: seq<nat>, ids: seq<nat>)

  /** The tables, one transaction slot per compactor, and as history the rows each blob was made of, in order. */
  datatype Db<S> = Db(blobs: map<string, S>, rows: seq<Row>, txns: seq<Txn<S>>, merged: map<string, seq<nat>>)

  datatype DbEvent =
    | Append(doc: string, user: string, payload: Bytes, createdAt: int)
    | ReadBlob(k: nat, doc: string)
    | ReadRows(k: nat, ids: seq<nat>) // with the answer of the query
    | Commit(k: nat)
    | Abort(k: nat)

  predicate Pending(rows: seq<Row>, doc: string, id: nat) {
    id < |rows| && rows[id].doc == doc && !rows[id].compacted
  }

  predicate Compacted(rows: seq<Row>, doc: string, id: nat) {
    id < |rows| && rows[id].doc == doc && rows[id].compacted
  }

  ghost predicate Known(rows: seq<Row>, ids: seq<nat>) { forall i | 0 <= i < |ids| :: ids[i] < |rows| }

  /** A legal answer to the query for a document's rows without compacted_at, ordered by created_at. */
  ghost predicate IsPending(rows: seq<Row>, doc: string, ids: seq<nat>) {
    && (forall id :: id in ids <==> Pending(rows, doc, id))
    && Distinct(ids) && Known(rows, ids)
    && forall i, j | 0 <= i < j < |ids| :: rows[ids[i]].createdAt <= rows[ids[j]].createdAt
  }

  /** Inserting the next pending row before the first later one keeps the answer legal. */
  lemma InsertPending(rows: seq<Row>, doc: string, ids: seq<nat>, n: nat, i: nat)
    requires n < |rows| && Pending(rows, doc, n) && IsPending(rows[..n], doc, ids) && i <= |ids|
    requires forall j | i <= j < |ids| :: rows[ids[j]].createdAt > rows[n].createdAt
    requires i > 0 ==> rows[ids[i - 1]].createdAt <= rows[n].createdAt
    ensures IsPending(rows[..n + 1], doc, ids[..i] + [n] + ids[i..])
  {
    var r, new' := rows[..n + 1], ids[..i] + [n] + ids[i..];
    InsertMembers(rows, doc, ids, n, i);
    forall j | 0 <= j < |ids| ensures ids[j] < n && rows[..n][ids[j]] == r[ids[j]] { assert ids[j] in ids; }
    assert forall j | 0 <= j < i :: r[ids[j]].createdAt <= r[n].createdAt;
  }

  lemma InsertMembers(rows: seq<Row>, doc: string, ids: seq<nat>, n: nat, i: nat)
    requires n < |rows| && Pending(rows, doc, n) && IsPending(rows[..n], doc, ids) && i <= |ids|
    ensures forall id: nat :: id in ids[..i] + [n] + ids[i..] <==> Pending(rows[..n + 1], doc, id)
  {
    forall id: nat ensures id in ids[..i] + [n] + ids[i..] <==> Pending(rows[..n + 1], doc, id) {
      assert ids == ids[..i] + ids[i..];
      assert id in ids <==> Pending(rows[..n], doc, id);
    }
  }

  function Payloads(rows: seq<Row>, ids: seq<nat>): seq<Bytes>
    requires Known(rows, ids)
  {
    seq(|ids|, i requires 0 <= i < |ids| => rows[ids[i]].payload)
  }

  function Mark(rows: seq<Row>, ids: seq<nat>): seq<Row> {
    seq(|rows|, i requires 0 <= i < |rows| => if i in ids then rows[i].(compacted := true) else rows[i])
  }

  ghost predicate DbEnabled<S(!new)>(db: Db<S>, e: DbEvent) {
    match e
    case Append(doc, _, _, _) => doc in db.blobs // the foreign key
    case ReadBlob(k, doc) => k < |db.txns| && db.txns[k].Idle? && doc in db.blobs && doc in db.merged
    case ReadRows(k, ids) => k < |db.txns| && db.txns[k].HasBlob? && IsPending(db.rows, db.txns[k].doc, ids)
    case Commit(k) => k < |db.txns| && db.txns[k].HasRows? && Known(db.rows, db.txns[k].ids)
    case Abort(k) => k < |db.txns|
  }

  ghost function DbApply<S(!new)>(apply: (S, Bytes) -> S, db: Db<S>, e: DbEvent): Db<S>
    requires DbEnabled(db, e)
  {
    match e
    case Append(doc, user, payload, createdAt) => db.(rows := db.rows + [Row(doc, user, payload, createdAt, false)])
    case ReadBlob(k, doc) => db.(txns := db.txns[k := HasBlob(doc, db.blobs[doc], db.merged[doc])])
    case ReadRows(k, ids) =>
      var t := db.txns[k];
      db.(txns := db.txns[k := if ids == [] then Idle else HasRows(t.doc, t.blob, t.base, ids)])
    case Commit(k) =>
      var t := db.txns[k];
      Db(db.blobs[t.doc := ApplyAll(apply, t.blob, Payloads(db.rows, t.ids))], Mark(db.rows, t.ids),
         db.txns[k := Idle], db.merged[t.doc := t.base + t.ids])
    case Abort(k) => db.(txns := db.txns[k := Idle])
  }

  ghost function DbRun<S(!new)>(apply: (S, Bytes) -> S, init: map<string, S>, compactors: nat,
                                es: seq<DbEvent>): Db<S> {
    if es == [] then Db(init, [], seq(compactors, _ => Idle), map doc | doc in init :: [])
    else
      var db := DbRun(apply, init, compactors, es[..|es| - 1]);
      if DbEnabled(db, es[|es| - 1]) then DbApply(apply, db, es[|es| - 1]) else db
  }

  /** `ids` are distinct rows of the document, and `blob` is made of exactly them, in that order. */
  ghost predicate MadeOf<S(!new)>(apply: (S, Bytes) -> S, init: map<string, S>, rows: seq<Row>, doc: string, blob: S,
                                  ids: seq<nat>) {
    doc in init && Known(rows, ids) && Distinct(ids) && blob == ApplyAll(apply, init[doc], Payloads(rows, ids))
  }

  /** Every row is pending or was merged into its document's blob exactly once, and the blob holds nothing else. */
  ghost predicate Consistent<S(!new)>(apply: (S, Bytes) -> S, init: map<string, S>, db: Db<S>) {
    && db.blobs.Keys == init.Keys && db.merged.Keys == init.Keys
    && forall doc | doc in init :: DocConsistent(apply, init, db, doc)
  }

  ghost predicate DocConsistent<S(!new)>(apply: (S, Bytes) -> S, init: map<string, S>, db: Db<S>, doc: string)
    requires doc in db.blobs && doc in db.merged
  {
    && MadeOf(apply, init, db.rows, doc, db.blobs[doc], db.merged[doc])
    && forall id :: id in db.merged[doc] <==> Compacted(db.rows, doc, id)
  }

  /** What a transaction holds in every run, however many compactors there are. */
  ghost predicate TxnWell<S(!new)>(apply: (S, Bytes) -> S, init: map<string, S>, rows: seq<Row>, t: Txn<S>) {
    t.Idle? ||
    (&& MadeOf(apply, init, rows, t.doc, t.blob, t.base)
     && (forall id | id in t.base :: Compacted(rows, t.doc, id))
     && (t.HasRows? ==> && Known(rows, t.ids) && Distinct(t.ids)
                        && forall id | id in t.ids :: id !in t.base && rows[id].doc == t.doc))
  }

  ghost predicate Sane<S(!new)>(apply: (S, Bytes) -> S, init: map<string, S>, db: Db<S>) {
    Consistent(apply, init, db) && forall k | 0 <= k < |db.txns| :: TxnWell(apply, init, db.rows, db.txns[k])
  }

  /** Nothing was compacted behind the transaction's back: each compacted row is in the blob it read or about to be
      merged. */
  ghost predicate Fresh<S(!new)>(db: Db<S>, e: DbEvent) {
    e.Commit? && DbEnabled(db, e) ==>
      var t := db.txns[e.k];
      forall id | Compacted(db.rows, t.doc, id) :: id in t.base || id in t.ids
  }

  lemma PayloadsStable(rows: seq<Row>, rows': seq<Row>, ids: seq<nat>)
    requires Known(rows, ids) && |rows| <= |rows'| && forall i | 0 <= i < |rows| :: rows'[i].payload == rows[i].payload
    ensures Known(rows', ids) && Payloads(rows', ids) == Payloads(rows, ids)
  {
  }

  lemma PayloadsConcat(rows: seq<Row>, a: seq<nat>, b: seq<nat>)
    requires Known(rows, a) && Known(rows, b)
    ensures Known(rows, a + b) && Payloads(rows, a + b) == Payloads(rows, a) + Payloads(rows, b)
  {
  }

  /** The blob a commit writes is made of the rows of the blob it read and then the rows it read. */
  lemma CommitBlob<S(!new)>(apply: (S, Bytes) -> S, init: map<string, S>, rows: seq<Row>, t: Txn<S>)
    requires t.HasRows? && TxnWell(apply, init, rows, t)
    ensures MadeOf(apply, init, Mark(rows, t.ids), t.doc,
                   ApplyAll(apply, t.blob, Payloads(rows, t.ids)), t.base + t.ids)
  {
    PayloadsConcat(rows, t.base, t.ids);
    PayloadsStable(rows, Mark(rows, t.ids), t.base + t.ids);
    ApplyBatches(apply, init[t.doc], Payloads(rows, t.base), Payloads(rows, t.ids));
  }

  lemma OtherDocs<S(!new)>(apply: (S, Bytes) -> S, init: map<string, S>, db: Db<S>, k: nat, doc: string)
    requires Sane(apply, init, db) && DbEnabled(db, Commit(k)) && doc in init && doc != db.txns[k].doc
    ensures DocConsistent(apply, init, DbApply(apply, db, Commit(k)), doc)
  {
    var t, d := db.txns[k], DbApply(apply, db, Commit(k));
    assert DocConsistent(apply, init, db, doc) && TxnWell(apply, init, db.rows, t);
    PayloadsStable(db.rows, d.rows, db.merged[doc]);
    forall id ensures Compacted(d.rows, doc, id) <==> Compacted(db.rows, doc, id) {}
  }

  lemma OwnDoc<S(!new)>(apply: (S, Bytes) -> S, init: map<string, S>, db: Db<S>, k: nat)
    requires Sane(apply, init, db) && DbEnabled(db, Commit(k))
    ensures DocConsistent(apply, init, DbApply(apply, db, Commit(k)), db.txns[k].doc) <==> Fresh(db, Commit(k))
  {
    var t, d := db.txns[k], DbApply(apply, db, Commit(k));
    assert TxnWell(apply, init, db.rows, t);
    CommitBlob(apply, init, db.rows, t);
    forall id ensures Compacted(d.rows, t.doc, id) <==> Compacted(db.rows, t.doc, id) || id in t.ids {}
    forall id ensures id in d.merged[t.doc] <==> id in t.base || id in t.ids {}
  }

  /** A commit keeps the tables consistent if and only if its transaction is fresh. */
  lemma CommitConsistent<S(!new)>(apply: (S, Bytes) -> S, init: map<string, S>, db: Db<S>, k: nat)
    requires Sane(apply, init, db) && DbEnabled(db, Commit(k))
    ensures Consistent(apply, init, DbApply(apply, db, Commit(k))) <==> Fresh(db, Commit(k))
  {
    var t, d := db.txns[k], DbApply(apply, db, Commit(k));
    assert TxnWell(apply, init, db.rows, t);
    OwnDoc(apply, init, db, k);
    assert d.blobs.Keys == init.Keys && d.merged.Keys == init.Keys;
    forall doc | doc in init && doc != t.doc
      ensures DocConsistent(apply, init, d, doc)
    {
      OtherDocs(apply, init, db, k, doc);
    }
  }

  /** Rows are only ever appended or marked, so what a transaction knows stays true. */
  lemma TxnStable<S(!new)>(apply: (S, Bytes) -> S, init: map<string, S>, rows: seq<Row>, rows': seq<Row>, t: Txn<S>)
    requires TxnWell(apply, init, rows, t) && |rows| <= |rows'|
    requires forall i | 0 <= i < |rows| :: rows'[i] == rows[i] || rows'[i] == rows[i].(compacted := true)
    ensures TxnWell(apply, init, rows', t)
  {
    if !t.Idle? { PayloadsStable(rows, rows', t.base); }
  }

  lemma AppendConsistent<S(!new)>(apply: (S, Bytes) -> S, init: map<string, S>, db: Db<S>, e: DbEvent)
    requires Consistent(apply, init, db) && e.Append? && DbEnabled(db, e)
    ensures Consistent(apply, init, DbApply(apply, db, e))
  {
    var d := DbApply(apply, db, e);
    forall doc | doc in init ensures DocConsistent(apply, init, d, doc) {
      assert DocConsistent(apply, init, db, doc);
      PayloadsStable(db.rows, d.rows, db.merged[doc]);
    }
  }

  /** Any step of any number of compactors keeps everything, if and only if it is not a commit of a stale
      transaction. */
  lemma DbStep<S(!new)>(apply: (S, Bytes) -> S, init: map<string, S>, db: Db<S>, e: DbEvent)
    requires Sane(apply, init, db) && DbEnabled(db, e)
    ensures Sane(apply, init, DbApply(apply, db, e)) <==> Fresh(db, e)
  {
    var d := DbApply(apply, db, e);
    if e.Append? { AppendConsistent(apply, init, db, e); }
    else if e.Commit? { CommitConsistent(apply, init, db, e.k); }
    else {
      forall doc | doc in init
        ensures DocConsistent(apply, init, d, doc)
      {
        assert DocConsistent(apply, init, db, doc);
      }
    }
    forall k | 0 <= k < |d.txns| ensures TxnWell(apply, init, d.rows, d.txns[k]) { TxnsStep(apply, init, db, e, k); }
  }

  lemma TxnsStep<S(!new)>(apply: (S, Bytes) -> S, init: map<string, S>, db: Db<S>, e: DbEvent, k: nat)
    requires Sane(apply, init, db) && DbEnabled(db, e) && k < |db.txns|
    ensures var d := DbApply(apply, db, e); |d.txns| == |db.txns| && TxnWell(apply, init, d.rows, d.txns[k])
  {
    var d := DbApply(apply, db, e);
    assert TxnWell(apply, init, db.rows, db.txns[k]);
    TxnStable(apply, init, db.rows, d.rows, db.txns[k]);
    if e.ReadBlob? && e.k == k { assert DocConsistent(apply, init, db, e.doc); }
  }

  /** The tables after the first n events of a run. */
  ghost function After<S(!new)>(apply: (S, Bytes) -> S, init: map<string, S>, compactors: nat, es: seq<DbEvent>,
                                n: nat): Db<S>
    requires n <= |es|
  {
    DbRun(apply, init, compactors, es[..n])
  }

  lemma AfterNext<S(!new)>(apply: (S, Bytes) -> S, init: map<string, S>, compactors: nat, es: seq<DbEvent>, n: nat)
    requires n < |es|
    ensures var db := After(apply, init, compactors, es, n);
            After(apply, init, compactors, es, n + 1) == if DbEnabled(db, es[n]) then DbApply(apply, db, es[n]) else db
  {
    assert es[..n + 1][..n] == es[..n];
  }

  /** Over any interleaving of appends, reads, commits and aborts of any number of compactors: nothing is lost and
      nothing is merged twice in any state of the run, if and only if no commit was stale. */
  lemma {:induction false} LogIsCompactedOnce<S(!new)>(apply: (S, Bytes) -> S, init: map<string, S>, compactors: nat,
                                                       es: seq<DbEvent>)
    ensures (forall n | 0 <= n <= |es| :: Sane(apply, init, After(apply, init, compactors, es, n)))
       <==> (forall n | 0 <= n < |es| :: Fresh(After(apply, init, compactors, es, n), es[n]))
  {
    if forall n | 0 <= n <= |es| :: Sane(apply, init, After(apply, init, compactors, es, n)) {
      forall n | 0 <= n < |es| ensures Fresh(After(apply, init, compactors, es, n), es[n]) {
        var db := After(apply, init, compactors, es, n);
        AfterNext(apply, init, compactors, es, n);
        assert Sane(apply, init, db) && Sane(apply, init, After(apply, init, compactors, es, n + 1));
        if DbEnabled(db, es[n]) { DbStep(apply, init, db, es[n]); }
      }
    }
    if forall n | 0 <= n < |es| :: Fresh(After(apply, init, compactors, es, n), es[n]) {
      forall n | 0 <= n <= |es| ensures Sane(apply, init, After(apply, init, compactors, es, n)) {
        SaneAfter(apply, init, compactors, es, n);
      }
    }
  }

  lemma {:induction false} SaneAfter<S(!new)>(apply: (S, Bytes) -> S, init: map<string, S>, compactors: nat,
                                              es: seq<DbEvent>, n: nat)
    requires n <= |es| && forall i | 0 <= i < n :: Fresh(After(apply, init, compactors, es, i), es[i])
    ensures Sane(apply, init, After(apply, init, compactors, es, n))
  {
    if n > 0 {
      SaneAfter(apply, init, compactors, es, n - 1);
      AfterNext(apply, init, compactors, es, n - 1);
      var db := After(apply, init, compactors, es, n - 1);
      if DbEnabled(db, es[n - 1]) { DbStep(apply, init, db, es[n - 1]); }
    }
  }

  /** With one compactor, what it read is what is there: nobody else commits. */
  ghost predicate Undisturbed<S(!new)>(db: Db<S>) {
    && |db.txns| == 1
    && (!db.txns[0].Idle? ==> db.txns[0].doc in db.merged && db.txns[0].base == db.merged[db.txns[0].doc])
  }

  lemma UndisturbedIsFresh<S(!new)>(apply: (S, Bytes) -> S, init: map<string, S>, db: Db<S>, e: DbEvent)
    requires Sane(apply, init, db) && Undisturbed(db)
    ensures Fresh(db, e)
  {
  }

  lemma UndisturbedStep<S(!new)>(apply: (S, Bytes) -> S, db: Db<S>, e: DbEvent)
    requires Undisturbed(db) && DbEnabled(db, e)
    ensures Undisturbed(DbApply(apply, db, e))
  {
  }

  /** One compactor never commits a stale transaction, so every run of one compactor is consistent throughout. */
  lemma {:induction false} OneCompactorIsFresh<S(!new)>(apply: (S, Bytes) -> S, init: map<string, S>,
                                                        es: seq<DbEvent>, n: nat)
    requires n <= |es|
    ensures Sane(apply, init, After(apply, init, 1, es, n)) && Undisturbed(After(apply, init, 1, es, n))
    ensures n < |es| ==> Fresh(After(apply, init, 1, es, n), es[n])
  {
    if n > 0 {
      OneCompactorIsFresh(apply, init, es, n - 1);
      AfterNext(apply, init, 1, es, n - 1);
      var db := After(apply, init, 1, es, n - 1);
      if DbEnabled(db, es[n - 1]) {
        DbStep(apply, init, db, es[n - 1]);
        UndisturbedStep(apply, db, es[n - 1]);
      }
    }
    if n < |es| { UndisturbedIsFresh(apply, init, After(apply, init, 1, es, n), es[n]); }
  }
}
