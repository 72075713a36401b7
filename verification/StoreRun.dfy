/** The store as it is written: tables that AppendUpdate, SnapshotState and the compactor's pass change in place. */
module StoreRun {
  import opened Basics
  import opened Merge
  import opened UpdateLog

  /** The tables after an undisturbed snapshot of one document that read the rows `ids`. */
  ghost function Snapshot<S(!new)>(apply: (S, Bytes) -> S, db: Db<S>, doc: string, ids: seq<nat>): Db<S>
    requires doc in db.blobs && doc in db.merged && Known(db.rows, ids)
  {
    db.(blobs := db.blobs[doc := ApplyAll(apply, db.blobs[doc], Payloads(db.rows, ids))],
        rows := Mark(db.rows, ids), merged := db.merged[doc := db.merged[doc] + ids])
  }

  /** The transaction's steps when nothing comes between them; with nothing pending it ends after the reads. */
  ghost function ThreeSteps<S(!new)>(apply: (S, Bytes) -> S, db: Db<S>, doc: string, ids: seq<nat>): Db<S>
    requires db.txns == [Idle] && doc in db.blobs && doc in db.merged && IsPending(db.rows, doc, ids)
  {
    var read := DbApply(apply, DbApply(apply, db, ReadBlob(0, doc)), ReadRows(0, ids));
    if ids == [] then read else DbApply(apply, read, Commit(0))
  }

  lemma SnapshotIsThreeSteps<S(!new)>(apply: (S, Bytes) -> S, db: Db<S>, doc: string, ids: seq<nat>)
    requires db.txns == [Idle] && doc in db.blobs && doc in db.merged && IsPending(db.rows, doc, ids)
    ensures Snapshot(apply, db, doc, ids) == ThreeSteps(apply, db, doc, ids)
  {
    var d1 := DbApply(apply, db, ReadBlob(0, doc));
    assert d1 == db.(txns := [HasBlob(doc, db.blobs[doc], db.merged[doc])]);
    if ids == [] {
      assert Mark(db.rows, ids) == db.rows && db.merged[doc] + ids == db.merged[doc];
      assert DbApply(apply, d1, ReadRows(0, ids)).txns == [Idle];
    } else {
      var d2 := DbApply(apply, d1, ReadRows(0, ids));
      assert d2 == db.(txns := [HasRows(doc, db.blobs[doc], db.merged[doc], ids)]);
      assert DbApply(apply, d2, Commit(0)).txns == [Idle];
    }
  }

  lemma SnapshotConsistent<S(!new)>(apply: (S, Bytes) -> S, init: map<string, S>, db: Db<S>, doc: string, ids: seq<nat>)
    requires db.txns == [Idle] && Consistent(apply, init, db) && doc in init && IsPending(db.rows, doc, ids)
    ensures Consistent(apply, init, Snapshot(apply, db, doc, ids))
  {
    assert Sane(apply, init, db) && Undisturbed(db);
    var e1, e2, e3 := ReadBlob(0, doc), ReadRows(0, ids), Commit(0);
    var d1 := DbApply(apply, db, e1);
    DbStep(apply, init, db, e1);
    UndisturbedStep(apply, db, e1);
    var d2 := DbApply(apply, d1, e2);
    DbStep(apply, init, d1, e2);
    UndisturbedStep(apply, d1, e2);
    SnapshotIsThreeSteps(apply, db, doc, ids);
    if ids != [] {
      UndisturbedIsFresh(apply, init, d2, e3);
      DbStep(apply, init, d2, e3);
    }
  }

  class Store<S(!new)> {
    const apply: (S, Bytes) -> S
    var blobs: map<string, S>
    var rows: seq<Row>
    ghost const init: map<string, S>
    ghost var merged: map<string, seq<nat>>

    ghost function View(): Db<S>
      reads this
    {
      Db(blobs, rows, [Idle], merged)
    }

    ghost predicate Valid()
      reads this
    {
      Consistent(apply, init, View())
    }

    /** A store of documents without updates. */
    constructor (apply: (S, Bytes) -> S, docs: map<string, S>)
      ensures Valid() && this.apply == apply && init == docs && blobs == docs && rows == []
    {
      this.apply, blobs, rows, init := apply, docs, [], docs;
      merged := map doc | doc in docs :: [];
    }

    /** The insert fails if the document does not exist: the foreign key. */
    method AppendUpdate(docID: string, userID: string, payload: Bytes, now: int) returns (ok: bool)
      requires Valid()
      modifies this`rows
      ensures Valid() && ok == (docID in blobs)
      ensures rows == old(rows) + if ok then [Row(docID, userID, payload, now, false)] else []
    {
      ok := docID in blobs;
      if ok {
        AppendConsistent(apply, init, View(), Append(docID, userID, payload, now));
        rows := rows + [Row(docID, userID, payload, now, false)];
      }
    }

    /** The blob alone, which is the merge of the compacted rows: rows still pending are not part of what a joiner
        gets. */
    method LoadBlob(docID: string) returns (blob: Option<S>)
      requires Valid()
      ensures blob == if docID in blobs then Some(blobs[docID]) else None
      ensures blob.Some? ==> (&& docID in init && docID in merged && Known(rows, merged[docID])
                              && blob.value == ApplyAll(apply, init[docID], Payloads(rows, merged[docID]))
                              && Distinct(merged[docID])
                              && forall id: nat :: id in merged[docID] <==> Compacted(rows, docID, id))
    {
      if docID !in blobs { return None; }
      assert DocConsistent(apply, init, View(), docID);
      blob := Some(blobs[docID]);
    }

    /** SELECT ... WHERE doc_id = ? AND compacted_at IS NULL ORDER BY created_at. */
    method FindPending(docID: string) returns (ids: seq<nat>)
      ensures IsPending(rows, docID, ids)
    {
      ids := [];
      for n := 0 to |rows|
        invariant IsPending(rows[..n], docID, ids)
      {
        assert rows[..n + 1] == rows[..n] + [rows[n]];
        if rows[n].doc == docID && !rows[n].compacted {
          var i := FirstLater(ids, rows[n].createdAt);
          InsertPending(rows, docID, ids, n, i);
          ids := ids[..i] + [n] + ids[i..];
        }
      }
      assert rows[..|rows|] == rows;
    }

    method FirstLater(ids: seq<nat>, createdAt: int) returns (i: nat)
      requires Known(rows, ids)
      ensures i <= |ids| && forall j | i <= j < |ids| :: rows[ids[j]].createdAt > createdAt
      ensures i > 0 ==> rows[ids[i - 1]].createdAt <= createdAt
    {
      i := |ids|;
      while i > 0 && rows[ids[i - 1]].createdAt > createdAt
        invariant i <= |ids| && forall j | i <= j < |ids| :: rows[ids[j]].createdAt > createdAt
      {
        i := i - 1;
      }
    }

    /** The loop that extends newBlob. */
    method MergeUpdates(blob: S, updates: seq<nat>) returns (newBlob: S)
      requires Known(rows, updates)
      ensures newBlob == ApplyAll(apply, blob, Payloads(rows, updates))
    {
      newBlob := blob;
      for i := 0 to |updates|
        invariant newBlob == ApplyAll(apply, blob, Payloads(rows, updates)[..i])
      {
        newBlob := apply(newBlob, rows[updates[i]].payload);
        assert Payloads(rows, updates)[..i + 1][..i] == Payloads(rows, updates)[..i];
      }
      assert Payloads(rows, updates)[..|updates|] == Payloads(rows, updates);
    }

    /** Errors only if the document is missing. The rows it merges and marks are the ones it read, in the order read. */
    method SnapshotState(docID: string) returns (ok: bool, ghost read: seq<nat>)
      requires Valid()
      modifies this
      ensures Valid() && ok == (docID in old(blobs)) && blobs.Keys == old(blobs).Keys
      ensures !ok ==> View() == old(View())
      ensures ok ==> IsPending(old(rows), docID, read)
      ensures ok ==> docID in old(merged) && View() == Snapshot(apply, old(View()), docID, read)
    {
      read := [];
      if docID !in blobs { return false, read; }
      ok := true;
      assert DocConsistent(apply, init, View(), docID);
      var updates := FindPending(docID);
      read := updates;
      if updates == [] {
        NothingToCompact(apply, View(), docID);
        return;
      }
      WriteSnapshot(docID, updates);
    }

    /** The merge of what was read, and the transaction's two writes. */
    method WriteSnapshot(docID: string, updates: seq<nat>)
      requires Valid() && docID in init && IsPending(rows, docID, updates)
      modifies this
      ensures Valid() && View() == Snapshot(apply, old(View()), docID, updates)
    {
      SnapshotConsistent(apply, init, View(), docID, updates);
      var newBlob := MergeUpdates(blobs[docID], updates);
      blobs, rows := blobs[docID := newBlob], Mark(rows, updates);
      merged := merged[docID := merged[docID] + updates];
    }

    /** One tick of StartCompactor, with nothing else running: afterwards no row of an existing document is pending. */
    method CompactorPass()
      requires Valid()
      modifies this
      ensures Valid() && blobs.Keys == old(blobs).Keys && OnlyMarked(old(rows), rows)
      ensures forall i | 0 <= i < |rows| :: rows[i].doc in blobs ==> rows[i].compacted
    {
      var docIDs := set row | row in rows && !row.compacted :: row.doc;
      while docIDs != {}
        invariant Valid() && blobs.Keys == old(blobs).Keys && OnlyMarked(old(rows), rows)
        invariant PendingOnlyIn(rows, blobs.Keys, docIDs)
        decreases docIDs
      {
        var docID :| docID in docIDs;
        ghost var before := rows;
        var ok := SnapshotDoc(docID);
        OneDocLess(old(rows), before, rows, blobs.Keys, docIDs, docID, ok);
        docIDs := docIDs - {docID};
      }
    }

    method SnapshotDoc(docID: string) returns (ok: bool)
      requires Valid()
      modifies this
      ensures Valid() && ok == (docID in blobs) && blobs.Keys == old(blobs).Keys && OnlyMarked(old(rows), rows)
      ensures forall i | 0 <= i < |rows| && !rows[i].compacted ::
                !old(rows)[i].compacted && !(ok && rows[i].doc == docID)
    {
      ghost var read;
      ok, read := SnapshotState(docID);
      if ok { MarksPending(old(rows), rows, docID, read); }
    }
  }

  /** No row was added, lost or changed, except that some were marked as compacted. */
  ghost predicate OnlyMarked(before: seq<Row>, rows: seq<Row>) {
    |rows| == |before| && forall i | 0 <= i < |rows| :: rows[i] == before[i] || rows[i] == before[i].(compacted := true)
  }

  /** Every pending row of an existing document is of one of these. */
  ghost predicate PendingOnlyIn(rows: seq<Row>, docs: set<string>, docIDs: set<string>) {
    forall i | 0 <= i < |rows| && !rows[i].compacted && rows[i].doc in docs :: rows[i].doc in docIDs
  }

  lemma OneDocLess(first: seq<Row>, before: seq<Row>, rows: seq<Row>, docs: set<string>, docIDs: set<string>,
                   docID: string, ok: bool)
    requires OnlyMarked(first, before) && OnlyMarked(before, rows) && PendingOnlyIn(before, docs, docIDs)
    requires ok == (docID in docs)
    requires forall i | 0 <= i < |rows| && !rows[i].compacted :: !before[i].compacted && !(ok && rows[i].doc == docID)
    ensures OnlyMarked(first, rows) && PendingOnlyIn(rows, docs, docIDs - {docID})
  {
  }

  lemma MarksPending(before: seq<Row>, rows: seq<Row>, doc: string, ids: seq<nat>)
    requires IsPending(before, doc, ids) && rows == Mark(before, ids)
    ensures OnlyMarked(before, rows)
    ensures forall i | 0 <= i < |rows| && !rows[i].compacted :: !before[i].compacted && rows[i].doc != doc
  {
  }

  lemma NothingToCompact<S(!new)>(apply: (S, Bytes) -> S, db: Db<S>, doc: string)
    requires doc in db.blobs && doc in db.merged
    ensures Snapshot(apply, db, doc, []) == db
  {
    assert Mark(db.rows, []) == db.rows && db.merged[doc] + [] == db.merged[doc];
  }
}
