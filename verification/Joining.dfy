/** The relay and the update log together: every handled update starts an insert into the log, one compactor merges the
    log into the blobs, and a joiner is sent the blob of its document and nothing else. */
module Joining {
  import opened Basics
  import opened HubSpec
  import opened System
  import opened Lifecycle
  import opened Cluster
  import opened Merge
  import opened Convergence
  import opened UpdateLog

  /** The blob OnJoin read for a connection and, as history, the rows it was made of. */
  datatype Joined<S> = Joined(blob: S, ids: seq<nat>)

  /** `started` names the updates whose insert was started and has neither been made nor failed. `source` is history:
      the update each row of the log is of. */
  datatype World<S> = World(net: Cluster, db: Db<S>, started: set<nat>, source: seq<nat>,
                            joins: map<(nat, nat), Joined<S>>)

  datatype Action =
    | Net(m: Move)
    | Insert(t: nat, createdAt: int) // the goroutine of update t: the row becomes visible
    | Fail(t: nat)                   // or it never does
    | Compact(e: DbEvent)            // a step of the compactor
    | Join(n: nat, i: nat)           // OnJoin of connection i at process n: LoadBlob

  ghost predicate WWf<S(!new)>(w: World<S>) {
    CWf(w.net) && forall t | t in w.started :: t < |w.net.handled|
  }

  ghost function Appended<S(!new)>(w: World<S>, t: nat, createdAt: int): DbEvent
    requires t < |w.net.handled|
  {
    var msg := w.net.handled[t].msg;
    Append(msg.doc, msg.sender, msg.payload, createdAt)
  }

  ghost predicate WEnabled<S(!new)>(w: World<S>, a: Action)
    requires WWf(w)
  {
    match a
    case Net(m) => CEnabled(w.net, m)
    case Insert(t, createdAt) => t in w.started && DbEnabled(w.db, Appended(w, t, createdAt))
    case Fail(t) => t in w.started
    case Compact(e) => !e.Append? && DbEnabled(w.db, e)
    case Join(n, i) =>
      && n < |w.net.nodes| && i < |w.net.nodes[n].pumps| && (n, i) !in w.joins
      && w.net.nodes[n].hub.chans[i].doc in w.db.blobs && w.net.nodes[n].hub.chans[i].doc in w.db.merged
  }

  ghost function WApply<S(!new)>(apply: (S, Bytes) -> S, w: World<S>, a: Action): (r: World<S>)
    requires WWf(w) && WEnabled(w, a)
    ensures WWf(r)
  {
    match a
    case Net(m) =>
      HandledGrows(w.net, m);
      w.(net := CApply(w.net, m), started := w.started + if m.Update? then {|w.net.handled|} else {})
    case Insert(t, createdAt) =>
      w.(db := DbApply(apply, w.db, Appended(w, t, createdAt)), source := w.source + [t], started := w.started - {t})
    case Fail(t) => w.(started := w.started - {t})
    case Compact(e) => w.(db := DbApply(apply, w.db, e))
    case Join(n, i) =>
      var doc := w.net.nodes[n].hub.chans[i].doc;
      w.(joins := w.joins[(n, i) := Joined(w.db.blobs[doc], w.db.merged[doc])])
  }

  ghost function WStep<S(!new)>(apply: (S, Bytes) -> S, w: World<S>, a: Action): (r: World<S>)
    requires WWf(w)
    ensures WWf(r)
  {
    if WEnabled(w, a) then WApply(apply, w, a) else w
  }

  /** `size` processes over one database with the documents of `init`. */
  ghost function WRun<S(!new)>(apply: (S, Bytes) -> S, init: map<string, S>, size: nat, run: seq<Action>): (w: World<S>)
    ensures WWf(w)
  {
    if run == [] then World(CRun(size, []), DbRun(apply, init, 1, []), {}, [], map[])
    else WStep(apply, WRun(apply, init, size, run[..|run| - 1]), run[|run| - 1])
  }

  /** A move makes at most one message and alters none, and no connection goes away or changes hands. */
  lemma HandledGrows(c: Cluster, m: Move)
    requires CWf(c) && CEnabled(c, m)
    ensures c.handled <= CApply(c, m).handled && |CApply(c, m).nodes| == |c.nodes|
    ensures m.Update? ==> |CApply(c, m).handled| == |c.handled| + 1 && CApply(c, m).handled[|c.handled|].Diff?
  {
  }

  lemma ConnectionsStay(c: Cluster, m: Move, n: nat, i: nat)
    requires CWf(c) && CEnabled(c, m) && n < |c.nodes| && i < |c.nodes[n].pumps|
    ensures var d := CApply(c, m);
            n < |d.nodes| && i < |d.nodes[n].pumps| && d.nodes[n].hub.chans[i].doc == c.nodes[n].hub.chans[i].doc
  {
    var e := NodeMove(c, m, n);
    ConnectionsStep(c.nodes[n], e);
  }

  /** The row is of that handled diff. */
  ghost predicate RowOf(c: Cluster, row: Row, t: nat) {
    t < |c.handled| && c.handled[t].Diff? &&
    var msg := c.handled[t].msg;
    row.doc == msg.doc && row.user == msg.sender && row.payload == msg.payload
  }

  /** Every row is of a handled diff, and no diff has two rows or a row while its insert is still under way. */
  ghost predicate Sourced<S(!new)>(w: World<S>)
    requires WWf(w)
  {
    && |w.source| == |w.db.rows| && Distinct(w.source)
    && (forall id | 0 <= id < |w.source| :: RowOf(w.net, w.db.rows[id], w.source[id]) && w.source[id] !in w.started)
    && (forall t | t in w.started :: w.net.handled[t].Diff?)
  }

  /** The blob a connection was sent is the merge of rows of its document that were compacted by then, and still are. */
  ghost predicate JoinWell<S(!new)>(apply: (S, Bytes) -> S, init: map<string, S>, rows: seq<Row>, doc: string,
                                    j: Joined<S>) {
    && doc in init && Known(rows, j.ids) && j.blob == ApplyAll(apply, init[doc], Payloads(rows, j.ids))
    && forall id | id in j.ids :: Compacted(rows, doc, id)
  }

  ghost predicate JoinsWell<S(!new)>(apply: (S, Bytes) -> S, init: map<string, S>, w: World<S>)
    requires WWf(w)
  {
    forall n, i | (n, i) in w.joins ::
      && n < |w.net.nodes| && i < |w.net.nodes[n].pumps|
      && JoinWell(apply, init, w.db.rows, w.net.nodes[n].hub.chans[i].doc, w.joins[(n, i)])
  }

  ghost predicate WorldWell<S(!new)>(apply: (S, Bytes) -> S, init: map<string, S>, w: World<S>)
    requires WWf(w)
  {
    Tracked(w.net) && Sane(apply, init, w.db) && Undisturbed(w.db) && Sourced(w) && JoinsWell(apply, init, w)
  }

  /** A step of the database only appends or marks rows, which leaves a joiner's blob what it was. */
  lemma JoinStays<S(!new)>(apply: (S, Bytes) -> S, init: map<string, S>, db: Db<S>, e: DbEvent, doc: string,
                           j: Joined<S>)
    requires DbEnabled(db, e) && JoinWell(apply, init, db.rows, doc, j)
    ensures JoinWell(apply, init, DbApply(apply, db, e).rows, doc, j)
  {
    PayloadsStable(db.rows, DbApply(apply, db, e).rows, j.ids);
  }

  lemma DbWell<S(!new)>(apply: (S, Bytes) -> S, init: map<string, S>, db: Db<S>, e: DbEvent)
    requires Sane(apply, init, db) && Undisturbed(db) && DbEnabled(db, e)
    ensures Sane(apply, init, DbApply(apply, db, e)) && Undisturbed(DbApply(apply, db, e))
  {
    UndisturbedIsFresh(apply, init, db, e);
    DbStep(apply, init, db, e);
    UndisturbedStep(apply, db, e);
  }

  lemma NetSourced<S(!new)>(apply: (S, Bytes) -> S, w: World<S>, m: Move)
    requires WWf(w) && Sourced(w) && CEnabled(w.net, m)
    ensures Sourced(WApply(apply, w, Net(m)))
  {
    HandledGrows(w.net, m);
  }

  lemma NetJoins<S(!new)>(apply: (S, Bytes) -> S, init: map<string, S>, w: World<S>, m: Move)
    requires WWf(w) && JoinsWell(apply, init, w) && CEnabled(w.net, m)
    ensures JoinsWell(apply, init, WApply(apply, w, Net(m)))
  {
    var v := WApply(apply, w, Net(m));
    HandledGrows(w.net, m);
    forall n, i | (n, i) in w.joins
      ensures n < |v.net.nodes| && i < |v.net.nodes[n].pumps|
           && v.net.nodes[n].hub.chans[i].doc == w.net.nodes[n].hub.chans[i].doc
    {
      ConnectionsStay(w.net, m, n, i);
    }
  }

  lemma NetWell<S(!new)>(apply: (S, Bytes) -> S, init: map<string, S>, w: World<S>, m: Move)
    requires WWf(w) && WorldWell(apply, init, w) && CEnabled(w.net, m)
    ensures WorldWell(apply, init, WApply(apply, w, Net(m)))
  {
    TrackedMove(w.net, m);
    NetSourced(apply, w, m);
    NetJoins(apply, init, w, m);
  }

  lemma InsertSourced<S(!new)>(apply: (S, Bytes) -> S, w: World<S>, t: nat, createdAt: int)
    requires WWf(w) && Sourced(w) && WEnabled(w, Insert(t, createdAt))
    ensures Sourced(WApply(apply, w, Insert(t, createdAt)))
  {
  }

  lemma CompactSourced<S(!new)>(apply: (S, Bytes) -> S, w: World<S>, e: DbEvent)
    requires WWf(w) && Sourced(w) && WEnabled(w, Compact(e))
    ensures Sourced(WApply(apply, w, Compact(e)))
  {
    var rows := DbApply(apply, w.db, e).rows;
    assert |rows| == |w.db.rows|;
    forall id | 0 <= id < |rows| ensures RowOf(w.net, rows[id], w.source[id]) {
      assert RowOf(w.net, w.db.rows[id], w.source[id]);
    }
  }

  lemma DbJoins<S(!new)>(apply: (S, Bytes) -> S, init: map<string, S>, w: World<S>, v: World<S>, e: DbEvent)
    requires WWf(w) && WWf(v) && JoinsWell(apply, init, w) && DbEnabled(w.db, e)
    requires v.net == w.net && v.joins == w.joins && v.db == DbApply(apply, w.db, e)
    ensures JoinsWell(apply, init, v)
  {
    forall n, i | (n, i) in w.joins
      ensures n < |w.net.nodes| && i < |w.net.nodes[n].pumps|
           && JoinWell(apply, init, v.db.rows, w.net.nodes[n].hub.chans[i].doc, w.joins[(n, i)])
    {
      JoinStays(apply, init, w.db, e, w.net.nodes[n].hub.chans[i].doc, w.joins[(n, i)]);
    }
  }

  lemma InsertWell<S(!new)>(apply: (S, Bytes) -> S, init: map<string, S>, w: World<S>, t: nat, createdAt: int)
    requires WWf(w) && WorldWell(apply, init, w) && WEnabled(w, Insert(t, createdAt))
    ensures WorldWell(apply, init, WApply(apply, w, Insert(t, createdAt)))
  {
    InsertSourced(apply, w, t, createdAt);
    DbWell(apply, init, w.db, Appended(w, t, createdAt));
    DbJoins(apply, init, w, WApply(apply, w, Insert(t, createdAt)), Appended(w, t, createdAt));
  }

  lemma CompactWell<S(!new)>(apply: (S, Bytes) -> S, init: map<string, S>, w: World<S>, e: DbEvent)
    requires WWf(w) && WorldWell(apply, init, w) && WEnabled(w, Compact(e))
    ensures WorldWell(apply, init, WApply(apply, w, Compact(e)))
  {
    CompactSourced(apply, w, e);
    DbWell(apply, init, w.db, e);
    DbJoins(apply, init, w, WApply(apply, w, Compact(e)), e);
  }

  lemma JoinStepWell<S(!new)>(apply: (S, Bytes) -> S, init: map<string, S>, w: World<S>, n: nat, i: nat)
    requires WWf(w) && WorldWell(apply, init, w) && WEnabled(w, Join(n, i))
    ensures WorldWell(apply, init, WApply(apply, w, Join(n, i)))
  {
    assert DocConsistent(apply, init, w.db, w.net.nodes[n].hub.chans[i].doc);
  }

  lemma {:induction false} AlwaysWell<S(!new)>(apply: (S, Bytes) -> S, init: map<string, S>, size: nat,
                                               run: seq<Action>)
    ensures WorldWell(apply, init, WRun(apply, init, size, run))
  {
    if run == [] {
      AlwaysTracked(size, []);
      OneCompactorIsFresh(apply, init, [], 0);
      assert After(apply, init, 1, [], 0) == DbRun(apply, init, 1, []);
    } else {
      var w, a := WRun(apply, init, size, run[..|run| - 1]), run[|run| - 1];
      AlwaysWell(apply, init, size, run[..|run| - 1]);
      if WEnabled(w, a) {
        match a
        case Net(m) => NetWell(apply, init, w, m);
        case Insert(t, createdAt) => InsertWell(apply, init, w, t, createdAt);
        case Fail(_) =>
        case Compact(e) => CompactWell(apply, init, w, e);
        case Join(n, i) => JoinStepWell(apply, init, w, n, i);
      }
    }
  }

  /** The diffs in the blob a connection was sent. */
  ghost function Sent<S(!new)>(w: World<S>, n: nat, i: nat): seq<Bytes>
    requires (n, i) in w.joins && Known(w.db.rows, w.joins[(n, i)].ids)
  {
    Payloads(w.db.rows, w.joins[(n, i)].ids)
  }

  lemma SentAreDiffs<S(!new)>(apply: (S, Bytes) -> S, init: map<string, S>, w: World<S>, n: nat, i: nat, p: Bytes)
    requires WWf(w) && WorldWell(apply, init, w) && (n, i) in w.joins && p in Sent(w, n, i)
    ensures p in DocDiffs(w.net.handled, w.net.nodes[n].hub.chans[i].doc)
  {
    var ids, doc := w.joins[(n, i)].ids, w.net.nodes[n].hub.chans[i].doc;
    var j :| 0 <= j < |ids| && w.db.rows[ids[j]].payload == p;
    assert ids[j] in ids && RowOf(w.net, w.db.rows[ids[j]], w.source[ids[j]]);
    InDocDiffs(w.net.handled, doc, p);
  }

  /** In every run, a joiner is sent the blob of all the rows of its document that are compacted at that moment, and
      keeps that one: later steps do not change what a connection was sent. */
  lemma {:induction false} JoinSendsCompacted<S(!new)>(apply: (S, Bytes) -> S, init: map<string, S>, size: nat,
                                                       run: seq<Action>, n: nat, i: nat)
    requires WEnabled(WRun(apply, init, size, run), Join(n, i))
    ensures var w, v := WRun(apply, init, size, run), WRun(apply, init, size, run + [Join(n, i)]);
            var doc := w.net.nodes[n].hub.chans[i].doc;
            && v.db == w.db && (n, i) in v.joins && doc in w.db.blobs && v.joins[(n, i)].blob == w.db.blobs[doc]
            && forall id :: id in v.joins[(n, i)].ids <==> Compacted(w.db.rows, doc, id)
  {
    var w := WRun(apply, init, size, run);
    AlwaysWell(apply, init, size, run);
    WMore(apply, init, size, run, Join(n, i));
    assert DocConsistent(apply, init, w.db, w.net.nodes[n].hub.chans[i].doc);
  }

  /** Every handled diff starts an insert, which at any later time may be made, if its document exists, or fail. */
  lemma InsertOrFail<S(!new)>(apply: (S, Bytes) -> S, w: World<S>, m: Move, t: nat, createdAt: int)
    requires WWf(w)
    ensures m.Update? && WEnabled(w, Net(m)) ==> WStep(apply, w, Net(m)).started == w.started + {|w.net.handled|}
    ensures t in w.started ==>
              && WEnabled(w, Fail(t)) && WStep(apply, w, Fail(t)) == w.(started := w.started - {t})
              && (WEnabled(w, Insert(t, createdAt)) <==> w.net.handled[t].msg.doc in w.db.blobs)
  {
  }

  lemma JoinedOnce<S(!new)>(apply: (S, Bytes) -> S, w: World<S>, a: Action, n: nat, i: nat)
    requires WWf(w) && (n, i) in w.joins
    ensures (n, i) in WStep(apply, w, a).joins && WStep(apply, w, a).joins[(n, i)] == w.joins[(n, i)]
  {
  }

  /** In every run of processes, database and compactor: a settled client that was sent its document's blob ends up
      with the merge of all diffs of the document, provided the blob it was sent covers the diffs it may not have been
      sent. */
  lemma {:induction false} JoinersAgree<S(!new)>(apply: (S, Bytes) -> S, init: map<string, S>, size: nat,
                                                 run: seq<Action>, n: nat, i: nat, applied: seq<Bytes>)
    requires ConflictFree(apply)
    requires var w := WRun(apply, init, size, run);
             && Settled(w.net, n, i) && (n, i) in w.joins
             && (AlwaysWell(apply, init, size, run); Covered(w.net, n, i, Sent(w, n, i)))
             && forall p :: p in applied <==> Adds(w.net, n, i, p)
    ensures var w := WRun(apply, init, size, run); var doc := w.net.nodes[n].hub.chans[i].doc;
            && doc in init
            && ApplyAll(apply, w.joins[(n, i)].blob, applied)
                == ApplyAll(apply, init[doc], DocDiffs(w.net.handled, doc))
  {
    var w := WRun(apply, init, size, run);
    AlwaysWell(apply, init, size, run);
    forall p | p in Sent(w, n, i) ensures p in DocDiffs(w.net.handled, w.net.nodes[n].hub.chans[i].doc) {
      SentAreDiffs(apply, init, w, n, i, p);
    }
    SettledClientsAgree(w.net, apply, init[w.net.nodes[n].hub.chans[i].doc], n, i, Sent(w, n, i), applied);
  }

  /** The updates that rows are of. */
  ghost function Updates<S(!new)>(w: World<S>, ids: seq<nat>): set<nat> {
    set j | 0 <= j < |ids| && ids[j] < |w.source| :: w.source[ids[j]]
  }

  /** Diff t is of this connection, or had its row compacted when the connection's blob was read, or was processed since
      the connection's registration and is not of its user. */
  ghost predicate Obtained<S(!new)>(w: World<S>, n: nat, i: nat, t: nat)
    requires WWf(w) && n < |w.net.nodes| && i < |w.net.nodes[n].pumps| && (n, i) in w.joins
    requires t < |w.net.handled| && w.net.handled[t].Diff?
  {
    var h, s := w.net.handled[t], w.net.nodes[n];
    || (h.node == n && h.conn == i)
    || t in Updates(w, w.joins[(n, i)].ids)
    || (h.msg in Since(s, i) && h.msg.sender != s.hub.chans[i].user)
  }

  /** The client obtained every diff of its document that it may not have been sent. */
  ghost predicate AllObtained<S(!new)>(w: World<S>, n: nat, i: nat)
    requires WWf(w) && n < |w.net.nodes| && i < |w.net.nodes[n].pumps| && (n, i) in w.joins
  {
    forall t: nat | IsDiff(w.net, t, w.net.nodes[n].hub.chans[i].doc) && MayBeUnsent(w.net, n, i, t) ::
        Obtained(w, n, i, t)
  }

  lemma ObtainedIsHad<S(!new)>(apply: (S, Bytes) -> S, init: map<string, S>, w: World<S>, n: nat, i: nat, t: nat)
    requires WWf(w) && WorldWell(apply, init, w) && Settled(w.net, n, i) && (n, i) in w.joins
    requires IsDiff(w.net, t, w.net.nodes[n].hub.chans[i].doc) && Obtained(w, n, i, t)
    ensures HasDiff(w.net, n, i, Sent(w, n, i), w.net.handled[t].msg.payload)
  {
    var h, ids := w.net.handled[t], w.joins[(n, i)].ids;
    InOwnDiffs(w.net.handled, n, i, h.msg.payload);
    DrainedIsRouted(w.net, n, i, h.msg.payload);
    if t in Updates(w, ids) {
      var j :| 0 <= j < |ids| && ids[j] < |w.source| && w.source[ids[j]] == t;
      assert RowOf(w.net, w.db.rows[ids[j]], t);
      assert Sent(w, n, i)[j] == h.msg.payload;
    }
  }

  lemma SentIsCompacted<S(!new)>(apply: (S, Bytes) -> S, init: map<string, S>, w: World<S>, n: nat, i: nat, t: nat)
    requires WWf(w) && WorldWell(apply, init, w) && (n, i) in w.joins
    requires DistinctInDoc(w.net.handled, w.net.nodes[n].hub.chans[i].doc)
    requires IsDiff(w.net, t, w.net.nodes[n].hub.chans[i].doc) && w.net.handled[t].msg.payload in Sent(w, n, i)
    ensures t in Updates(w, w.joins[(n, i)].ids)
  {
    var ids := w.joins[(n, i)].ids;
    var j :| 0 <= j < |ids| && w.db.rows[ids[j]].payload == w.net.handled[t].msg.payload;
    assert ids[j] in ids && RowOf(w.net, w.db.rows[ids[j]], w.source[ids[j]]);
    assert w.source[ids[j]] == t;
  }

  lemma HadIsObtained<S(!new)>(apply: (S, Bytes) -> S, init: map<string, S>, w: World<S>, n: nat, i: nat, t: nat)
    requires WWf(w) && WorldWell(apply, init, w) && Settled(w.net, n, i) && (n, i) in w.joins
    requires DistinctInDoc(w.net.handled, w.net.nodes[n].hub.chans[i].doc)
    requires IsDiff(w.net, t, w.net.nodes[n].hub.chans[i].doc)
    requires HasDiff(w.net, n, i, Sent(w, n, i), w.net.handled[t].msg.payload)
    ensures Obtained(w, n, i, t)
  {
    var p := w.net.handled[t].msg.payload;
    if p in Sent(w, n, i) { SentIsCompacted(apply, init, w, n, i, t); }
    else if p in OwnDiffs(w.net.handled, n, i) { OwnIsThat(w.net, n, i, t); }
    else { DrainedIsThat(w.net, n, i, t); }
  }

  /** A blob covers what its client may not have been sent if each such diff is of the connection itself, had its row
      compacted when the blob was read, or was processed again after the registration; if the document's payloads are
      distinct, only then. */
  lemma CoveredExactly<S(!new)>(apply: (S, Bytes) -> S, init: map<string, S>, w: World<S>, n: nat, i: nat)
    requires WWf(w) && WorldWell(apply, init, w) && Settled(w.net, n, i) && (n, i) in w.joins
    ensures AllObtained(w, n, i) ==> Covered(w.net, n, i, Sent(w, n, i))
    ensures DistinctInDoc(w.net.handled, w.net.nodes[n].hub.chans[i].doc) ==>
              (AllObtained(w, n, i) <==> Covered(w.net, n, i, Sent(w, n, i)))
  {
    var doc := w.net.nodes[n].hub.chans[i].doc;
    forall t: nat | IsDiff(w.net, t, doc) && Obtained(w, n, i, t)
      ensures HasDiff(w.net, n, i, Sent(w, n, i), w.net.handled[t].msg.payload)
    {
      ObtainedIsHad(apply, init, w, n, i, t);
    }
    if DistinctInDoc(w.net.handled, doc) {
      forall t: nat | IsDiff(w.net, t, doc) && HasDiff(w.net, n, i, Sent(w, n, i), w.net.handled[t].msg.payload)
        ensures Obtained(w, n, i, t)
      {
        HadIsObtained(apply, init, w, n, i, t);
      }
    }
  }

  lemma {:induction false} WMore<S(!new)>(apply: (S, Bytes) -> S, init: map<string, S>, size: nat, run: seq<Action>,
                                          a: Action)
    ensures WRun(apply, init, size, run + [a]) == WStep(apply, WRun(apply, init, size, run), a)
  {
    assert (run + [a])[..|run|] == run;
  }

  /** One more step of the only process. */
  lemma {:induction false} LocalMore<S(!new)>(apply: (S, Bytes) -> S, init: map<string, S>, run: seq<Action>, s: Sys,
                                              e: Event)
    requires WRun(apply, init, 1, run).net.nodes == [s] && !e.Offer?
    ensures var w := WRun(apply, init, 1, run);
            Wf(s) && WRun(apply, init, 1, run + [Net(Local(0, e))]) == w.(net := w.net.(nodes := [Step(s, e)]))
  {
    var w := WRun(apply, init, 1, run);
    WMore(apply, init, 1, run, Net(Local(0, e)));
    assert CWf(w.net) && w.net.nodes[0] == s && CEnabled(w.net, Local(0, e));
  }

  /** Now a joiner who comes too late to be sent an update and too early to find it in the blob. The update: */
  function Update0(ann: string, doc: string, p: Bytes): Message { Message(ann, doc, p, 0) }

  /** The first user is registered, and an update of theirs is logged and waits for the hub. */
  function Written(ann: string, doc: string, p: Bytes): seq<Action> {
    [Net(Local(0, Accept(ann, doc)))] + [Net(Local(0, TakeRegister))] + [Net(Update(0, 0, p, false))] + [Insert(0, 0)]
  }

  function WrittenNet(ann: string, doc: string, p: Bytes): Cluster {
    Cluster([Single(ann, doc).(bcastQ := [Update0(ann, doc, p)])], [[]], [Diff(0, 0, Update0(ann, doc, p), false)],
            multiset{})
  }

  /** The row is pending. */
  function OnePending<S>(base: S, ann: string, doc: string, p: Bytes): Db<S> {
    Db(map[doc := base], [Row(doc, ann, p, 0, false)], [Idle], map[doc := []])
  }

  function WaitingSys(ann: string, doc: string): Sys {
    Sys(HubState([Chan(ann, doc, [], false)], map[]), [FRESH.(since := None)], [0], [], [], [], false)
  }

  lemma FirstAccepted(ann: string, doc: string)
    ensures Step(INIT, Accept(ann, doc)) == WaitingSys(ann, doc)
  {
  }

  lemma FirstComer(ann: string, doc: string)
    ensures Wf(WaitingSys(ann, doc)) && Step(WaitingSys(ann, doc), TakeRegister) == Single(ann, doc)
  {
  }

  lemma WrittenNetState(ann: string, doc: string, p: Bytes)
    ensures var c := Cluster([Single(ann, doc)], [[]], [], multiset{});
            CWf(c) && Send(c, Diffed(c, 0, 0, p, false)) == WrittenNet(ann, doc, p)
  {
    var c := Cluster([Single(ann, doc)], [[]], [], multiset{});
    assert Step(Single(ann, doc), Offer(Update0(ann, doc, p))) == Single(ann, doc).(bcastQ := [Update0(ann, doc, p)]);
    assert Send(c, Diffed(c, 0, 0, p, false)).drops == multiset{};
  }

  /** The first user's connection is made and registered. */
  function Started(ann: string, doc: string): seq<Action> {
    [Net(Local(0, Accept(ann, doc)))] + [Net(Local(0, TakeRegister))]
  }

  function Blank<S>(base: S, doc: string): Db<S> { Db(map[doc := base], [], [Idle], map[doc := []]) }

  function StartedWorld<S>(base: S, ann: string, doc: string): World<S> {
    World(Cluster([Single(ann, doc)], [[]], [], multiset{}), Blank(base, doc), {}, [], map[])
  }

  lemma StartedState<S(!new)>(apply: (S, Bytes) -> S, base: S, ann: string, doc: string)
    ensures WRun(apply, map[doc := base], 1, Started(ann, doc))
         == StartedWorld(base, ann, doc)
  {
    var init, a0 := map[doc := base], Net(Local(0, Accept(ann, doc)));
    FirstAccepted(ann, doc);
    FirstComer(ann, doc);
    assert WRun(apply, init, 1, [])
        == World(Cluster([INIT], [[]], [], multiset{}), Blank(base, doc), {}, [], map[]);
    LocalMore(apply, init, [], INIT, Accept(ann, doc));
    assert [] + [a0] == [a0];
    LocalMore(apply, init, [a0], WaitingSys(ann, doc), TakeRegister);
  }

  function UnloggedWorld<S>(base: S, ann: string, doc: string, p: Bytes): World<S> {
    World(WrittenNet(ann, doc, p), Blank(base, doc), {0}, [], map[])
  }

  lemma DiffMade<S(!new)>(apply: (S, Bytes) -> S, base: S, ann: string, doc: string, p: Bytes)
    ensures WWf(StartedWorld(base, ann, doc))
    ensures WStep(apply, StartedWorld(base, ann, doc), Net(Update(0, 0, p, false))) == UnloggedWorld(base, ann, doc, p)
  {
    WrittenNetState(ann, doc, p);
  }

  lemma RowMade<S(!new)>(apply: (S, Bytes) -> S, base: S, ann: string, doc: string, p: Bytes)
    requires WWf(UnloggedWorld(base, ann, doc, p))
    ensures WStep(apply, UnloggedWorld(base, ann, doc, p), Insert(0, 0))
         == World(WrittenNet(ann, doc, p), OnePending(base, ann, doc, p), {}, [0], map[])
  {
  }

  lemma WrittenState<S(!new)>(apply: (S, Bytes) -> S, base: S, ann: string, doc: string, p: Bytes)
    ensures WRun(apply, map[doc := base], 1, Written(ann, doc, p))
         == World(WrittenNet(ann, doc, p), OnePending(base, ann, doc, p), {}, [0], map[])
  {
    var init, run := map[doc := base], Started(ann, doc);
    StartedState(apply, base, ann, doc);
    DiffMade(apply, base, ann, doc, p);
    RowMade(apply, base, ann, doc, p);
    WMore(apply, init, 1, run, Net(Update(0, 0, p, false)));
    WMore(apply, init, 1, run + [Net(Update(0, 0, p, false))], Insert(0, 0));
  }

  /** Then the hub processes the update, and another user registers and is sent the blob. */
  function RegisteredLate(ann: string, bob: string, doc: string, p: Bytes): seq<Action> {
    Written(ann, doc, p) + [Net(Local(0, TakeBroadcast))] + [Net(Local(0, Accept(bob, doc)))]
        + [Net(Local(0, TakeRegister))]
  }

  function JoinedLate(ann: string, bob: string, doc: string, p: Bytes): seq<Action> {
    RegisteredLate(ann, bob, doc, p) + [Join(0, 1)]
  }

  function LateSys(ann: string, bob: string, doc: string, p: Bytes): Sys {
    Sys(HubState([Chan(ann, doc, [], false), Chan(bob, doc, [], false)], map[ann := 0, bob := 1]),
        [FRESH, FRESH.(since := Some(1))], [], [], [], [Update0(ann, doc, p)], false)
  }

  function LateNet(ann: string, bob: string, doc: string, p: Bytes): Cluster {
    WrittenNet(ann, doc, p).(nodes := [LateSys(ann, bob, doc, p)])
  }

  /** The hub takes the update while its sender is the only client: nobody is sent anything. */
  lemma NobodyToSendTo(ann: string, doc: string, p: Bytes)
    ensures var s := Single(ann, doc).(bcastQ := [Update0(ann, doc, p)]);
            Wf(s) && Step(s, TakeBroadcast) == Single(ann, doc).(log := [Update0(ann, doc, p)])
  {
    var s, msg := Single(ann, doc).(bcastQ := [Update0(ann, doc, p)]), Update0(ann, doc, p);
    assert !Recipient(s.hub, msg, ann);
    assert Fanout(s.hub, msg, s.hub.clients.Keys).chans == s.hub.chans;
    assert Fanout(s.hub, msg, s.hub.clients.Keys).clients == s.hub.clients;
  }

  function LateWaiting(ann: string, bob: string, doc: string, p: Bytes): Sys {
    Sys(HubState([Chan(ann, doc, [], false), Chan(bob, doc, [], false)], map[ann := 0]),
        [FRESH, FRESH.(since := None)], [1], [], [], [Update0(ann, doc, p)], false)
  }

  lemma LateAccepted(ann: string, bob: string, doc: string, p: Bytes)
    ensures var s := Single(ann, doc).(log := [Update0(ann, doc, p)]);
            Wf(s) && Step(s, Accept(bob, doc)) == LateWaiting(ann, bob, doc, p)
  {
  }

  lemma LateComer(ann: string, bob: string, doc: string, p: Bytes)
    requires ann != bob
    ensures Wf(LateWaiting(ann, bob, doc, p))
    ensures Step(LateWaiting(ann, bob, doc, p), TakeRegister) == LateSys(ann, bob, doc, p)
  {
  }

  lemma RegisteredLateState<S(!new)>(apply: (S, Bytes) -> S, base: S, ann: string, bob: string, doc: string, p: Bytes)
    requires ann != bob
    ensures WRun(apply, map[doc := base], 1, RegisteredLate(ann, bob, doc, p))
         == World(LateNet(ann, bob, doc, p), OnePending(base, ann, doc, p), {},
                  [0], map[])
  {
    var init, run := map[doc := base], Written(ann, doc, p);
    var s := Single(ann, doc);
    WrittenState(apply, base, ann, doc, p);
    NobodyToSendTo(ann, doc, p);
    LateAccepted(ann, bob, doc, p);
    LateComer(ann, bob, doc, p);
    LocalMore(apply, init, run, s.(bcastQ := [Update0(ann, doc, p)]), TakeBroadcast);
    var a0, a1 := Net(Local(0, TakeBroadcast)), Net(Local(0, Accept(bob, doc)));
    LocalMore(apply, init, run + [a0], s.(log := [Update0(ann, doc, p)]), Accept(bob, doc));
    LocalMore(apply, init, run + [a0] + [a1], LateWaiting(ann, bob, doc, p), TakeRegister);
  }

  lemma JoinedLateState<S(!new)>(apply: (S, Bytes) -> S, base: S, ann: string, bob: string, doc: string, p: Bytes)
    requires ann != bob
    ensures WRun(apply, map[doc := base], 1, JoinedLate(ann, bob, doc, p))
         == World(LateNet(ann, bob, doc, p),
                  OnePending(base, ann, doc, p), {}, [0],
                  map[(0, 1) := Joined(base, [])])
  {
    RegisteredLateState(apply, base, ann, bob, doc, p);
    WMore(apply, map[doc := base], 1, RegisteredLate(ann, bob, doc, p), Join(0, 1));
  }

  /** In a cluster that handled one diff, connection 1 has it neither by itself nor by its user's other connection. */
  lemma {:induction false} LacksOnlyDiff(c: Cluster, ann: string, doc: string, p: Bytes)
    requires CWf(c) && |c.nodes| == 1 && |c.nodes[0].pumps| == 2 && c.nodes[0].pumps[1].drained == []
    requires c.nodes[0].hub.chans[1].doc == doc && c.handled == [Diff(0, 0, Update0(ann, doc, p), false)]
    requires Update0(ann, doc, p) in Before(c.nodes[0], 1) || ann == c.nodes[0].hub.chans[1].user
    ensures p in DocDiffs(c.handled, doc) && !HasDiff(c, 0, 1, [], p) && !Covered(c, 0, 1, [])
  {
    InDocDiffs(c.handled, doc, p);
    InOwnDiffs(c.handled, 0, 1, p);
    assert c.handled[0] == Diff(0, 0, Update0(ann, doc, p), false);
    assert IsDiff(c, 0, doc) && MayBeUnsent(c, 0, 1, 0);
  }

  lemma {:induction false} LateLacks(ann: string, bob: string, doc: string, p: Bytes)
    requires ann != bob
    ensures var c := LateNet(ann, bob, doc, p);
            && CWf(c) && Settled(c, 0, 1)
            && p in DocDiffs(c.handled, doc) && !HasDiff(c, 0, 1, [], p) && !Covered(c, 0, 1, [])
  {
    var c := LateNet(ann, bob, doc, p);
    assert c.nodes[0] == LateSys(ann, bob, doc, p) && CWf(c);
    assert Before(c.nodes[0], 1) == [Update0(ann, doc, p)];
    LacksOnlyDiff(c, ann, doc, p);
  }

  /** LoadBlob leaves out pending rows, so this joiner is settled, and lacks a diff that nobody is going to send it. */
  lemma {:induction false} JoinerMissesPendingRow<S(!new)>(apply: (S, Bytes) -> S, base: S, ann: string, bob: string,
                                                           doc: string, p: Bytes)
    requires ann != bob
    ensures var w := WRun(apply, map[doc := base], 1, JoinedLate(ann, bob, doc, p));
            && Settled(w.net, 0, 1) && (0, 1) in w.joins && w.joins[(0, 1)].blob == base
            && w.net.drops == multiset{} && Pending(w.db.rows, doc, 0) && p in DocDiffs(w.net.handled, doc)
            && !HasDiff(w.net, 0, 1, [], p) && !Covered(w.net, 0, 1, [])
  {
    JoinedLateState(apply, base, ann, bob, doc, p);
    LateLacks(ann, bob, doc, p);
  }

  /** The same without a joiner who is late: the user's own socket dies while the update waits for the hub, its
      Unregister is taken, and the user reconnects in time. */
  function Returned(ann: string, doc: string, p: Bytes): seq<Action> {
    Written(ann, doc, p) + [Net(Local(0, Disconnect(0)))] + [Net(Local(0, ReaderExit(0)))]
        + [Net(Local(0, TakeUnregister))]
    + [Net(Local(0, Accept(ann, doc)))] + [Net(Local(0, TakeRegister))] + [Net(Local(0, TakeBroadcast))]
  }

  const GONE := Pump(false, true, false, [], Some(0), true, true)

  /** The old connection is gone, and its update waits for the hub. */
  function AwaySys(ann: string, doc: string, p: Bytes): Sys {
    Sys(HubState([Chan(ann, doc, [], true)], map[]), [GONE], [], [], [Update0(ann, doc, p)], [], false)
  }

  function BackSys(ann: string, doc: string, p: Bytes): Sys {
    Sys(HubState([Chan(ann, doc, [], true), Chan(ann, doc, [], false)], map[ann := 1]), [GONE, FRESH],
        [], [], [Update0(ann, doc, p)], [], false)
  }

  lemma AwayState(ann: string, doc: string, p: Bytes)
    ensures var s := Single(ann, doc).(bcastQ := [Update0(ann, doc, p)]);
            Wf(s) && Step(Step(Step(s, Disconnect(0)), ReaderExit(0)), TakeUnregister) == AwaySys(ann, doc, p)
  {
    var s := Single(ann, doc).(bcastQ := [Update0(ann, doc, p)]);
    var s1 := Step(s, Disconnect(0));
    assert s1 == s.(pumps := [FRESH.(alive := false)]);
    var s2 := Step(s1, ReaderExit(0));
    assert s2 == s1.(unregQ := [0], pumps := [FRESH.(reader := false, alive := false)]);
  }

  lemma BackState(ann: string, doc: string, p: Bytes)
    ensures Wf(AwaySys(ann, doc, p))
         && Step(Step(AwaySys(ann, doc, p), Accept(ann, doc)), TakeRegister) == BackSys(ann, doc, p)
  {
    var s := Step(AwaySys(ann, doc, p), Accept(ann, doc));
    assert s == AwaySys(ann, doc, p).(hub := HubState([Chan(ann, doc, [], true), Chan(ann, doc, [], false)], map[]),
                                      pumps := [GONE, FRESH.(since := None)], regQ := [1]);
  }

  /** The hub skips the update for its sender, whichever connection sent it. */
  lemma SenderIsSkipped(ann: string, doc: string, p: Bytes)
    ensures Wf(BackSys(ann, doc, p))
         && Step(BackSys(ann, doc, p), TakeBroadcast)
            == BackSys(ann, doc, p).(bcastQ := [], log := [Update0(ann, doc, p)])
  {
    var s, msg := BackSys(ann, doc, p), Update0(ann, doc, p);
    assert !Recipient(s.hub, msg, ann);
    assert Fanout(s.hub, msg, s.hub.clients.Keys).chans == s.hub.chans;
    assert Fanout(s.hub, msg, s.hub.clients.Keys).clients == s.hub.clients;
  }

  function BackNet(ann: string, doc: string, p: Bytes): Cluster {
    WrittenNet(ann, doc, p).(nodes := [BackSys(ann, doc, p).(bcastQ := [], log := [Update0(ann, doc, p)])])
  }

  lemma {:induction false} BackLacks(ann: string, doc: string, p: Bytes)
    ensures var c := BackNet(ann, doc, p);
            && CWf(c) && Settled(c, 0, 1) && Before(c.nodes[0], 1) == []
            && p in DocDiffs(c.handled, doc) && !HasDiff(c, 0, 1, [], p) && !Covered(c, 0, 1, [])
  {
    var c := BackNet(ann, doc, p);
    SenderIsSkipped(ann, doc, p);
    assert c.nodes[0] == BackSys(ann, doc, p).(bcastQ := [], log := [Update0(ann, doc, p)]) && CWf(c);
    LacksOnlyDiff(c, ann, doc, p);
  }

  lemma ReturnedState<S(!new)>(apply: (S, Bytes) -> S, base: S, ann: string, doc: string, p: Bytes)
    ensures WRun(apply, map[doc := base], 1, Returned(ann, doc, p))
         == World(BackNet(ann, doc, p), OnePending(base, ann, doc, p), {}, [0], map[])
  {
    var init, run := map[doc := base], Written(ann, doc, p);
    var s := Single(ann, doc).(bcastQ := [Update0(ann, doc, p)]);
    var a0, a1, a2 := Net(Local(0, Disconnect(0))), Net(Local(0, ReaderExit(0))), Net(Local(0, TakeUnregister));
    WrittenState(apply, base, ann, doc, p);
    AwayState(ann, doc, p);
    LocalMore(apply, init, run, s, Disconnect(0));
    LocalMore(apply, init, run + [a0], Step(s, Disconnect(0)), ReaderExit(0));
    LocalMore(apply, init, run + [a0] + [a1], Step(Step(s, Disconnect(0)), ReaderExit(0)), TakeUnregister);
    BackState(ann, doc, p);
    var away, a3, a4 := run + [a0] + [a1] + [a2], Net(Local(0, Accept(ann, doc))), Net(Local(0, TakeRegister));
    LocalMore(apply, init, away, AwaySys(ann, doc, p), Accept(ann, doc));
    LocalMore(apply, init, away + [a3], Step(AwaySys(ann, doc, p), Accept(ann, doc)), TakeRegister);
    SenderIsSkipped(ann, doc, p);
    LocalMore(apply, init, away + [a3] + [a4], BackSys(ann, doc, p), TakeBroadcast);
  }

  /** So a returning editor lacks a diff that was handled, broadcast and discarded nowhere, and that the hub processed
      after the new registration: being registered in time is not enough for one's own diffs. */
  lemma {:induction false} ReturningEditorMissesOwnDiff<S(!new)>(apply: (S, Bytes) -> S, base: S, ann: string,
                                                                 doc: string, p: Bytes)
    ensures var w := WRun(apply, map[doc := base], 1, Returned(ann, doc, p) + [Join(0, 1)]);
            && Settled(w.net, 0, 1) && (0, 1) in w.joins && w.joins[(0, 1)].blob == base
            && w.net.drops == multiset{} && !w.net.nodes[0].crashed && Before(w.net.nodes[0], 1) == []
            && p in DocDiffs(w.net.handled, doc) && !HasDiff(w.net, 0, 1, [], p) && !Covered(w.net, 0, 1, [])
  {
    ReturnedState(apply, base, ann, doc, p);
    BackLacks(ann, doc, p);
    WMore(apply, map[doc := base], 1, Returned(ann, doc, p), Join(0, 1));
  }
}
