/** Convergence: clients that lost nothing hold the same document, whatever process they are connected to and in
    whatever order, and however often, diffs reached them. */
module Convergence {
  import opened Basics
  import opened HubSpec
  import opened System
  import opened Delivery
  import opened Cluster
  import opened Merge

  /** All diffs ever handled for a document, and those one connection sent itself. */
  function DocDiffs(handled: seq<Handled>, doc: string): seq<Bytes> {
    if handled == [] then []
    else
      var last := handled[|handled| - 1];
      DocDiffs(handled[..|handled| - 1], doc) + if last.Diff? && last.msg.doc == doc then [last.msg.payload] else []
  }

  function OwnDiffs(handled: seq<Handled>, n: nat, i: nat): seq<Bytes> {
    if handled == [] then []
    else
      var last := handled[|handled| - 1];
      OwnDiffs(handled[..|handled| - 1], n, i)
      + if last.Diff? && last.node == n && last.conn == i then [last.msg.payload] else []
  }

  lemma {:induction false} InDocDiffs(handled: seq<Handled>, doc: string, p: Bytes)
    ensures p in DocDiffs(handled, doc) <==>
            exists t | 0 <= t < |handled| && handled[t].Diff? ::
              handled[t].msg.doc == doc && handled[t].msg.payload == p
  {
    if handled != [] { InDocDiffs(handled[..|handled| - 1], doc, p); }
  }

  lemma {:induction false} InOwnDiffs(handled: seq<Handled>, n: nat, i: nat, p: Bytes)
    ensures p in OwnDiffs(handled, n, i) <==>
            exists t | 0 <= t < |handled| && handled[t].Diff? ::
              handled[t].node == n && handled[t].conn == i && handled[t].msg.payload == p
  {
    if handled != [] { InOwnDiffs(handled[..|handled| - 1], n, i, p); }
  }

  /** Connection i of process n has a live socket and is still in the map, and everything on its way to it has
      arrived. */
  ghost predicate Settled(c: Cluster, n: nat, i: nat)
    requires CWf(c)
  {
    && n < |c.nodes| && i < |c.nodes[n].pumps| && c.nodes[n].pumps[i].alive && InMap(c.nodes[n].hub, i)
    && c.bus[n] == [] && c.nodes[n].bcastQ == [] && c.nodes[n].hub.chans[i].buf == []
  }

  /** A client's diffs: those in the blob sent on joining, those received, and those it sent itself. */
  predicate HasDiff(c: Cluster, n: nat, i: nat, joined: seq<Bytes>, p: Bytes)
    requires n < |c.nodes| && i < |c.nodes[n].pumps|
  {
    p in joined || p in c.nodes[n].pumps[i].drained || p in OwnDiffs(c.handled, n, i)
  }

  /** Message t is a diff of the document. */
  predicate IsDiff(c: Cluster, t: nat, doc: string) {
    t < |c.handled| && c.handled[t].Diff? && c.handled[t].msg.doc == doc
  }

  /** The hub's log at the time it took the client's Register, and since. */
  function Before(s: Sys, i: nat): seq<Message>
    requires i < |s.pumps|
  {
    if s.pumps[i].since.Some? && s.pumps[i].since.value <= |s.log| then s.log[..s.pumps[i].since.value] else s.log
  }

  function Since(s: Sys, i: nat): seq<Message>
    requires i < |s.pumps|
  {
    s.log[|Before(s, i)|..]
  }

  /** Why a client may not be sent a diff: a copy of it was discarded on the way to the client's hub, or the hub
      processed it before it took the client's Register, or it is the user's own, from this connection or from
      another. */
  predicate MayBeUnsent(c: Cluster, n: nat, i: nat, t: nat)
    requires CWf(c) && n < |c.nodes| && i < |c.nodes[n].pumps| && t < |c.handled|
  {
    var msg := c.handled[t].msg;
    (n, t) in c.drops || msg in Before(c.nodes[n], i) || msg.sender == c.nodes[n].hub.chans[i].user
  }

  /** The client has every diff of its document that it may not have been sent: unless it made the diff itself, that
      must come from the blob. */
  ghost predicate Covered(c: Cluster, n: nat, i: nat, joined: seq<Bytes>)
    requires CWf(c) && n < |c.nodes| && i < |c.nodes[n].pumps|
  {
    forall t: nat | IsDiff(c, t, c.nodes[n].hub.chans[i].doc) && MayBeUnsent(c, n, i, t) ::
      HasDiff(c, n, i, joined, c.handled[t].msg.payload)
  }

  lemma DrainedIsRouted(c: Cluster, n: nat, i: nat, p: Bytes)
    requires CWf(c) && Tracked(c) && Settled(c, n, i)
    ensures var s := c.nodes[n]; var client := s.hub.chans[i];
            p in s.pumps[i].drained <==>
              exists m | m in Since(s, i) :: m.sender != client.user && m.doc == client.doc && m.payload == p
  {
    var s := c.nodes[n];
    assert Faithful(s, i);
    assert s.pumps[i].drained == Enqueued(s, i);
    RoutedFrom(Since(s, i), s.hub.chans[i].user, s.hub.chans[i].doc, p);
  }

  /** Nothing is lost between the hub and a settled client: a diff that was not withheld from it has reached it. */
  lemma SentIsDrained(c: Cluster, n: nat, i: nat, t: nat)
    requires CWf(c) && Tracked(c) && Settled(c, n, i)
    requires IsDiff(c, t, c.nodes[n].hub.chans[i].doc) && !MayBeUnsent(c, n, i, t)
    ensures c.handled[t].msg.payload in c.nodes[n].pumps[i].drained
  {
    var s, msg := c.nodes[n], c.handled[t].msg;
    assert Accounted(c, n) && InAccount(c, n, t);
    assert msg in s.log && s.log == Before(s, i) + Since(s, i);
    DrainedIsRouted(c, n, i, msg.payload);
  }

  /** A settled client has every diff of its document if and only if it has those it may not have been sent. */
  lemma CompleteIffCovered(c: Cluster, n: nat, i: nat, joined: seq<Bytes>)
    requires CWf(c) && Tracked(c) && Settled(c, n, i)
    ensures Covered(c, n, i, joined) <==>
            forall p | p in DocDiffs(c.handled, c.nodes[n].hub.chans[i].doc) :: HasDiff(c, n, i, joined, p)
  {
    var doc := c.nodes[n].hub.chans[i].doc;
    forall p
      ensures p in DocDiffs(c.handled, doc) <==> exists t: nat :: IsDiff(c, t, doc) && c.handled[t].msg.payload == p
    {
      InDocDiffs(c.handled, doc, p);
    }
    forall t: nat | IsDiff(c, t, doc) && !MayBeUnsent(c, n, i, t)
      ensures HasDiff(c, n, i, joined, c.handled[t].msg.payload)
    {
      SentIsDrained(c, n, i, t);
    }
  }

  /** What a client adds to the blob it was sent: the diffs it received and those it sent itself. Announced tasks
      reach it on the same channel and are no diffs. */
  predicate Adds(c: Cluster, n: nat, i: nat, p: Bytes)
    requires CWf(c) && n < |c.nodes| && i < |c.nodes[n].pumps|
  {
    p in OwnDiffs(c.handled, n, i)
    || (p in c.nodes[n].pumps[i].drained && p in DocDiffs(c.handled, c.nodes[n].hub.chans[i].doc))
  }

  lemma {:induction false} OwnAreDiffs(c: Cluster, n: nat, i: nat, p: Bytes)
    requires CWf(c) && Tracked(c) && n < |c.nodes| && i < |c.nodes[n].pumps| && p in OwnDiffs(c.handled, n, i)
    ensures p in DocDiffs(c.handled, c.nodes[n].hub.chans[i].doc)
  {
    InDocDiffs(c.handled, c.nodes[n].hub.chans[i].doc, p);
    InOwnDiffs(c.handled, n, i, p);
    var t :| 0 <= t < |c.handled| && c.handled[t].Diff?
          && c.handled[t].node == n && c.handled[t].conn == i && c.handled[t].msg.payload == p;
    assert HandledWell(c, t);
  }

  /** No two messages of the document have the same payload. */
  ghost predicate DistinctInDoc(handled: seq<Handled>, doc: string) {
    forall t, u | 0 <= t < u < |handled| && handled[t].msg.doc == doc && handled[u].msg.doc == doc ::
      handled[t].msg.payload != handled[u].msg.payload
  }

  lemma {:induction false} OwnIsThat(c: Cluster, n: nat, i: nat, t: nat)
    requires CWf(c) && Tracked(c) && n < |c.nodes| && i < |c.nodes[n].pumps|
    requires IsDiff(c, t, c.nodes[n].hub.chans[i].doc) && DistinctInDoc(c.handled, c.nodes[n].hub.chans[i].doc)
    requires c.handled[t].msg.payload in OwnDiffs(c.handled, n, i)
    ensures c.handled[t].node == n && c.handled[t].conn == i
  {
    InOwnDiffs(c.handled, n, i, c.handled[t].msg.payload);
    var u :| 0 <= u < |c.handled| && c.handled[u].Diff?
          && c.handled[u].node == n && c.handled[u].conn == i && c.handled[u].msg.payload == c.handled[t].msg.payload;
    assert HandledWell(c, u);
  }

  lemma DrainedIsThat(c: Cluster, n: nat, i: nat, t: nat)
    requires CWf(c) && Tracked(c) && Settled(c, n, i)
    requires IsDiff(c, t, c.nodes[n].hub.chans[i].doc) && DistinctInDoc(c.handled, c.nodes[n].hub.chans[i].doc)
    requires c.handled[t].msg.payload in c.nodes[n].pumps[i].drained
    ensures c.handled[t].msg in Since(c.nodes[n], i) && c.handled[t].msg.sender != c.nodes[n].hub.chans[i].user
  {
    var s, client, p := c.nodes[n], c.nodes[n].hub.chans[i], c.handled[t].msg.payload;
    DrainedIsRouted(c, n, i, p);
    var m :| m in Since(s, i) && m.sender != client.user && m.doc == client.doc && m.payload == p;
    assert m in s.log && Accounted(c, n) && Copies(c, n, m) > 0 && Genuine(c, m);
  }

  /** In every state of the cluster, every settled client of a document ends up in the state that merging all of the
      document's diffs gives, so any two of them agree: each starts from a covering blob and applies what it received
      and what it typed, in its own order and with any repetitions. */
  lemma {:induction false} SettledClientsAgree<S(!new)>(c: Cluster, apply: (S, Bytes) -> S, empty: S, n: nat, i: nat,
                                                        joined: seq<Bytes>, applied: seq<Bytes>)
    requires CWf(c) && Tracked(c) && ConflictFree(apply)
    requires Settled(c, n, i) && Covered(c, n, i, joined)
    requires forall p | p in joined :: p in DocDiffs(c.handled, c.nodes[n].hub.chans[i].doc)
    requires forall p :: p in applied <==> Adds(c, n, i, p)
    ensures ApplyAll(apply, ApplyAll(apply, empty, joined), applied)
         == ApplyAll(apply, empty, DocDiffs(c.handled, c.nodes[n].hub.chans[i].doc))
  {
    var all := DocDiffs(c.handled, c.nodes[n].hub.chans[i].doc);
    CompleteIffCovered(c, n, i, joined);
    forall p ensures p in joined + applied <==> p in all {
      if p in all { assert HasDiff(c, n, i, joined, p); }
      else if p in OwnDiffs(c.handled, n, i) { OwnAreDiffs(c, n, i, p); }
    }
    ApplyBatches(apply, empty, joined, applied);
    SameDiffsSameState(apply, empty, joined + applied, all);
  }
}
