/** What has happened when a server has run out of work: everything sent to a client has been written to its socket.
    So the safety results about settled clients are about every live client, once nothing is under way. */
module AtRest {
  import opened Basics
  import opened HubSpec
  import opened System
  import opened Delivery
  import opened Lifecycle
  import opened Teardown
  import opened Queues
  import opened Cluster
  import opened Merge
  import opened Convergence
  import opened Joining

  /** Nothing is left to do: no message waits, a running WritePump has an open, empty channel and a live socket, and a
      running ReadPump has a live socket. */
  ghost predicate Idle(s: Sys)
    requires Wf(s)
  {
    && s.regQ == [] && s.unregQ == [] && s.bcastQ == []
    && (forall id | 0 <= id < |s.pumps| && s.pumps[id].writer ::
          s.pumps[id].alive && s.hub.chans[id].buf == [] && !s.hub.chans[id].closed)
    && (forall id | 0 <= id < |s.pumps| && s.pumps[id].reader :: s.pumps[id].alive)
  }

  lemma RestIsIdle(s: Sys)
    requires Wf(s) && Quiescent(s) && !s.crashed
    ensures Idle(s)
  {
    assert !Enabled(s, TakeRegister) && !Enabled(s, TakeUnregister) && !Enabled(s, TakeBroadcast);
    forall id: nat | id < |s.pumps| && s.pumps[id].writer
      ensures s.pumps[id].alive && s.hub.chans[id].buf == [] && !s.hub.chans[id].closed
    {
      assert !Enabled(s, Write(id)) && !Enabled(s, PingFail(id)) && !Enabled(s, WriterClose(id));
    }
    forall id: nat | id < |s.pumps| && s.pumps[id].reader
      ensures s.pumps[id].alive
    {
      assert !Enabled(s, ReaderExit(id));
    }
  }

  /** A living server is at rest if and only if it has nothing left to do: no step of its own is ever missing. */
  lemma RestIff(s: Sys)
    requires Wf(s) && !s.crashed
    ensures Quiescent(s) <==> Idle(s)
  {
    if Quiescent(s) { RestIsIdle(s); }
  }

  /** In every run that has come to rest without a crash, every message that was accepted has been processed, and each
      live client in the map has written to its socket exactly those since its registration, of its document and of
      other users, in the order in which their producers sent them. */
  lemma {:induction false} DeliveredAtRest(es: seq<Event>, id: nat)
    requires Quiescent(Run(es)) && !Run(es).crashed
    requires id < |Run(es).pumps| && Run(es).pumps[id].alive && InMap(Run(es).hub, id)
    ensures var s := Run(es); var p := s.pumps[id];
            && s.log == Offers(es) && p.since.Some? && p.since.value <= |Offers(es)|
            && p.drained == Routed(Offers(es)[p.since.value..], s.hub.chans[id].user, s.hub.chans[id].doc)
  {
    RestIsIdle(Run(es));
    BroadcastIsFifo(es);
    DeliveryIsGapFree(es);
    WritersAlwaysClose(es);
    assert Faithful(Run(es), id);
  }

  lemma HangUpStep(s: Sys, e: Event, id: nat)
    requires Wf(s) && id < |s.pumps| && e != Disconnect(id)
    requires !s.hub.chans[id].closed ==> s.pumps[id].reader && s.pumps[id].writer && s.pumps[id].alive
    ensures var t := Step(s, e);
            !t.hub.chans[id].closed ==> t.pumps[id].reader && t.pumps[id].writer && t.pumps[id].alive
  {
  }

  /** The server never hangs up by itself on a connection whose channel is open. */
  lemma {:induction false} NoHangUp(es: seq<Event>, id: nat)
    requires id < |Run(es).pumps| && !Run(es).hub.chans[id].closed && Disconnect(id) !in es
    ensures var p := Run(es).pumps[id]; p.reader && p.writer && p.alive
  {
    if es != [] {
      var s, e := Run(es[..|es| - 1]), es[|es| - 1];
      assert e in es;
      if id < |s.pumps| {
        if !s.hub.chans[id].closed { NoHangUp(es[..|es| - 1], id); }
        HangUpStep(s, e, id);
      } else {
        AcceptedExactly(s, e);
      }
    }
  }

  /** In particular, in a run without stale Unregisters, not on a healthy client in the map. */
  lemma {:induction false} HealthyClientsStay(es: seq<Event>, id: nat)
    requires NeverStale(es) && InMap(Run(es).hub, id) && Disconnect(id) !in es
    ensures var p := Run(es).pumps[id]; p.reader && p.writer && p.alive
  {
    RunSound(es);
    assert es[..|es|] == es;
    NoHangUp(es, id);
  }

  /** A live client in the map of a process at rest, with nothing on the bus for it, is settled. */
  lemma RestIsSettled(c: Cluster, n: nat, i: nat)
    requires CWf(c) && n < |c.nodes| && WritersClose(c.nodes[n]) && c.bus[n] == []
    requires Quiescent(c.nodes[n]) && !c.nodes[n].crashed
    requires i < |c.nodes[n].pumps| && c.nodes[n].pumps[i].alive && InMap(c.nodes[n].hub, i)
    ensures Settled(c, n, i)
  {
    RestIsIdle(c.nodes[n]);
  }

  lemma MoveKeepsClosing(c: Cluster, m: Move)
    requires CWf(c) && CEnabled(c, m) && forall n | 0 <= n < |c.nodes| :: WritersClose(c.nodes[n])
    ensures forall n | 0 <= n < |CApply(c, m).nodes| :: WritersClose(CApply(c, m).nodes[n])
  {
    forall n | 0 <= n < |CApply(c, m).nodes| ensures WritersClose(CApply(c, m).nodes[n]) {
      var e := NodeMove(c, m, n);
      WritersCloseStep(c.nodes[n], e);
    }
  }

  lemma {:induction false} NodesClose<S(!new)>(apply: (S, Bytes) -> S, init: map<string, S>, size: nat,
                                               run: seq<Action>)
    ensures forall n | 0 <= n < |WRun(apply, init, size, run).net.nodes| ::
              WritersClose(WRun(apply, init, size, run).net.nodes[n])
  {
    if run != [] {
      var w, a := WRun(apply, init, size, run[..|run| - 1]), run[|run| - 1];
      NodesClose(apply, init, size, run[..|run| - 1]);
      if WEnabled(w, a) && a.Net? { MoveKeepsClosing(w.net, a.m); }
    }
  }

  /** Convergence without a premise on queues: in every run of processes, log, compactor and joins, once the client's
      process is at rest and nothing is on the bus for it, a live client in the map whose blob covers what it may not
      have been sent holds the merge of all diffs handled for its document. */
  lemma {:induction false} ConvergedAtRest<S(!new)>(apply: (S, Bytes) -> S, init: map<string, S>, size: nat,
                                                    run: seq<Action>, n: nat, i: nat, applied: seq<Bytes>)
    requires ConflictFree(apply)
    requires var c := WRun(apply, init, size, run).net;
             && n < |c.nodes| && c.bus[n] == [] && Quiescent(c.nodes[n]) && !c.nodes[n].crashed
             && i < |c.nodes[n].pumps| && c.nodes[n].pumps[i].alive && InMap(c.nodes[n].hub, i)
    requires var w := WRun(apply, init, size, run);
             && (n, i) in w.joins && (AlwaysWell(apply, init, size, run); Covered(w.net, n, i, Sent(w, n, i)))
             && forall p :: p in applied <==> Adds(w.net, n, i, p)
    ensures var w := WRun(apply, init, size, run); var doc := w.net.nodes[n].hub.chans[i].doc;
            && doc in init
            && ApplyAll(apply, w.joins[(n, i)].blob, applied)
            == ApplyAll(apply, init[doc], DocDiffs(w.net.handled, doc))
  {
    NodesClose(apply, init, size, run);
    RestIsSettled(WRun(apply, init, size, run).net, n, i);
    JoinersAgree(apply, init, size, run, n, i, applied);
  }
}
