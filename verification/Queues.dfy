/** The hub's three channels are queues, and the history fields mean what they say: everything is read off the
    events. */
module Queues {
  import opened Basics
  import opened HubSpec
  import opened System
  import opened Delivery
  import opened Teardown

  /** The messages that non-blocking sends put on Broadcast: those that came while fewer than 512 were waiting. */
  function Offers(es: seq<Event>): seq<Message> {
    if es == [] then []
    else
      var s, e := Run(es[..|es| - 1]), es[|es| - 1];
      Offers(es[..|es| - 1]) + if e.Offer? && !s.crashed && |s.bcastQ| < 512 then [e.msg] else []
  }

  lemma BroadcastQueueStep(s: Sys, e: Event)
    requires Wf(s)
    ensures Step(s, e).log + Step(s, e).bcastQ
         == s.log + s.bcastQ + if e.Offer? && !s.crashed && |s.bcastQ| < 512 then [e.msg] else []
  {
    if Enabled(s, e) && e.TakeBroadcast? { assert s.bcastQ == [s.bcastQ[0]] + s.bcastQ[1..]; }
  }

  /** The hub has processed, and will process, exactly the messages sent on Broadcast, in the order in which they
      came. */
  lemma {:induction false} BroadcastIsFifo(es: seq<Event>)
    ensures Run(es).log + Run(es).bcastQ == Offers(es)
  {
    if es != [] {
      BroadcastIsFifo(es[..|es| - 1]);
      BroadcastQueueStep(Run(es[..|es| - 1]), es[|es| - 1]);
    }
  }

  lemma {:induction false} RoutedPrefix(log: seq<Message>, more: seq<Message>, n: nat, user: string, doc: string)
    requires n <= |log|
    ensures Routed(log[n..], user, doc) <= Routed((log + more)[n..], user, doc)
  {
    RoutedConcat(log[n..], more, user, doc);
    assert (log + more)[n..] == log[n..] + more;
  }

  /** So in every run what a client was ever sent is a prefix of what the producers sent since its registration, in the
      producers' order: in particular the diffs of one connection reach it in the order in which they were typed. */
  lemma {:induction false} ClientsGetProducersOrder(es: seq<Event>, id: nat)
    requires id < |Run(es).pumps| && Run(es).pumps[id].since.Some?
    ensures var s := Run(es); var n := s.pumps[id].since.value;
            n <= |Offers(es)| && Enqueued(s, id) <= Routed(Offers(es)[n..], s.hub.chans[id].user, s.hub.chans[id].doc)
  {
    var s := Run(es);
    DeliveryIsGapFree(es);
    assert Faithful(s, id);
    BroadcastIsFifo(es);
    RoutedPrefix(s.log, s.bcastQ, s.pumps[id].since.value, s.hub.chans[id].user, s.hub.chans[id].doc);
  }

  /** Register is a queue: the registered connections are the oldest ones, the waiting ones follow in the order of their
      making, and of two registered ones the older was registered first. */
  ghost predicate OldestFirst(s: Sys)
    requires Wf(s)
  {
    && |s.regQ| <= |s.pumps| && |s.regQ| <= 64
    && (forall i | 0 <= i < |s.regQ| :: s.regQ[i] == |s.pumps| - |s.regQ| + i)
    && (forall id | 0 <= id < |s.pumps| :: s.pumps[id].since.Some? <==> id < |s.pumps| - |s.regQ|)
    && (forall id | 0 <= id < |s.pumps| - |s.regQ| :: s.pumps[id].since.Some? && s.pumps[id].since.value <= |s.log|)
    && (forall i, j | 0 <= i < j < |s.pumps| - |s.regQ| && s.pumps[i].since.Some? && s.pumps[j].since.Some? ::
          s.pumps[i].since.value <= s.pumps[j].since.value)
  }

  lemma OldestFirstTake(s: Sys)
    requires Wf(s) && OldestFirst(s) && Enabled(s, TakeRegister)
    ensures OldestFirst(Apply(s, TakeRegister))
  {
    assert s.regQ[0] == |s.pumps| - |s.regQ|;
  }

  lemma OldestFirstAccept(s: Sys, e: Event)
    requires Wf(s) && OldestFirst(s) && Enabled(s, e) && e.Accept?
    ensures OldestFirst(Apply(s, e))
  {
  }

  lemma OldestFirstOther(s: Sys, e: Event)
    requires Wf(s) && OldestFirst(s) && Enabled(s, e) && !e.TakeRegister? && !e.Accept?
    ensures OldestFirst(Apply(s, e))
  {
  }

  lemma OldestFirstStep(s: Sys, e: Event)
    requires Wf(s) && OldestFirst(s)
    ensures OldestFirst(Step(s, e))
  {
    if Enabled(s, e) {
      if e.TakeRegister? { OldestFirstTake(s); }
      else if e.Accept? { OldestFirstAccept(s, e); }
      else { OldestFirstOther(s, e); }
    }
  }

  lemma {:induction false} RegisterIsFifo(es: seq<Event>)
    ensures OldestFirst(Run(es))
  {
    if es != [] {
      RegisterIsFifo(es[..|es| - 1]);
      OldestFirstStep(Run(es[..|es| - 1]), es[|es| - 1]);
    }
  }

  /** A connection is made exactly when it is accepted by a living process with fewer than 64 waiting; it starts with
      both pumps, a live socket and an empty open channel. */
  lemma AcceptedExactly(s: Sys, e: Event)
    requires Wf(s)
    ensures |Step(s, e).pumps| == |s.pumps| + if e.Accept? && !s.crashed && |s.regQ| < 64 then 1 else 0
    ensures |Step(s, e).pumps| > |s.pumps| ==>
              && Step(s, e).pumps[|s.pumps|] == Pump(true, true, true, [], None, false, false)
              && Step(s, e).hub.chans[|s.pumps|] == Chan(e.user, e.doc, [], false)
  {
  }

  /** The connection whose ReadPump exits in a step, and the one whose Unregister the hub takes. */
  function Departing(s: Sys, e: Event): seq<nat> {
    if e.ReaderExit? && !s.crashed && e.id < |s.pumps| && s.pumps[e.id].reader && !s.pumps[e.id].alive &&
       |s.unregQ| < 64
    then [e.id]
    else []
  }

  function Taken(s: Sys, e: Event): seq<nat>
    requires Wf(s)
  {
    if e.TakeUnregister? && !s.crashed && s.unregQ != [] && !Step(s, e).crashed then [s.unregQ[0]] else []
  }

  function Departures(es: seq<Event>): seq<nat> {
    if es == [] then []
    else Departures(es[..|es| - 1]) + Departing(Run(es[..|es| - 1]), es[|es| - 1])
  }

  function Unregistrations(es: seq<Event>): seq<nat> {
    if es == [] then []
    else Unregistrations(es[..|es| - 1]) + Taken(Run(es[..|es| - 1]), es[|es| - 1])
  }

  lemma UnregisterQueueStep(s: Sys, e: Event)
    requires Wf(s)
    ensures s.unregQ + Departing(s, e) == Taken(s, e) + Step(s, e).unregQ
  {
    if Taken(s, e) != [] { assert s.unregQ == [s.unregQ[0]] + s.unregQ[1..]; }
  }

  lemma QueueAlgebra(taken: seq<nat>, q: seq<nat>, entering: seq<nat>, leaving: seq<nat>, q': seq<nat>)
    requires q + entering == leaving + q'
    ensures taken + leaving + q' == taken + q + entering
  {
    assert taken + leaving + q' == taken + (leaving + q');
    assert taken + q + entering == taken + (q + entering);
  }

  /** Unregister is a queue: the hub has taken, and will take, the connections whose ReadPump exited, in that order. */
  lemma {:induction false} UnregisterIsFifo(es: seq<Event>)
    ensures Unregistrations(es) + Run(es).unregQ == Departures(es)
  {
    if es != [] {
      var before, e := es[..|es| - 1], es[|es| - 1];
      UnregisterIsFifo(before);
      UnregisterQueueStep(Run(before), e);
      QueueAlgebra(Unregistrations(before), Run(before).unregQ, Departing(Run(before), e), Taken(Run(before), e),
                   Run(es).unregQ);
    }
  }

  lemma FlagsStep(s: Sys, e: Event, id: nat)
    requires Wf(s) && id < |s.pumps|
    ensures var p, q := s.pumps[id], Step(s, e).pumps[id];
            && q.unregistered == (p.unregistered || id in Taken(s, e))
            && q.left == (if id in Taken(s, e) then p.since.Some? else p.left)
  {
  }

  /** Whether the hub has taken the connection's Unregister, and whether it did so with the connection registered
      before. */
  function EverTaken(es: seq<Event>, id: nat): bool {
    es != [] && (EverTaken(es[..|es| - 1], id) || id in Taken(Run(es[..|es| - 1]), es[|es| - 1]))
  }

  function TakenRegistered(es: seq<Event>, id: nat): bool {
    es != [] &&
    var s := Run(es[..|es| - 1]);
    || TakenRegistered(es[..|es| - 1], id)
    || (id in Taken(s, es[|es| - 1]) && id < |s.pumps| && s.pumps[id].since.Some?)
  }

  lemma {:induction false} TakenExists(es: seq<Event>, id: nat)
    ensures EverTaken(es, id) || TakenRegistered(es, id) ==> id < |Run(es).pumps|
  {
    if es != [] { TakenExists(es[..|es| - 1], id); }
  }

  lemma NewcomerFlags(s: Sys, e: Event, id: nat)
    requires Wf(s) && |s.pumps| <= id < |Step(s, e).pumps|
    ensures !Step(s, e).pumps[id].unregistered && !Step(s, e).pumps[id].left && id !in Taken(s, e)
  {
  }

  /** So the flags by which teardown is stated mean what they say. */
  lemma {:induction false} FlagsMeanWhatTheySay(es: seq<Event>, id: nat)
    requires id < |Run(es).pumps|
    ensures Run(es).pumps[id].unregistered == EverTaken(es, id)
    ensures Run(es).pumps[id].left == TakenRegistered(es, id)
  {
    if es != [] {
      var before, e := es[..|es| - 1], es[|es| - 1];
      PhasesAlways(before);
      if id < |Run(before).pumps| {
        FlagsMeanWhatTheySay(before, id);
        FlagsStep(Run(before), e, id);
      } else {
        TakenExists(before, id);
        NewcomerFlags(Run(before), e, id);
      }
    }
  }
}
