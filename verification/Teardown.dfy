/** Teardown terminates: with no further input from outside, the goroutines run out of work, and when they have, a dead
    connection whose Register came first has left nothing behind. */
module Teardown {
  import opened Basics
  import opened HubSpec
  import opened System
  import opened Lifecycle

  /** The steps the server takes on its own. */
  predicate Internal(e: Event) { !e.Accept? && !e.Offer? && !e.Disconnect? }

  ghost predicate Quiescent(s: Sys)
    requires Wf(s)
  {
    forall e | Internal(e) :: !Enabled(s, e)
  }

  function Readers(s: Sys): seq<nat> {
    seq(|s.pumps|, i requires 0 <= i < |s.pumps| => if s.pumps[i].reader then 1 else 0)
  }

  /** Payloads left to write, plus one for the WritePump's own exit. */
  function Writes(s: Sys): seq<nat>
    requires Wf(s)
  {
    seq(|s.pumps|, i requires 0 <= i < |s.pumps| => |s.hub.chans[i].buf| + if s.pumps[i].writer then 1 else 0)
  }

  function Queued(s: Sys): nat { |s.regQ| + |s.unregQ| + |s.bcastQ| }

  /** The lexicographic measure: process alive, ReadPumps, queued messages, buffered payloads and WritePumps. */
  ghost predicate Smaller(t: Sys, s: Sys)
    requires Wf(s) && Wf(t)
  {
    || (t.crashed && !s.crashed)
    || (t.crashed == s.crashed &&
        (|| Total(Readers(t)) < Total(Readers(s))
         || (Total(Readers(t)) == Total(Readers(s)) &&
             (|| Queued(t) < Queued(s)
              || (Queued(t) == Queued(s) && Total(Writes(t)) < Total(Writes(s)))))))
  }

  /** Every step the server takes on its own makes the state smaller. */
  lemma StepShrinks(s: Sys, e: Event)
    requires Wf(s) && Internal(e) && Enabled(s, e)
    ensures Smaller(Step(s, e), s)
  {
    var t := Step(s, e);
    if !t.crashed {
      TotalMonotone(Readers(t), Readers(s));
      match e
      case ReaderExit(id) => assert Readers(t)[id] < Readers(s)[id];
      case TakeRegister => assert Readers(t) == Readers(s);
      case TakeUnregister => assert Readers(t) == Readers(s);
      case TakeBroadcast => assert Readers(t) == Readers(s);
      case Write(id) => WriterShrinks(s, t, id);
      case WriterClose(id) => WriterShrinks(s, t, id);
      case PingFail(id) => WriterShrinks(s, t, id);
    }
  }

  lemma WriterShrinks(s: Sys, t: Sys, id: nat)
    requires Wf(s) && Wf(t) && Readers(t) == Readers(s) && Queued(t) == Queued(s) && t.crashed == s.crashed
    requires forall i | 0 <= i < |s.pumps| && i != id :: t.pumps[i] == s.pumps[i] && t.hub.chans[i] == s.hub.chans[i]
    requires id < |s.pumps| == |t.pumps| && Writes(t)[id] < Writes(s)[id]
    ensures Smaller(t, s)
  {
    TotalMonotone(Writes(t), Writes(s));
  }

  /** So the server cannot keep itself busy: any schedule of its own steps ends. */
  lemma Settles(run: nat -> Sys, event: nat -> Event)
    requires forall i: nat :: Wf(run(i)) && run(i + 1) == Step(run(i), event(i))
    ensures exists i: nat :: !(Internal(event(i)) && Enabled(run(i), event(i)))
  {
    if forall i: nat :: Internal(event(i)) && Enabled(run(i), event(i)) {
      forall i: nat ensures Smaller(run(i + 1), run(i)) { StepShrinks(run(i), event(i)); }
      NoDescent(run, 0);
    }
  }

  lemma {:induction false} NoDescent(run: nat -> Sys, i: nat)
    requires forall i: nat :: Wf(run(i))
    requires forall i: nat :: Smaller(run(i + 1), run(i))
    ensures false
    decreases !run(i).crashed, Total(Readers(run(i))), Queued(run(i)), Total(Writes(run(i)))
  {
    NoDescent(run, i + 1);
  }

  /** The server with the identity guard shrinks likewise ... */
  lemma GuardedStepShrinks(s: Sys, e: Event)
    requires Wf(s) && Internal(e) && Enabled(s, e)
    ensures Smaller(GuardedStep(s, e), s)
  {
    if e.TakeUnregister? {
      assert GuardedStep(s, e).crashed || Readers(GuardedStep(s, e)) == Readers(s);
    } else {
      StepShrinks(s, e);
    }
  }

  /** ... and so settles likewise. */
  lemma GuardedSettles(run: nat -> Sys, event: nat -> Event)
    requires forall i: nat :: Wf(run(i)) && run(i + 1) == GuardedStep(run(i), event(i))
    ensures exists i: nat :: !(Internal(event(i)) && Enabled(run(i), event(i)))
  {
    if forall i: nat :: Internal(event(i)) && Enabled(run(i), event(i)) {
      forall i: nat ensures Smaller(run(i + 1), run(i)) { GuardedStepShrinks(run(i), event(i)); }
      NoDescent(run, 0);
    }
  }

  lemma QuietIsGone(s: Sys, id: nat)
    requires Wf(s) && Phases(s) && Quiescent(s) && !s.crashed && id < |s.pumps| && !s.pumps[id].alive
    ensures var p := s.pumps[id]; !p.reader && !p.writer && p.unregistered && p.since.Some?
  {
    assert !Enabled(s, TakeRegister) && !Enabled(s, TakeUnregister);
    assert !Enabled(s, ReaderExit(id)) && !Enabled(s, PingFail(id));
  }

  /** When a run has settled, a dead connection has no pump left and its Unregister was taken. If its Register was taken
      first, it is out of the map for good; and if the run had no stale Unregister, its Send is closed just then. */
  lemma {:induction false} DeadConnectionsAreGone(es: seq<Event>, id: nat)
    requires var s := Run(es); Quiescent(s) && !s.crashed && id < |s.pumps| && !s.pumps[id].alive
    ensures var s := Run(es); var p := s.pumps[id];
            && !p.reader && !p.writer && p.unregistered
            && (p.left ==> !InMap(s.hub, id))
            && (NeverStale(es) ==> (s.hub.chans[id].closed <==> !InMap(s.hub, id)))
  {
    PhasesAlways(es);
    QuietIsGone(Run(es), id);
    RunSound(es);
    assert es[..|es|] == es;
  }

  /** With the guard no premise about the run is left: such a connection has its Send closed. */
  lemma {:induction false} GuardedDeadConnectionsAreGone(es: seq<Event>, id: nat)
    requires var s := GuardedRun(es); Quiescent(s) && id < |s.pumps| && !s.pumps[id].alive
    ensures var s := GuardedRun(es); var p := s.pumps[id];
            && !p.reader && !p.writer && p.unregistered
            && (p.left ==> !InMap(s.hub, id) && s.hub.chans[id].closed)
  {
    GuardedRunsAreSound(es);
    QuietIsGone(GuardedRun(es), id);
  }

  /** The socket of a new connection fails at once ... */
  function Stillborn(user: string, doc: string): seq<Event> { [Accept(user, doc)] + [Disconnect(0)] + [ReaderExit(0)] }

  lemma StillbornSteps(user: string, doc: string)
    ensures Step(Step(Step(INIT, Accept(user, doc)), Disconnect(0)), ReaderExit(0)) == Unborn(user, doc)
  {
    var s1 := Step(INIT, Accept(user, doc));
    assert s1 == Sys(HubState([Chan(user, doc, [], false)], map[]), [Pump(true, true, true, [], None, false, false)],
                     [0], [], [], [], false);
    var s2 := Step(s1, Disconnect(0));
    assert s2 == s1.(pumps := [Pump(true, true, false, [], None, false, false)]);
  }

  /** Its ReadPump is gone; its Register and its Unregister both wait for the hub. */
  function Unborn(user: string, doc: string): Sys {
    Sys(HubState([Chan(user, doc, [], false)], map[]), [Pump(false, true, false, [], None, false, false)],
        [0], [0], [], [], false)
  }

  lemma StillbornState(user: string, doc: string)
    ensures Run(Stillborn(user, doc)) == Unborn(user, doc)
  {
    StillbornSteps(user, doc);
    RunThreeMore([], Accept(user, doc), Disconnect(0), ReaderExit(0));
    assert [] + [Accept(user, doc)] == [Accept(user, doc)];
  }

  /** ... and the hub takes its Unregister before its Register. */
  function Overtaken(user: string, doc: string): seq<Event> {
    Stillborn(user, doc) + [TakeUnregister] + [TakeRegister] + [PingFail(0)]
  }

  /** A connection filed in the map, with a dead socket and no pumps. */
  function Zombie(user: string, doc: string): Sys {
    Sys(HubState([Chan(user, doc, [], false)], map[user := 0]), [Pump(false, false, false, [], Some(0), true, false)],
        [], [], [], [], false)
  }

  lemma ZombieStep(user: string, doc: string)
    ensures Wf(Unborn(user, doc))
         && Step(Step(Step(Unborn(user, doc), TakeUnregister), TakeRegister), PingFail(0)) == Zombie(user, doc)
  {
  }

  lemma ZombieQuiescent(user: string, doc: string)
    ensures Wf(Zombie(user, doc)) && Quiescent(Zombie(user, doc))
  {
  }

  /** Why the order matters: such a connection stays in the map with nobody to read its channel. */
  lemma OvertakenStays(user: string, doc: string)
    ensures Run(Overtaken(user, doc)) == Zombie(user, doc) && Quiescent(Run(Overtaken(user, doc)))
  {
    StillbornState(user, doc);
    ZombieStep(user, doc);
    ZombieQuiescent(user, doc);
    RunThreeMore(Stillborn(user, doc), TakeUnregister, TakeRegister, PingFail(0));
  }

  /** Every ReadPump sends one Unregister, on its exit: it is either still queued or was taken. */
  ghost predicate OneFarewell(s: Sys, id: nat)
    requires Wf(s) && id < |s.pumps|
  {
    multiset(s.unregQ)[id] + (if s.pumps[id].unregistered then 1 else 0) == if s.pumps[id].reader then 0 else 1
  }

  lemma FarewellTaken(s: Sys, id: nat)
    requires Wf(s) && id < |s.pumps| && OneFarewell(s, id) && Enabled(s, TakeUnregister)
    ensures OneFarewell(Apply(s, TakeUnregister), id)
  {
    assert s.unregQ == [s.unregQ[0]] + s.unregQ[1..];
  }

  lemma FarewellOther(s: Sys, e: Event, id: nat)
    requires Wf(s) && id < |s.pumps| && OneFarewell(s, id) && Enabled(s, e) && !e.TakeUnregister?
    ensures OneFarewell(Apply(s, e), id)
  {
  }

  lemma FarewellNewcomer(s: Sys, e: Event)
    requires Wf(s) && Enabled(s, e) && e.Accept?
    ensures OneFarewell(Apply(s, e), |s.pumps|)
  {
    assert |s.pumps| !in s.unregQ;
  }

  lemma FarewellStep(s: Sys, e: Event, id: nat)
    requires Wf(s) && id < |Step(s, e).pumps| && (id < |s.pumps| ==> OneFarewell(s, id))
    ensures OneFarewell(Step(s, e), id)
  {
    if Enabled(s, e) {
      ConnectionsStep(s, e);
      if id == |s.pumps| { FarewellNewcomer(s, e); }
      else if e.TakeUnregister? { FarewellTaken(s, id); }
      else { FarewellOther(s, e, id); }
    }
  }

  /** In every run, at most one Unregister is sent for each connection, and exactly one once its ReadPump has exited. */
  lemma {:induction false} FarewellsAlways(es: seq<Event>, id: nat)
    requires id < |Run(es).pumps|
    ensures OneFarewell(Run(es), id)
  {
    if es != [] {
      var before := Run(es[..|es| - 1]);
      if id < |before.pumps| { FarewellsAlways(es[..|es| - 1], id); }
      FarewellStep(before, es[|es| - 1], id);
    }
  }

  /** The event takes the Register of another connection of the same user, or evicts this one with 256 payloads
      unwritten, or takes a stale Unregister of the same user. */
  predicate Ousts(s: Sys, e: Event, id: nat)
    requires Wf(s) && id < |s.hub.chans| && Enabled(s, e)
  {
    var c := s.hub.chans[id];
    || (e.TakeRegister? && s.regQ[0] != id && s.hub.chans[s.regQ[0]].user == c.user)
    || (e.TakeBroadcast? && Recipient(s.hub, s.bcastQ[0], c.user) && Full(c))
    || (e.TakeUnregister? && Stale(s, e) && s.hub.chans[s.unregQ[0]].user == c.user)
  }

  /** A connection whose Unregister was taken and which is in the map all the same leaves it in exactly those steps. */
  lemma LingererLeavesExactlyWhen(s: Sys, e: Event, id: nat)
    requires Wf(s) && Phases(s) && id < |s.pumps| && OneFarewell(s, id)
    requires InMap(s.hub, id) && s.pumps[id].unregistered
    ensures !InMap(Step(s, e).hub, id) <==> Enabled(s, e) && !Step(s, e).crashed && Ousts(s, e, id)
  {
    if Enabled(s, e) {
      match e
      case TakeRegister => assert s.regQ[0] in s.regQ;
      case TakeUnregister => assert s.unregQ[0] in s.unregQ;
      case _ =>
    }
  }

  /** So it is in every reachable state. */
  lemma {:induction false} LingererInRuns(es: seq<Event>, e: Event, id: nat)
    requires InMap(Run(es).hub, id) && Run(es).pumps[id].unregistered
    ensures var s := Run(es); var t := Step(s, e);
            !InMap(t.hub, id) <==> Enabled(s, e) && !t.crashed && Ousts(s, e, id)
  {
    PhasesAlways(es);
    FarewellsAlways(es, id);
    LingererLeavesExactlyWhen(Run(es), e, id);
  }

  /** A WritePump that exits closes the socket. */
  ghost predicate WritersClose(s: Sys) { forall id | 0 <= id < |s.pumps| && !s.pumps[id].writer :: !s.pumps[id].alive }

  lemma WritersCloseStep(s: Sys, e: Event)
    requires Wf(s) && WritersClose(s)
    ensures WritersClose(Step(s, e))
  {
  }

  lemma {:induction false} WritersAlwaysClose(es: seq<Event>)
    ensures WritersClose(Run(es))
  {
    if es != [] {
      WritersAlwaysClose(es[..|es| - 1]);
      WritersCloseStep(Run(es[..|es| - 1]), es[|es| - 1]);
    }
  }

  /** The connection's channel is closed, as by a newer connection of its user, and its Unregister was not taken. */
  predicate Doomed(s: Sys, id: nat)
    requires Wf(s)
  {
    id < |s.pumps| && s.hub.chans[id].closed && !s.pumps[id].unregistered
  }

  /** It stays so while the user has an entry in the map, unless the process dies. */
  lemma DoomedStep(s: Sys, e: Event, id: nat)
    requires Wf(s) && Doomed(s, id) && s.hub.chans[id].user in s.hub.clients
    ensures Step(s, e).crashed || (Doomed(Step(s, e), id) && Step(s, e).hub.chans[id].user == s.hub.chans[id].user)
  {
    if Enabled(s, e) { ConnectionsStep(s, e); }
  }

  /** Dead, or still doomed with the same user. */
  ghost predicate DoomedOrDead(s: Sys, id: nat, user: string)
    requires Wf(s)
  {
    s.crashed || (Doomed(s, id) && s.hub.chans[id].user == user)
  }

  lemma DoomedOrDeadStep(s: Sys, e: Event, id: nat, user: string)
    requires Wf(s) && DoomedOrDead(s, id, user) && user in s.hub.clients
    ensures DoomedOrDead(Step(s, e), id, user)
  {
    if !s.crashed { DoomedStep(s, e, id); }
  }

  lemma {:induction false} DoomedNext(es: seq<Event>, more: seq<Event>, n: nat, id: nat, user: string)
    requires n < |more| && DoomedOrDead(Run(es + more[..n]), id, user) && user in Run(es + more[..n]).hub.clients
    ensures DoomedOrDead(Run(es + more[..n + 1]), id, user)
  {
    assert es + more[..n + 1] == (es + more[..n]) + [more[n]];
    RunMore(es + more[..n], more[n]);
    DoomedOrDeadStep(Run(es + more[..n]), more[n], id, user);
  }

  lemma {:induction false} DoomedUntilCrash(es: seq<Event>, more: seq<Event>, id: nat, user: string)
    requires DoomedOrDead(Run(es), id, user)
    requires forall m | 0 <= m < |more| :: user in Run(es + more[..m]).hub.clients
    ensures DoomedOrDead(Run(es + more), id, user)
  {
    assert es + more[..0] == es;
    for n := 0 to |more|
      invariant DoomedOrDead(Run(es + more[..n]), id, user)
    {
      DoomedNext(es, more, n, id, user);
    }
    assert more[..|more|] == more;
  }

  /** At rest nobody is doomed: the closed channel has been drained, so both pumps have exited and Unregister was
      taken. */
  lemma RestIsNotDoomed(s: Sys, id: nat)
    requires Wf(s) && Phases(s) && WritersClose(s) && Quiescent(s) && !s.crashed
    ensures !Doomed(s, id)
  {
    if Doomed(s, id) {
      assert !Enabled(s, Write(id)) && !Enabled(s, WriterClose(id));
      QuietIsGone(s, id);
    }
  }

  /** The crash is inevitable: once a connection is displaced with its Unregister not yet taken, every continuation that
      comes to rest has crashed, unless at some point before the user had no entry in the map. */
  lemma {:induction false} DisplacementCrashes(es: seq<Event>, more: seq<Event>, id: nat)
    requires Doomed(Run(es), id) && Quiescent(Run(es + more))
    requires forall n | 0 <= n < |more| :: Run(es).hub.chans[id].user in Run(es + more[..n]).hub.clients
    ensures Run(es + more).crashed
  {
    DoomedUntilCrash(es, more, id, Run(es).hub.chans[id].user);
    if !Run(es + more).crashed {
      PhasesAlways(es + more);
      WritersAlwaysClose(es + more);
      RestIsNotDoomed(Run(es + more), id);
    }
  }

  /** And a connection is doomed, or its Unregister was taken, as soon as another of its user is registered over it. */
  lemma DisplacedIsDoomed(s: Sys, id: nat)
    requires Wf(s) && Enabled(s, TakeRegister) && !Step(s, TakeRegister).crashed && InMap(s.hub, id)
    requires s.hub.chans[s.regQ[0]].user == s.hub.chans[id].user && id < |s.pumps| && !s.pumps[id].unregistered
    ensures Doomed(Step(s, TakeRegister), id) && s.hub.chans[id].user in Step(s, TakeRegister).hub.clients
  {
  }
}
