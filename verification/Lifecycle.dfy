/** Channel lifecycle: when the hub never closes a Send channel twice, never sends on a closed one, and closes every
    channel it drops. The Unregister case looks up by user and not by connection, so this holds exactly of the runs
    in which no Unregister finds another connection of its user in the map. */
module Lifecycle {
  import opened Basics
  import opened HubSpec
  import opened System

  /** A client's channel is closed exactly when the client was registered and is no longer in the map. */
  ghost predicate Sound(s: Sys)
    requires Wf(s)
  {
    !s.crashed &&
    forall id | 0 <= id < |s.pumps| :: s.hub.chans[id].closed <==> s.pumps[id].since.Some? && !InMap(s.hub, id)
  }

  /** The next Unregister belongs to one connection of a user while another one is in the map. */
  predicate Stale(s: Sys, e: Event)
    requires Wf(s)
  {
    e.TakeUnregister? && s.unregQ != [] && var id := s.unregQ[0];
    s.hub.chans[id].user in s.hub.clients && !InMap(s.hub, id)
  }

  /** A stale Unregister always breaks soundness: it kills the process if the asking connection was registered before,
      and otherwise leaves the dropped connection's channel open for ever. */
  lemma StaleBreaks(s: Sys)
    requires Wf(s) && Phases(s) && Sound(s) && Stale(s, TakeUnregister)
    ensures !Sound(Step(s, TakeUnregister))
    ensures Step(s, TakeUnregister).crashed <==> s.pumps[s.unregQ[0]].since.Some?
  {
    var t, id := Step(s, TakeUnregister), s.unregQ[0];
    var dropped := s.hub.clients[s.hub.chans[id].user];
    assert InMap(s.hub, dropped);
    if !t.crashed {
      assert !InMap(t.hub, dropped) && !t.hub.chans[dropped].closed && t.pumps[dropped].since.Some?;
    }
  }

  lemma BroadcastSound(s: Sys)
    requires Wf(s) && Phases(s) && Sound(s) && Enabled(s, TakeBroadcast)
    ensures Sound(Apply(s, TakeBroadcast))
  {
    forall u | u in s.hub.clients ensures !s.hub.chans[s.hub.clients[u]].closed {
      assert InMap(s.hub, s.hub.clients[u]);
    }
  }

  lemma RegisterSound(s: Sys)
    requires Wf(s) && Phases(s) && Sound(s) && Enabled(s, TakeRegister)
    ensures Sound(Apply(s, TakeRegister))
  {
    var u := s.hub.chans[s.regQ[0]].user;
    assert s.regQ[0] in s.regQ;
    if u in s.hub.clients { assert InMap(s.hub, s.hub.clients[u]); }
  }

  lemma UnregisterSound(s: Sys)
    requires Wf(s) && Phases(s) && Sound(s) && Enabled(s, TakeUnregister) && !Stale(s, TakeUnregister)
    ensures Sound(Apply(s, TakeUnregister))
  {
  }

  lemma OtherSound(s: Sys, e: Event)
    requires Wf(s) && Phases(s) && Sound(s) && Enabled(s, e)
    requires !e.TakeRegister? && !e.TakeUnregister? && !e.TakeBroadcast?
    ensures Sound(Apply(s, e))
  {
  }

  /** One step keeps the lifecycle sound if and only if it is not a stale Unregister. */
  lemma StepSound(s: Sys, e: Event)
    requires Wf(s) && Phases(s) && Sound(s)
    ensures Sound(Step(s, e)) <==> !Stale(s, e)
  {
    if Enabled(s, e) {
      match e
      case TakeRegister => RegisterSound(s);
      case TakeUnregister => if Stale(s, e) { StaleBreaks(s); } else { UnregisterSound(s); }
      case TakeBroadcast => BroadcastSound(s);
      case _ => OtherSound(s, e);
    }
  }

  /** No event of the trace was a stale Unregister when it happened. */
  ghost predicate NeverStale(es: seq<Event>) {
    forall n | 0 <= n < |es| :: !Stale(Run(es[..n]), es[n])
  }

  /** Every state of a run is sound if and only if the run has no stale Unregister. */
  lemma {:induction false} RunSound(es: seq<Event>)
    ensures (forall n | 0 <= n <= |es| :: Sound(Run(es[..n]))) <==> NeverStale(es)
  {
    if forall n | 0 <= n <= |es| :: Sound(Run(es[..n])) {
      forall n | 0 <= n < |es| ensures !Stale(Run(es[..n]), es[n]) {
        PhasesAlways(es[..n]);
        RunPrefix(es, n);
        assert Sound(Run(es[..n + 1]));
        StepSound(Run(es[..n]), es[n]);
      }
    }
    if NeverStale(es) {
      forall n | 0 <= n <= |es| ensures Sound(Run(es[..n])) { SoundUpTo(es, n); }
    }
  }

  lemma {:induction false} SoundUpTo(es: seq<Event>, n: nat)
    requires n <= |es| && NeverStale(es)
    ensures Sound(Run(es[..n]))
  {
    if n > 0 {
      SoundUpTo(es, n - 1);
      PhasesAlways(es[..n - 1]);
      RunPrefix(es, n - 1);
      StepSound(Run(es[..n - 1]), es[n - 1]);
    }
  }

  /** The missing guard: act only if the map entry is this very connection. */
  function GuardedUnregister(h: HubState, id: nat): Outcome
    requires id < |h.chans|
  {
    if InMap(h, id) then Close(h.(clients := h.clients - {h.chans[id].user}), id) else Running(h)
  }

  /** It never panics and keeps every state sound, and differs from the code only on a stale Unregister. */
  lemma GuardSuffices(s: Sys)
    requires Wf(s) && Phases(s) && Sound(s) && Enabled(s, TakeUnregister)
    ensures var next := GuardedUnregister(s.hub, s.unregQ[0]);
            && next.Running? && WellKeyed(next.h) && Sound(s.(hub := next.h))
            && (!Stale(s, TakeUnregister) <==> next == Unregister(s.hub, s.unregQ[0]))
  {
  }

  /** The server with that guard in its Unregister case. */
  function GuardedStep(s: Sys, e: Event): (r: Sys)
    requires Wf(s)
    ensures Wf(r)
  {
    if !e.TakeUnregister? || !Enabled(s, e) then Step(s, e)
    else
      var id := s.unregQ[0];
      match GuardedUnregister(s.hub, id)
      case Panic => s.(crashed := true)
      case Running(h) =>
        s.(hub := h, unregQ := s.unregQ[1..],
           pumps := s.pumps[id := s.pumps[id].(unregistered := true, left := s.pumps[id].since.Some?)])
  }

  function GuardedRun(es: seq<Event>): (s: Sys)
    ensures Wf(s)
  {
    if es == [] then INIT else GuardedStep(GuardedRun(es[..|es| - 1]), es[|es| - 1])
  }

  lemma GuardedStepSound(s: Sys, e: Event)
    requires Wf(s) && Phases(s) && Sound(s)
    ensures Phases(GuardedStep(s, e)) && Sound(GuardedStep(s, e))
  {
    if e.TakeUnregister? && Enabled(s, e) {
      GuardSuffices(s);
      if Stale(s, e) { assert s.unregQ == [s.unregQ[0]] + s.unregQ[1..]; } else { PhasesStep(s, e); }
    } else {
      PhasesStep(s, e);
      StepSound(s, e);
    }
  }

  /** With the guard every run is sound, whoever reconnects, in whatever order the hub takes the messages. */
  lemma {:induction false} GuardedRunsAreSound(es: seq<Event>)
    ensures Phases(GuardedRun(es)) && Sound(GuardedRun(es))
  {
    if es != [] {
      GuardedRunsAreSound(es[..|es| - 1]);
      GuardedStepSound(GuardedRun(es[..|es| - 1]), es[|es| - 1]);
    }
  }

  /** The users of the connections made in a trace, with repetitions. */
  function Users(es: seq<Event>): seq<string> {
    if es == [] then []
    else Users(es[..|es| - 1]) + if es[|es| - 1].Accept? then [es[|es| - 1].user] else []
  }

  /** The connections of a run are among those its trace asked for, so distinct users stay distinct. */
  lemma {:induction false} OneConnectionPerUser(es: seq<Event>)
    requires Distinct(Users(es))
    ensures forall i | 0 <= i < |Run(es).hub.chans| :: Run(es).hub.chans[i].user in Users(es)
    ensures forall i, j | 0 <= i < j < |Run(es).hub.chans| :: Run(es).hub.chans[i].user != Run(es).hub.chans[j].user
  {
    if es != [] {
      var before, e := es[..|es| - 1], es[|es| - 1];
      var u := Users(before);
      assert forall i | 0 <= i < |u| :: u[i] == Users(es)[i];
      assert e.Accept? ==> Users(es)[|u|] == e.user;
      OneConnectionPerUser(before);
      ConnectionsStep(Run(before), e);
    }
  }

  /** A caller-visible sufficient condition: if nobody connects twice, the whole run is sound. */
  lemma {:induction false} SingleConnectionsAreSound(es: seq<Event>)
    requires Distinct(Users(es))
    ensures NeverStale(es) && Sound(Run(es))
  {
    forall n | 0 <= n < |es| ensures !Stale(Run(es[..n]), es[n]) {
      UsersPrefix(es, n);
      OneConnectionPerUser(es[..n]);
    }
    RunSound(es);
    assert es[..|es|] == es;
  }

  lemma {:induction false} UsersPrefix(es: seq<Event>, n: nat)
    requires n <= |es|
    ensures Users(es[..n]) <= Users(es)
  {
    if n < |es| {
      UsersPrefix(es[..|es| - 1], n);
      assert es[..|es| - 1][..n] == es[..n];
    } else {
      assert es[..n] == es;
    }
  }

  /** The state of a user's only connection, registered as soon as it was made. */
  const FRESH := Pump(true, true, true, [], Some(0), false, false)

  function Single(user: string, doc: string): Sys {
    Sys(HubState([Chan(user, doc, [], false)], map[user := 0]), [FRESH], [], [], [], [], false)
  }

  /** Two connections of one user, the first displaced by the second. */
  function Displaced(user: string, doc: string): Sys {
    Sys(HubState([Chan(user, doc, [], true), Chan(user, doc, [], false)], map[user := 1]),
        [FRESH, FRESH], [], [], [], [], false)
  }

  lemma ReconnectStep(user: string, doc: string)
    ensures Wf(Single(user, doc)) && Step(Step(Single(user, doc), Accept(user, doc)), TakeRegister)
        == Displaced(user, doc)
  {
  }

  /** A browser tab refresh: the user connects again before the old socket is torn down. */
  function Refreshed(user: string, doc: string): seq<Event> {
    [Accept(user, doc)] + [TakeRegister] + [Accept(user, doc)] + [TakeRegister]
  }

  lemma RefreshedState(user: string, doc: string)
    ensures Run(Refreshed(user, doc)) == Displaced(user, doc)
  {
    RunTwoMore([], Accept(user, doc), TakeRegister);
    assert [] + [Accept(user, doc)] == [Accept(user, doc)];
    assert Run([Accept(user, doc)] + [TakeRegister]) == Single(user, doc);
    ReconnectStep(user, doc);
    RunTwoMore([Accept(user, doc)] + [TakeRegister], Accept(user, doc), TakeRegister);
  }

  /** The old connection's pumps exit and its Unregister is taken: the old channel is closed again. */
  function TabRefresh(user: string, doc: string): seq<Event> {
    Refreshed(user, doc) + [WriterClose(0)] + [ReaderExit(0)] + [TakeUnregister]
  }

  lemma DisplacedStep(user: string, doc: string)
    ensures Wf(Displaced(user, doc))
    ensures Step(Step(Step(Displaced(user, doc), WriterClose(0)), ReaderExit(0)), TakeUnregister).crashed
  {
    var s := Displaced(user, doc);
    var s1 := Step(s, WriterClose(0));
    assert s1 == s.(pumps := [FRESH.(writer := false, alive := false), FRESH]);
    var s2 := Step(s1, ReaderExit(0));
    assert s2 == s1.(unregQ := [0], pumps := [FRESH.(reader := false, writer := false, alive := false), FRESH]);
  }

  /** A tab refresh kills the server. */
  lemma TabRefreshCrashes(user: string, doc: string)
    ensures Run(TabRefresh(user, doc)).crashed
  {
    RefreshedState(user, doc);
    DisplacedStep(user, doc);
    RunThreeMore(Refreshed(user, doc), WriterClose(0), ReaderExit(0), TakeUnregister);
  }
}
