/** One server process as a transition system: the hub goroutine, its three channels, and a ReadPump and a WritePump
    for every connection, interleaved in any order. A disabled event leaves the state as it is. */
module System {
  import opened Basics
  import opened HubSpec

  /** The two goroutines of a connection and its socket. The last four fields are history: what WritePump took off
      the Send channel, the length of the hub's log when the hub took the client's Register, whether the hub took its
      Unregister, and whether it did so after its Register. */
  datatype Pump = Pump(reader: bool, writer: bool, alive: bool,
                       drained: seq<Bytes>, since: Option<nat>, unregistered: bool, left: bool)

  /** `log` is history: the broadcasts the hub has processed, in order. */
  datatype Sys = Sys(hub: HubState, pumps: seq<Pump>, regQ: seq<nat>, unregQ: seq<nat>, bcastQ: seq<Message>,
                     log: seq<Message>, crashed: bool)

  datatype Event =
    | Accept(user: string, doc: string) // WSHandler: NewClient, send on Register, start both pumps
    | Offer(msg: Message)               // any producer's non-blocking send on Broadcast
    | Disconnect(id: nat)               // the socket fails, or the read deadline expires
    | TakeRegister
    | TakeUnregister
    | TakeBroadcast
    | ReaderExit(id: nat)               // ReadMessage returns an error; the deferred send on Unregister
    | Write(id: nat)                    // WritePump takes a payload; write errors are ignored
    | WriterClose(id: nat)              // WritePump finds Send closed and drained
    | PingFail(id: nat)                 // WritePump's ping fails on a dead socket

  const INIT := Sys(HubState([], map[]), [], [], [], [], [], false)

  ghost predicate Wf(s: Sys) {
    && |s.pumps| == |s.hub.chans| && WellKeyed(s.hub)
    && (forall i | 0 <= i < |s.regQ| :: s.regQ[i] < |s.pumps|)
    && (forall i | 0 <= i < |s.unregQ| :: s.unregQ[i] < |s.pumps|)
  }

  predicate Enabled(s: Sys, e: Event)
    requires Wf(s)
  {
    !s.crashed &&
    match e
    case Accept(_, _) => |s.regQ| < REGISTER_CAPACITY
    case Offer(_) => |s.bcastQ| < BROADCAST_CAPACITY
    case Disconnect(id) => id < |s.pumps|
    case TakeRegister => s.regQ != []
    case TakeUnregister => s.unregQ != []
    case TakeBroadcast => s.bcastQ != []
    case ReaderExit(id) =>
      id < |s.pumps| && s.pumps[id].reader && !s.pumps[id].alive && |s.unregQ| < UNREGISTER_CAPACITY
    case Write(id) => id < |s.pumps| && s.pumps[id].writer && s.hub.chans[id].buf != []
    case WriterClose(id) => id < |s.pumps| && s.pumps[id].writer && s.hub.chans[id].buf == [] && s.hub.chans[id].closed
    case PingFail(id) => id < |s.pumps| && s.pumps[id].writer && !s.pumps[id].alive
  }

  /** The hub's select takes one message off a channel; a panic in any goroutine ends the process. */
  function Apply(s: Sys, e: Event): (r: Sys)
    requires Wf(s) && Enabled(s, e)
    ensures Wf(r) && |s.pumps| <= |r.pumps|
  {
    match e
    case Accept(user, doc) =>
      s.(hub := s.hub.(chans := s.hub.chans + [Chan(user, doc, [], false)]),
         pumps := s.pumps + [Pump(true, true, true, [], None, false, false)],
         regQ := s.regQ + [|s.pumps|])
    case Offer(msg) => s.(bcastQ := s.bcastQ + [msg])
    case Disconnect(id) => s.(pumps := s.pumps[id := s.pumps[id].(alive := false)])
    case TakeRegister => (
      var id := s.regQ[0];
      match Register(s.hub, id)
      case Panic => s.(crashed := true)
      case Running(h) =>
        s.(hub := h, regQ := s.regQ[1..], pumps := s.pumps[id := s.pumps[id].(since := Some(|s.log|))]))
    case TakeUnregister => (
      var id := s.unregQ[0];
      match Unregister(s.hub, id)
      case Panic => s.(crashed := true)
      case Running(h) =>
        s.(hub := h, unregQ := s.unregQ[1..],
           pumps := s.pumps[id := s.pumps[id].(unregistered := true, left := s.pumps[id].since.Some?)]))
    case TakeBroadcast => (
      match Broadcast(s.hub, s.bcastQ[0])
      case Panic => s.(crashed := true)
      case Running(h) => s.(hub := h, bcastQ := s.bcastQ[1..], log := s.log + [s.bcastQ[0]]))
    case ReaderExit(id) =>
      s.(unregQ := s.unregQ + [id], pumps := s.pumps[id := s.pumps[id].(reader := false, alive := false)])
    case Write(id) =>
      var c := s.hub.chans[id];
      s.(hub := s.hub.(chans := s.hub.chans[id := c.(buf := c.buf[1..])]),
         pumps := s.pumps[id := s.pumps[id].(drained := s.pumps[id].drained + [c.buf[0]])])
    case WriterClose(id) => s.(pumps := s.pumps[id := s.pumps[id].(writer := false, alive := false)])
    case PingFail(id) => s.(pumps := s.pumps[id := s.pumps[id].(writer := false, alive := false)])
  }

  function Step(s: Sys, e: Event): (r: Sys)
    requires Wf(s)
    ensures Wf(r) && |s.pumps| <= |r.pumps|
  {
    if Enabled(s, e) then Apply(s, e) else s
  }

  /** The state after a trace of events. */
  function Run(es: seq<Event>): (s: Sys)
    ensures Wf(s)
  {
    if es == [] then INIT else Step(Run(es[..|es| - 1]), es[|es| - 1])
  }

  /** What a client was ever sent: the payloads WritePump took and those still buffered. */
  function Enqueued(s: Sys, id: nat): seq<Bytes>
    requires Wf(s) && id < |s.pumps|
  {
    s.pumps[id].drained + s.hub.chans[id].buf
  }

  /** Every client is in exactly one phase: waiting in the Register channel (once), or registered.
      Its Unregister is sent once, by the exit of its ReadPump. */
  ghost predicate Phases(s: Sys)
    requires Wf(s)
  {
    && (forall i, j | 0 <= i < j < |s.regQ| :: s.regQ[i] != s.regQ[j])
    && (forall id | 0 <= id < |s.pumps| :: s.pumps[id].since == None <==> id in s.regQ)
    && (forall id | 0 <= id < |s.pumps| && InMap(s.hub, id) :: s.pumps[id].since.Some?)
    && (forall id | 0 <= id < |s.pumps| && s.pumps[id].left :: !InMap(s.hub, id) && s.pumps[id].since.Some?)
    && (forall id | 0 <= id < |s.pumps| && !s.pumps[id].reader :: s.pumps[id].unregistered || id in s.unregQ)
  }

  lemma PhasesStep(s: Sys, e: Event)
    requires Wf(s) && Phases(s)
    ensures Phases(Step(s, e))
  {
    if Enabled(s, e) {
      match e
      case TakeRegister => PhasesRegister(s);
      case TakeUnregister => PhasesUnregister(s);
      case TakeBroadcast => PhasesBroadcast(s);
      case Accept(_, _) => PhasesAccept(s, e);
      case ReaderExit(_) => PhasesReaderExit(s, e);
      case _ => PhasesWriter(s, e);
    }
  }

  lemma PhasesAccept(s: Sys, e: Event)
    requires Wf(s) && Phases(s) && Enabled(s, e) && e.Accept?
    ensures Phases(Apply(s, e))
  {
  }

  lemma PhasesReaderExit(s: Sys, e: Event)
    requires Wf(s) && Phases(s) && Enabled(s, e) && e.ReaderExit?
    ensures Phases(Apply(s, e))
  {
  }

  /** The events that neither touch the map nor the Register and Unregister channels. */
  lemma PhasesWriter(s: Sys, e: Event)
    requires Wf(s) && Phases(s) && Enabled(s, e)
    requires e.Offer? || e.Disconnect? || e.Write? || e.WriterClose? || e.PingFail?
    ensures Phases(Apply(s, e))
  {
  }

  lemma PhasesBroadcast(s: Sys)
    requires Wf(s) && Phases(s) && Enabled(s, TakeBroadcast)
    ensures Phases(Apply(s, TakeBroadcast))
  {
  }

  lemma PhasesRegister(s: Sys)
    requires Wf(s) && Phases(s) && Enabled(s, TakeRegister)
    ensures Phases(Apply(s, TakeRegister))
  {
    var id, t := s.regQ[0], Apply(s, TakeRegister);
    assert s.regQ == [id] + s.regQ[1..];
    if !t.crashed {
      assert t.regQ == s.regQ[1..] && id !in t.regQ;
      assert forall i | 0 <= i < |s.pumps| && i != id ::
               t.pumps[i] == s.pumps[i] && (InMap(t.hub, i) ==> InMap(s.hub, i));
    }
  }

  lemma PhasesUnregister(s: Sys)
    requires Wf(s) && Phases(s) && Enabled(s, TakeUnregister)
    ensures Phases(Apply(s, TakeUnregister))
  {
    assert s.unregQ == [s.unregQ[0]] + s.unregQ[1..];
  }

  lemma {:induction false} PhasesAlways(es: seq<Event>)
    ensures Phases(Run(es))
  {
    if es != [] {
      PhasesAlways(es[..|es| - 1]);
      PhasesStep(Run(es[..|es| - 1]), es[|es| - 1]);
    }
  }

  lemma RunPrefix(es: seq<Event>, n: nat)
    requires n < |es|
    ensures Run(es[..n + 1]) == Step(Run(es[..n]), es[n])
  {
    assert es[..n + 1][..n] == es[..n];
  }

  lemma {:induction false} RunMore(es: seq<Event>, e: Event)
    ensures Run(es + [e]) == Step(Run(es), e)
  {
  }

  lemma {:induction false} RunTwoMore(es: seq<Event>, a: Event, b: Event)
    ensures Run(es + [a] + [b]) == Step(Step(Run(es), a), b)
  {
    RunMore(es, a);
    RunMore(es + [a], b);
  }

  lemma {:induction false} RunThreeMore(es: seq<Event>, a: Event, b: Event, c: Event)
    ensures Run(es + [a] + [b] + [c]) == Step(Step(Step(Run(es), a), b), c)
  {
    RunTwoMore(es, a, b);
    RunMore(es + [a] + [b], c);
  }

  /** A step adds at most one connection and never changes whose an old one is. */
  lemma ConnectionsStep(s: Sys, e: Event)
    requires Wf(s)
    ensures var old', new' := s.hub.chans, Step(s, e).hub.chans;
            && |old'| <= |new'| <= |old'| + (if e.Accept? then 1 else 0)
            && (forall i | 0 <= i < |old'| :: new'[i].user == old'[i].user && new'[i].doc == old'[i].doc)
            && (|new'| > |old'| ==> new'[|old'|].user == e.user)
  {
  }
}
