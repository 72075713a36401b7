/** Gap-free delivery: a slow consumer is cut off, but what a client got never has holes. */
module Delivery {
  import opened Basics
  import opened HubSpec
  import opened System

  /** The payloads of `log` that belong to a document and come from another user, in order. */
  function Routed(log: seq<Message>, user: string, doc: string): (r: seq<Bytes>) {
    if log == [] then []
    else
      var msg := log[|log| - 1];
      Routed(log[..|log| - 1], user, doc) + if msg.sender != user && msg.doc == doc then [msg.payload] else []
  }

  /** What the hub owed a client since it took the client's Register. */
  function Owed(s: Sys, id: nat): seq<Bytes>
    requires Wf(s) && id < |s.pumps| && s.pumps[id].since.Some? && s.pumps[id].since.value <= |s.log|
  {
    Routed(s.log[s.pumps[id].since.value..], s.hub.chans[id].user, s.hub.chans[id].doc)
  }

  /** Exactly what is owed while in the map, a prefix of it ever after, and nothing before registration. */
  ghost predicate Faithful(s: Sys, id: nat)
    requires Wf(s) && id < |s.pumps|
  {
    && |s.hub.chans[id].buf| <= SEND_CAPACITY
    && match s.pumps[id].since
       case None => Enqueued(s, id) == [] && !InMap(s.hub, id)
       case Some(n) =>
         n <= |s.log| && Enqueued(s, id) <= Owed(s, id) && (InMap(s.hub, id) ==> Enqueued(s, id) == Owed(s, id))
  }

  ghost predicate GapFree(s: Sys)
    requires Wf(s)
  {
    forall id | 0 <= id < |s.pumps| :: Faithful(s, id)
  }

  /** Each message is routed by itself, once, to another user of its document, and in the order of the log. */
  lemma {:induction false} RoutedOne(msg: Message, user: string, doc: string)
    ensures Routed([msg], user, doc) == if msg.sender != user && msg.doc == doc then [msg.payload] else []
  {
    assert [msg][..0] == [];
  }

  lemma {:induction false} RoutedConcat(a: seq<Message>, b: seq<Message>, user: string, doc: string)
    ensures Routed(a + b, user, doc) == Routed(a, user, doc) + Routed(b, user, doc)
  {
    if b == [] {
      assert a + b == a;
    } else {
      RoutedConcat(a, b[..|b| - 1], user, doc);
      assert (a + b)[..|a + b| - 1] == a + b[..|b| - 1];
    }
  }

  lemma {:induction false} RoutedAppend(log: seq<Message>, msg: Message, n: nat, user: string, doc: string)
    requires n <= |log|
    ensures Routed((log + [msg])[n..], user, doc)
         == Routed(log[n..], user, doc) + if msg.sender != user && msg.doc == doc then [msg.payload] else []
  {
    assert (log + [msg])[n..] == log[n..] + [msg];
  }

  /** The effect of one processed broadcast on one client. */
  lemma FaithfulBroadcast(s: Sys, id: nat)
    requires Wf(s) && id < |s.pumps| && Faithful(s, id) && Enabled(s, TakeBroadcast)
    ensures Faithful(Apply(s, TakeBroadcast), id)
  {
    var t, msg, c := Apply(s, TakeBroadcast), s.bcastQ[0], s.hub.chans[id];
    if !t.crashed && s.pumps[id].since.Some? {
      RoutedAppend(s.log, msg, s.pumps[id].since.value, c.user, c.doc);
      if InMap(s.hub, id) && Recipient(s.hub, msg, c.user) && !Full(c) {
        assert Enqueued(t, id) == Enqueued(s, id) + [msg.payload];
      }
    }
  }

  /** A broadcast drops a client from the map if and only if it is addressed to the client and 256 payloads are still
      unwritten; the client's channel is then closed with those payloads in it. */
  lemma EvictedExactlyWhenFull(s: Sys, id: nat)
    requires Wf(s) && id < |s.pumps| && Faithful(s, id) && Enabled(s, TakeBroadcast) && InMap(s.hub, id)
    requires !Apply(s, TakeBroadcast).crashed
    ensures var t, c, msg := Apply(s, TakeBroadcast), s.hub.chans[id], s.bcastQ[0];
            && (!InMap(t.hub, id) <==> msg.doc == c.doc && msg.sender != c.user && |c.buf| == 256)
            && (!InMap(t.hub, id) ==> t.hub.chans[id] == c.(closed := true))
  {
  }

  lemma FaithfulRegister(s: Sys, id: nat)
    requires Wf(s) && Phases(s) && id < |s.pumps| && Faithful(s, id) && Enabled(s, TakeRegister)
    ensures Faithful(Apply(s, TakeRegister), id)
  {
    if id == s.regQ[0] { assert id in s.regQ; }
  }

  lemma FaithfulWrite(s: Sys, i: nat, id: nat)
    requires Wf(s) && id < |s.pumps| && Faithful(s, id) && Enabled(s, Write(i))
    ensures Faithful(Apply(s, Write(i)), id)
  {
  }

  lemma FaithfulUnregister(s: Sys, id: nat)
    requires Wf(s) && id < |s.pumps| && Faithful(s, id) && Enabled(s, TakeUnregister)
    ensures Faithful(Apply(s, TakeUnregister), id)
  {
  }

  /** The events that touch no channel but Broadcast, and none of the history of deliveries. */
  lemma FaithfulOther(s: Sys, e: Event, id: nat)
    requires Wf(s) && id < |s.pumps| && Faithful(s, id) && Enabled(s, e)
    requires e.Accept? || e.Offer? || e.Disconnect? || e.ReaderExit? || e.WriterClose? || e.PingFail?
    ensures Faithful(Apply(s, e), id)
  {
  }

  lemma FaithfulStep(s: Sys, e: Event, id: nat)
    requires Wf(s) && Phases(s) && id < |s.pumps| && Faithful(s, id) && Enabled(s, e)
    ensures Faithful(Apply(s, e), id)
  {
    match e
    case TakeRegister => FaithfulRegister(s, id);
    case TakeUnregister => FaithfulUnregister(s, id);
    case TakeBroadcast => FaithfulBroadcast(s, id);
    case Write(i) => FaithfulWrite(s, i, id);
    case _ => FaithfulOther(s, e, id);
  }

  /** A new connection owes nothing and is owed nothing. */
  lemma FaithfulNewcomer(s: Sys, e: Event)
    requires Wf(s) && Enabled(s, e) && e.Accept?
    ensures Faithful(Apply(s, e), |s.pumps|)
  {
  }

  lemma GapFreeStep(s: Sys, e: Event)
    requires Wf(s) && Phases(s) && GapFree(s)
    ensures GapFree(Step(s, e))
  {
    if Enabled(s, e) {
      ConnectionsStep(s, e);
      forall id | 0 <= id < |Step(s, e).pumps| ensures Faithful(Step(s, e), id) {
        if id < |s.pumps| { FaithfulStep(s, e, id); } else { FaithfulNewcomer(s, e); }
      }
    }
  }

  /** In every run of the server as it is written. */
  lemma {:induction false} DeliveryIsGapFree(es: seq<Event>)
    ensures GapFree(Run(es))
  {
    if es != [] {
      DeliveryIsGapFree(es[..|es| - 1]);
      PhasesAlways(es[..|es| - 1]);
      GapFreeStep(Run(es[..|es| - 1]), es[|es| - 1]);
    }
  }

  lemma FrameWrite(s: Sys, i: nat, id: nat)
    requires Wf(s) && id < |s.pumps| && Enabled(s, Write(i))
    ensures Enqueued(Apply(s, Write(i)), id) == Enqueued(s, id)
  {
    var c := s.hub.chans[i];
    assert c.buf == [c.buf[0]] + c.buf[1..];
  }

  ghost predicate Outside(s: Sys, id: nat)
    requires Wf(s) && id < |s.pumps|
  {
    s.pumps[id].since.Some? && !InMap(s.hub, id)
  }

  lemma OutsideHub(s: Sys, e: Event, id: nat)
    requires Wf(s) && Phases(s) && id < |s.pumps| && Outside(s, id) && Enabled(s, e)
    requires e.TakeRegister? || e.TakeUnregister? || e.TakeBroadcast?
    ensures Outside(Apply(s, e), id) && Enqueued(Apply(s, e), id) == Enqueued(s, id)
  {
    if e.TakeRegister? { assert s.regQ[0] in s.regQ; }
  }

  lemma OutsideOther(s: Sys, e: Event, id: nat)
    requires Wf(s) && id < |s.pumps| && Outside(s, id) && Enabled(s, e)
    requires !e.TakeRegister? && !e.TakeUnregister? && !e.TakeBroadcast?
    ensures Outside(Apply(s, e), id) && Enqueued(Apply(s, e), id) == Enqueued(s, id)
  {
    if e.Write? { FrameWrite(s, e.id, id); }
  }

  /** A client outside the map gets nothing more, and a registered one does not come back into it. */
  lemma OutsideStep(s: Sys, e: Event, id: nat)
    requires Wf(s) && Phases(s) && id < |s.pumps| && Outside(s, id)
    ensures Outside(Step(s, e), id) && Enqueued(Step(s, e), id) == Enqueued(s, id)
  {
    if Enabled(s, e) {
      if e.TakeRegister? || e.TakeUnregister? || e.TakeBroadcast? {
        OutsideHub(s, e, id);
      } else {
        OutsideOther(s, e, id);
      }
    }
  }

  /** The step in which a client leaves the map brings it nothing. */
  lemma LeavingStep(s: Sys, e: Event, id: nat)
    requires Wf(s) && Phases(s) && id < |s.pumps| && InMap(s.hub, id) && !InMap(Step(s, e).hub, id)
    ensures var t := Step(s, e); Outside(t, id) && Enqueued(t, id) == Enqueued(s, id)
  {
  }

  /** What a client ever gets, if it leaves the map in the j-th step of a run, is exactly what it was owed just before:
      the broadcasts processed between its registration and its removal. */
  lemma {:induction false} LeaverGotExactly(es: seq<Event>, j: nat, id: nat)
    requires j < |es| && InMap(Run(es[..j]).hub, id) && !InMap(Run(es[..j + 1]).hub, id)
    ensures var before := Run(es[..j]);
            && id < |before.pumps| && before.pumps[id].since.Some? && before.pumps[id].since.value <= |before.log|
            && id < |Run(es).pumps| && Outside(Run(es), id)
            && Enqueued(Run(es), id) == Owed(before, id)
  {
    var before, e := Run(es[..j]), es[|es| - 1];
    PhasesAlways(es[..|es| - 1]);
    if j == |es| - 1 {
      assert es[..j + 1] == es;
      DeliveryIsGapFree(es[..j]);
      assert Faithful(before, id);
      LeavingStep(before, e, id);
    } else {
      assert es[..|es| - 1][..j] == es[..j] && es[..|es| - 1][..j + 1] == es[..j + 1];
      LeaverGotExactly(es[..|es| - 1], j, id);
      OutsideStep(Run(es[..|es| - 1]), e, id);
    }
  }
}
