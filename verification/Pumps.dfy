/** The two goroutines of a connection as they are written, run against a script of what happens to the socket. */
module Pumps {
  import opened Basics
  import opened HubSpec
  import opened HubRun
  import opened Analytics
  import opened TrackerRun
  import opened Sync

  datatype Frame = Binary(payload: Bytes) | Text(payload: Bytes) | Ping | CloseFrame

  class Conn {
    var written: seq<Frame>
    var closed: bool

    constructor ()
      ensures written == [] && !closed
    {
      written, closed := [], false;
    }
  }

  /** The binary payloads among frames, in order. */
  function Binaries(frames: seq<Frame>): seq<Bytes> {
    if frames == [] then []
    else Binaries(frames[..|frames| - 1]) + if frames[|frames| - 1].Binary? then [frames[|frames| - 1].payload] else []
  }

  lemma {:induction false} BinariesOnce(frames: seq<Frame>, p: Bytes)
    ensures multiset(Binaries(frames))[p] == multiset(frames)[Binary(p)]
  {
    if frames != [] {
      BinariesOnce(frames[..|frames| - 1], p);
      assert frames == frames[..|frames| - 1] + [frames[|frames| - 1]];
    }
  }

  lemma {:induction false} BinariesInOrder(a: seq<Frame>, b: seq<Frame>)
    ensures Binaries(a + b) == Binaries(a) + Binaries(b)
  {
    if b == [] {
      assert a + b == a;
    } else {
      BinariesInOrder(a, b[..|b| - 1]);
      assert (a + b)[..|a + b| - 1] == a + b[..|b| - 1];
    }
  }

  lemma {:induction false} BinariesMore(frames: seq<Frame>, f: Frame)
    ensures Binaries(frames + [f]) == Binaries(frames) + if f.Binary? then [f.payload] else []
  {
  }

  /** What wakes WritePump's select: its Send channel, or the ping ticker with the fate of the ping. */
  datatype Wake = Receive | Tick(delivered: bool)

  /** What happens to a running WritePump: it wakes up, or the hub meanwhile sends on its channel or closes it. */
  datatype Turn = Woken(wake: Wake) | HubSends(payload: Bytes) | HubCloses

  function Receives(turns: seq<Turn>): nat { multiset(turns)[Woken(Receive)] }

  /** What the hub sent, in order. */
  function Arrivals(turns: seq<Turn>): seq<Bytes> {
    if turns == [] then []
    else Arrivals(turns[..|turns| - 1]) + if turns[|turns| - 1].HubSends? then [turns[|turns| - 1].payload] else []
  }

  lemma {:induction false} ArrivalsOnce(turns: seq<Turn>, p: Bytes)
    ensures multiset(Arrivals(turns))[p] == multiset(turns)[HubSends(p)]
  {
    if turns != [] {
      ArrivalsOnce(turns[..|turns| - 1], p);
      assert turns == turns[..|turns| - 1] + [turns[|turns| - 1]];
    }
  }

  lemma {:induction false} ArrivalsInOrder(a: seq<Turn>, b: seq<Turn>)
    ensures Arrivals(a + b) == Arrivals(a) + Arrivals(b)
  {
    if b == [] {
      assert a + b == a;
    } else {
      ArrivalsInOrder(a, b[..|b| - 1]);
      assert (a + b)[..|a + b| - 1] == a + b[..|b| - 1];
    }
  }

  /** The channel, whether it is closed, and what was written. */
  datatype PumpState = PumpState(send: seq<Bytes>, closed: bool, written: seq<Frame>)

  ghost function StateOf(client: Client, conn: Conn): PumpState
    reads client, conn
  {
    PumpState(client.Send, client.closed, conn.written)
  }

  /** One turn of the select: what is written is exactly the payload taken, a ping for a tick that gets through, and a
      close frame on finding the channel closed and drained; the last, and a tick that does not, end the pump. */
  method Wakeup(client: Client, conn: Conn, w: Wake) returns (exited: bool)
    modifies client`Send, conn
    ensures w.Receive? && old(client.Send) != [] ==>
              conn.written == old(conn.written) + [Binary(old(client.Send)[0])] && client.Send == old(client.Send)[1..]
    ensures w.Receive? && old(client.Send) == [] ==>
              conn.written == old(conn.written) + if client.closed then [CloseFrame] else []
    ensures w.Tick? ==> conn.written == old(conn.written) + if w.delivered then [Ping] else []
    ensures w.Tick? || old(client.Send) == [] ==> client.Send == old(client.Send)
    ensures exited == (w == Tick(false) || (w.Receive? && old(client.Send) == [] && client.closed))
    ensures conn.closed == (exited || old(conn.closed))
  {
    match w
    case Receive =>
      if client.Send != [] {
        conn.written, client.Send := conn.written + [Binary(client.Send[0])], client.Send[1..];
        return false;
      }
      exited := client.closed;
      if exited { conn.written, conn.closed := conn.written + [CloseFrame], true; }
    case Tick(delivered) =>
      exited := !delivered;
      if exited { conn.closed := true; } else { conn.written := conn.written + [Ping]; }
  }

  function Pings(turns: seq<Turn>): nat { multiset(turns)[Woken(Tick(true))] }

  lemma TurnsMore(turns: seq<Turn>, n: nat)
    requires n < |turns|
    ensures Arrivals(turns[..n + 1]) == Arrivals(turns[..n]) + if turns[n].HubSends? then [turns[n].payload] else []
    ensures Receives(turns[..n + 1]) == Receives(turns[..n]) + if turns[n] == Woken(Receive) then 1 else 0
    ensures Pings(turns[..n + 1]) == Pings(turns[..n]) + if turns[n] == Woken(Tick(true)) then 1 else 0
    ensures forall t :: t in turns[..n + 1] <==> t in turns[..n] || t == turns[n]
  {
    assert turns[..n + 1][..n] == turns[..n] && turns[..n + 1] == turns[..n] + [turns[n]];
  }

  /** The frames a turn writes. */
  function FramesOf(a: PumpState, turn: Turn): seq<Frame> {
    if turn == Woken(Tick(true)) then [Ping]
    else if turn != Woken(Receive) then []
    else if a.send != [] then [Binary(a.send[0])]
    else if a.closed then [CloseFrame]
    else []
  }

  function Exits(a: PumpState, turn: Turn): bool {
    turn == Woken(Tick(false)) || (turn == Woken(Receive) && a.send == [] && a.closed)
  }

  function Next(a: PumpState, turn: Turn): PumpState {
    PumpState(
      match turn {
        case HubSends(payload) => a.send + [payload]
        case Woken(Receive) => if a.send != [] then a.send[1..] else []
        case _ => a.send
      },
      a.closed || turn.HubCloses?,
      a.written + FramesOf(a, turn))
  }

  /** One turn of the pump or of the hub. */
  method Take(client: Client, conn: Conn, turn: Turn) returns (exited: bool)
    modifies client`Send, client`closed, conn
    ensures StateOf(client, conn) == Next(old(StateOf(client, conn)), turn)
    ensures exited == Exits(old(StateOf(client, conn)), turn)
    ensures conn.closed == (exited || old(conn.closed))
  {
    exited := false;
    match turn {
      case Woken(wake) => exited := Wakeup(client, conn, wake);
      case HubSends(payload) => client.Send := client.Send + [payload];
      case HubCloses => client.closed := true;
    }
  }

  /** A turn neither loses a payload nor changes the order. */
  lemma NextKeeps(a: PumpState, turn: Turn)
    ensures var b := Next(a, turn);
            Binaries(b.written) + b.send == Binaries(a.written) + a.send + if turn.HubSends? then [turn.payload] else []
  {
    if turn == Woken(Receive) && a.send != [] {
      BinariesMore(a.written, Binary(a.send[0]));
      assert a.send == [a.send[0]] + a.send[1..];
    } else if FramesOf(a, turn) != [] {
      BinariesMore(a.written, FramesOf(a, turn)[0]);
    } else {
      assert a.written + [] == a.written;
    }
  }

  /** How a pump ends that no failed ping ended: with an empty closed channel, and a close frame last. */
  predicate Clean(a: PumpState) {
    a.closed && a.send == [] && a.written != [] && a.written[|a.written| - 1] == CloseFrame
  }

  lemma NextPings(a: PumpState, turn: Turn)
    ensures multiset(Next(a, turn).written)[Ping]
         == multiset(a.written)[Ping] + if turn == Woken(Tick(true)) then 1 else 0
  {
  }

  /** These turns take the pump from a to b. Of a channel closed all along, each wake-up by it took a payload. */
  ghost predicate Pumped(a: PumpState, turns: seq<Turn>, b: PumpState) {
    && Binaries(b.written) + b.send == Binaries(a.written) + a.send + Arrivals(turns)
    && b.closed == (a.closed || HubCloses in turns)
    && multiset(b.written)[Ping] == multiset(a.written)[Ping] + Pings(turns)
  }

  ghost predicate Drained(a: PumpState, turns: seq<Turn>, b: PumpState) {
    && (a.closed ==> |b.send| + Receives(turns) == |a.send| + |Arrivals(turns)|)
    && (Arrivals(turns) == [] ==> |b.send| == Remaining(|a.send|, Receives(turns)))
  }

  lemma PumpedMore(a: PumpState, turns: seq<Turn>, n: nat, b: PumpState)
    requires n < |turns| && Pumped(a, turns[..n], b)
    ensures Pumped(a, turns[..n + 1], Next(b, turns[n]))
  {
    TurnsMore(turns, n);
    NextKeeps(b, turns[n]);
    NextPings(b, turns[n]);
  }

  lemma DrainedMore(a: PumpState, turns: seq<Turn>, n: nat, b: PumpState)
    requires n < |turns| && Pumped(a, turns[..n], b) && Drained(a, turns[..n], b) && !Exits(b, turns[n])
    ensures Drained(a, turns[..n + 1], Next(b, turns[n]))
  {
    TurnsMore(turns, n);
  }

  lemma OneTurn(a: PumpState, turns: seq<Turn>, n: nat, b: PumpState)
    requires n < |turns| && Pumped(a, turns[..n], b) && Drained(a, turns[..n], b)
    ensures var c := Next(b, turns[n]);
            && Pumped(a, turns[..n + 1], c) && (!Exits(b, turns[n]) ==> Drained(a, turns[..n + 1], c))
            && (Exits(b, turns[n]) && Woken(Tick(false)) !in turns[..n + 1] ==> Clean(c))
  {
    PumpedMore(a, turns, n, b);
    if !Exits(b, turns[n]) { DrainedMore(a, turns, n, b); }
    assert turns[n] in turns[..n + 1];
  }

  lemma {:induction false} AllTurns(a: PumpState, turns: seq<Turn>, b: PumpState)
    requires Drained(a, turns[..|turns|], b)
    ensures a.closed ==> Receives(turns) <= |a.send| + |Arrivals(turns)|
    ensures Arrivals(turns) == [] ==> |b.send| == Remaining(|a.send|, Receives(turns))
  {
    assert turns[..|turns|] == turns;
  }

  /** Payloads leave in the order in which the hub sent them and none is lost on the way from the channel to the
      socket, whatever the hub sends meanwhile; unless a ping fails, the pump exits only after the channel was closed
      and drained, and its last frame is a close frame. Each tick that gets through writes one ping. `n` turns were
      taken. */
  method WritePump(client: Client, conn: Conn, turns: seq<Turn>) returns (exited: bool, n: nat)
    modifies client`Send, client`closed, conn
    ensures n <= |turns| && (exited || n == |turns|)
    ensures Binaries(conn.written) + client.Send
         == Binaries(old(conn.written)) + old(client.Send) + Arrivals(turns[..n])
    ensures client.closed == (old(client.closed) || HubCloses in turns[..n])
    ensures multiset(conn.written)[Ping] == multiset(old(conn.written))[Ping] + Pings(turns[..n])
    ensures conn.closed == (exited || old(conn.closed))
    ensures old(client.closed) && Receives(turns) > |old(client.Send)| + |Arrivals(turns)| ==> exited
    ensures !exited && Arrivals(turns) == [] ==> |client.Send| == Remaining(|old(client.Send)|, Receives(turns))
    ensures exited && Woken(Tick(false)) !in turns[..n] ==>
              client.closed && client.Send == [] && conn.written != [] && conn.written[|conn.written| - 1] == CloseFrame
  {
    exited := false;
    n := 0;
    ghost var start := StateOf(client, conn);
    while n < |turns| && !exited
      invariant n <= |turns| && conn.closed == (exited || old(conn.closed))
      invariant Pumped(start, turns[..n], StateOf(client, conn))
      invariant !exited ==> Drained(start, turns[..n], StateOf(client, conn))
      invariant exited && Woken(Tick(false)) !in turns[..n] ==> Clean(StateOf(client, conn))
    {
      OneTurn(start, turns, n, StateOf(client, conn));
      exited := Take(client, conn, turns[n]);
      n := n + 1;
    }
    if !exited { AllTurns(start, turns, StateOf(client, conn)); }
  }

  function Remaining(buffered: nat, receives: nat): nat { if receives < buffered then buffered - receives else 0 }

  /** A result of ReadMessage: a frame, or any of its errors. */
  datatype Read = Got(frame: Frame) | Failed

  /** The payloads of the binary frames among results, in order. */
  function Diffs(results: seq<Read>): seq<Bytes> {
    if results == [] then []
    else
      var last := results[|results| - 1];
      Diffs(results[..|results| - 1]) + if last.Got? && last.frame.Binary? then [last.frame.payload] else []
  }

  lemma {:induction false} DiffsOnce(results: seq<Read>, p: Bytes)
    ensures multiset(Diffs(results))[p] == multiset(results)[Got(Binary(p))]
  {
    if results != [] {
      DiffsOnce(results[..|results| - 1], p);
      assert results == results[..|results| - 1] + [results[|results| - 1]];
    }
  }

  lemma {:induction false} DiffsInOrder(a: seq<Read>, b: seq<Read>)
    ensures Diffs(a + b) == Diffs(a) + Diffs(b)
  {
    if b == [] {
      assert a + b == a;
    } else {
      DiffsInOrder(a, b[..|b| - 1]);
      assert (a + b)[..|a + b| - 1] == a + b[..|b| - 1];
    }
  }

  lemma DiffsNext(results: seq<Read>, i: nat)
    requires i < |results| && results[i].Got?
    ensures Diffs(results[..i + 1])
         == if results[i].frame.Binary? then Diffs(results[..i]) + [results[i].frame.payload] else Diffs(results[..i])
  {
    assert results[..i + 1][..i] == results[..i];
  }

  /** The messages HandleUpdate makes of a connection's diffs, and the calls of Record. */
  function Messages(client: Client, diffs: seq<Bytes>, tag: nat): seq<Message> {
    seq(|diffs|, i requires 0 <= i < |diffs| => Message(client.UserID, client.DocID, diffs[i], tag + i))
  }

  function Edits(client: Client, diffs: seq<Bytes>): seq<Call> {
    seq(|diffs|, i requires 0 <= i < |diffs| => Edit(client.UserID, client.DocID, |diffs[i]|))
  }

  /** The effect of a connection's diffs, one after the other. */
  function HandleAll(p: Progress, client: Client, diffs: seq<Bytes>): Progress {
    if diffs == [] then p
    else Handle(HandleAll(p, client, diffs[..|diffs| - 1]), client.UserID, client.DocID, diffs[|diffs| - 1])
  }

  lemma {:induction false} HandleMore(p: Progress, client: Client, diffs: seq<Bytes>, payload: Bytes)
    ensures HandleAll(p, client, diffs + [payload])
        == Handle(HandleAll(p, client, diffs), client.UserID, client.DocID, payload)
  {
    assert (diffs + [payload])[..|diffs|] == diffs;
  }

  lemma MessagesMore(client: Client, diffs: seq<Bytes>, payload: Bytes, tag: nat)
    ensures Messages(client, diffs + [payload], tag)
         == Messages(client, diffs, tag) + [Message(client.UserID, client.DocID, payload, tag + |diffs|)]
  {
  }

  lemma {:induction false} EditsMore(b: map<Key, Act>, client: Client, diffs: seq<Bytes>, payload: Bytes)
    ensures Credits(b, Edits(client, diffs + [payload]))
         == Credit(Credits(b, Edits(client, diffs)), Key(client.DocID, client.UserID), Act(1, |payload|, 0))
  {
    var calls, call := Edits(client, diffs), Edit(client.UserID, client.DocID, |payload|);
    assert Edits(client, diffs + [payload]) == calls + [call];
    assert (calls + [call])[..|calls|] == calls;
  }

  /** Together: the messages that fit are queued in order, every diff is counted, and every insert is started. */
  function Together(p: Progress, client: Client, diffs: seq<Bytes>): Progress {
    Progress(Feed(p.queue, Messages(client, diffs, p.started)),
             Credits(p.contents, Edits(client, diffs)),
             p.started + |diffs|)
  }

  lemma TogetherMore(p: Progress, client: Client, diffs: seq<Bytes>, payload: Bytes)
    ensures Together(p, client, diffs + [payload])
        == Handle(Together(p, client, diffs), client.UserID, client.DocID, payload)
  {
    MessagesMore(client, diffs, payload, p.started);
    EditsMore(p.contents, client, diffs, payload);
    FeedMore(p.queue, Messages(client, diffs, p.started),
             Message(client.UserID, client.DocID, payload, p.started + |diffs|));
  }

  lemma {:induction false} HandledTogether(p: Progress, client: Client, diffs: seq<Bytes>)
    ensures HandleAll(p, client, diffs) == Together(p, client, diffs)
  {
    if diffs == [] {
      assert Messages(client, diffs, p.started) == [] && Edits(client, diffs) == [];
    } else {
      HandledTogether(p, client, diffs[..|diffs| - 1]);
      TogetherMore(p, client, diffs[..|diffs| - 1], diffs[|diffs| - 1]);
      assert diffs == diffs[..|diffs| - 1] + [diffs[|diffs| - 1]];
    }
  }

  /** The body of the loop: binary frames are handed on, others skipped. */
  method Dispatch(client: Client, handler: Handler, frame: Frame)
    requires handler.tracker.Valid()
    modifies handler, handler.hub`Broadcast, handler.tracker, handler.tracker.objects
    ensures handler.tracker.Valid() && fresh(handler.tracker.objects - old(handler.tracker.objects))
    ensures handler.View() == if frame.Binary?
                              then Handle(old(handler.View()), client.UserID, client.DocID, frame.payload)
                              else old(handler.View())
  {
    if frame.Binary? { handler.HandleUpdate(client.UserID, client.DocID, frame.payload); }
  }

  /** How many frames arrive before the first error. */
  function Arrived(results: seq<Read>): (n: nat)
    ensures n <= |results| && (forall j | 0 <= j < n :: results[j].Got?) && (n < |results| ==> results[n].Failed?)
  {
    if results == [] || results[0].Failed? then 0 else 1 + Arrived(results[1..])
  }

  /** The read loop: every binary frame before the first error is handled once and in order, other frames are
      ignored. */
  method ReadFrames(client: Client, handler: Handler, results: seq<Read>)
    requires handler.tracker.Valid()
    modifies handler, handler.hub`Broadcast, handler.tracker, handler.tracker.objects
    ensures handler.tracker.Valid()
    ensures handler.View() == HandleAll(old(handler.View()), client, Diffs(results[..Arrived(results)]))
  {
    ghost var start, end := handler.View(), Arrived(results);
    var i := 0;
    while i < |results| && results[i].Got?
      invariant i <= end && handler.tracker.Valid() && fresh(handler.tracker.objects - old(handler.tracker.objects))
      invariant handler.View() == HandleAll(start, client, Diffs(results[..i]))
    {
      DiffsNext(results, i);
      if results[i].frame.Binary? { HandleMore(start, client, Diffs(results[..i]), results[i].frame.payload); }
      Dispatch(client, handler, results[i].frame);
      i := i + 1;
    }
  }

  /** The deferred cleanup: the send on Unregister, and then the close. */
  method Goodbye(client: Client, conn: Conn, hub: Hub) returns (exited: bool)
    requires hub.Valid() && hub.Known(client)
    modifies conn`closed, hub`Unregister
    ensures hub.Valid() && exited == (|old(hub.Unregister)| < UNREGISTER_CAPACITY)
    ensures hub.Unregister == old(hub.Unregister) + (if exited then [client] else [])
    ensures conn.closed == (exited || old(conn.closed))
  {
    exited := hub.Leave(client);
    if exited { conn.closed := true; }
  }

  /** However the socket fails, all those frames have been handled, and one Unregister is sent and the connection closed
      after it; while the channel is full the pump waits with both. */
  method ReadPump(client: Client, conn: Conn, handler: Handler, results: seq<Read>) returns (exited: bool)
    requires handler.tracker.Valid() && handler.hub.Valid() && handler.hub.Known(client)
    modifies conn`closed, handler, handler.hub`Broadcast, handler.hub`Unregister, handler.tracker,
             handler.tracker.objects
    ensures handler.tracker.Valid() && handler.hub.Valid()
    ensures exited == (|old(handler.hub.Unregister)| < UNREGISTER_CAPACITY)
    ensures handler.hub.Unregister == old(handler.hub.Unregister) + if exited then [client] else []
    ensures conn.closed == (exited || old(conn.closed))
    ensures handler.View() == HandleAll(old(handler.View()), client, Diffs(results[..Arrived(results)]))
  {
    ReadFrames(client, handler, results);
    exited := Goodbye(client, conn, handler.hub);
  }
}
