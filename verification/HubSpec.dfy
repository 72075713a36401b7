/** The hub's three select branches as functions from one hub state to the next.
    A connection is named by its index in `chans`, so two connections of one user stay distinct. */
module HubSpec {
  import opened Basics

  const SEND_CAPACITY: nat := 256
  const REGISTER_CAPACITY: nat := 64
  const UNREGISTER_CAPACITY: nat := 64
  const BROADCAST_CAPACITY: nat := 512

  /** One diff to route. `tag` names the handled update it carries; no step of the hub reads it. */
  datatype Message = Message(sender: string, doc: string, payload: Bytes, tag: nat)

  /** A client and its Send channel: the buffered payloads, and whether close() was called. */
  datatype Chan = Chan(user: string, doc: string, buf: seq<Bytes>, closed: bool)

  datatype HubState = HubState(chans: seq<Chan>, clients: map<string, nat>)

  /** Closing a closed channel, or sending on one, is a Go panic. It kills the whole process. */
  datatype Outcome = Running(h: HubState) | Panic

  /** Every map entry is an existing client filed under its own UserID. */
  ghost predicate WellKeyed(h: HubState) {
    forall u | u in h.clients :: h.clients[u] < |h.chans| && h.chans[h.clients[u]].user == u
  }

  predicate InMap(h: HubState, id: nat) {
    id < |h.chans| && h.chans[id].user in h.clients && h.clients[h.chans[id].user] == id
  }

  function Close(h: HubState, id: nat): Outcome
    requires id < |h.chans|
  {
    if h.chans[id].closed then Panic
    else Running(h.(chans := h.chans[id := h.chans[id].(closed := true)]))
  }

  /** A new connection displaces the one its user already had. */
  function Register(h: HubState, id: nat): Outcome
    requires WellKeyed(h) && id < |h.chans|
  {
    var u := h.chans[id].user;
    var evicted := if u in h.clients then Close(h, h.clients[u]) else Running(h);
    match evicted
    case Panic => Panic
    case Running(h1) => Running(h1.(clients := h1.clients[u := id]))
  }

  /** Looks the user up, not the connection: whichever client is filed there is dropped,
      and the channel of the connection that asked is closed. */
  function Unregister(h: HubState, id: nat): Outcome
    requires id < |h.chans|
  {
    var u := h.chans[id].user;
    if u in h.clients then Close(h.(clients := h.clients - {u}), id) else Running(h)
  }

  /** The map entries the broadcast loop does not skip. */
  predicate Recipient(h: HubState, msg: Message, u: string)
    requires WellKeyed(h)
  {
    u in h.clients && u != msg.sender && h.chans[h.clients[u]].doc == msg.doc
  }

  predicate Full(c: Chan) { |c.buf| >= SEND_CAPACITY }

  /** A non-blocking send; a client whose buffer is full is closed instead. */
  function Deliver(c: Chan, payload: Bytes): Chan {
    if Full(c) then c.(closed := true) else c.(buf := c.buf + [payload])
  }

  function Broadcast(h: HubState, msg: Message): Outcome
    requires WellKeyed(h)
  {
    if exists u | u in h.clients :: Recipient(h, msg, u) && h.chans[h.clients[u]].closed then Panic
    else Running(Fanout(h, msg, h.clients.Keys))
  }

  /** The effect of the broadcast loop once it has visited the users in `visited`. */
  function Fanout(h: HubState, msg: Message, visited: set<string>): HubState
    requires WellKeyed(h)
  {
    HubState(
      seq(|h.chans|, i requires 0 <= i < |h.chans| =>
        if InMap(h, i) && h.chans[i].user in visited && Recipient(h, msg, h.chans[i].user)
        then Deliver(h.chans[i], msg.payload)
        else h.chans[i]),
      map u | u in h.clients && !(u in visited && Recipient(h, msg, u) && Full(h.chans[h.clients[u]])) :: h.clients[u])
  }

  /** The body of the broadcast loop for the map entry of `u`: skip, send, or evict the slow consumer. */
  function Visit(h: HubState, msg: Message, u: string): Outcome
    requires WellKeyed(h) && u in h.clients
  {
    var id := h.clients[u];
    if !Recipient(h, msg, u) then Running(h)
    else if h.chans[id].closed then Panic
    else Running(HubState(h.chans[id := Deliver(h.chans[id], msg.payload)],
                          if Full(h.chans[id]) then h.clients - {u} else h.clients))
  }

  /** No visited recipient had a closed channel. */
  ghost predicate Clear(h: HubState, msg: Message, visited: set<string>)
    requires WellKeyed(h)
  {
    forall u | u in visited && u in h.clients :: !(Recipient(h, msg, u) && h.chans[h.clients[u]].closed)
  }

  /** The loop may visit the map in any order: a visit after `visited` is one more step of the fan-out. */
  lemma FanoutStep(h: HubState, msg: Message, visited: set<string>, u: string)
    requires WellKeyed(h) && u in h.clients && u !in visited && Clear(h, msg, visited)
    ensures WellKeyed(Fanout(h, msg, visited)) && u in Fanout(h, msg, visited).clients
    ensures Visit(Fanout(h, msg, visited), msg, u)
         == if Clear(h, msg, visited + {u}) then Running(Fanout(h, msg, visited + {u})) else Panic
  {
    var f, g, id := Fanout(h, msg, visited), Fanout(h, msg, visited + {u}), h.clients[u];
    assert f.chans[id] == h.chans[id];
    var chans := if Recipient(h, msg, u) then f.chans[id := Deliver(h.chans[id], msg.payload)] else f.chans;
    forall i | 0 <= i < |h.chans| ensures g.chans[i] == chans[i] {
      if i != id { assert !(InMap(h, i) && h.chans[i].user == u); }
    }
    assert g.chans == chans;
    assert g.clients == if Recipient(h, msg, u) && Full(h.chans[id]) then f.clients - {u} else f.clients;
  }

  lemma FanoutStarts(h: HubState, msg: Message)
    requires WellKeyed(h)
    ensures Fanout(h, msg, {}) == h
  {
  }

  /** Having met a closed channel, the broadcast panics; having visited the whole map, it is done. */
  lemma FanoutEnds(h: HubState, msg: Message, visited: set<string>)
    requires WellKeyed(h)
    ensures !Clear(h, msg, visited) ==> Broadcast(h, msg).Panic?
    ensures Clear(h, msg, visited) && visited == h.clients.Keys ==>
        Broadcast(h, msg) == Running(Fanout(h, msg, visited))
  {
  }
}
