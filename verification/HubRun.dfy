/** The hub as it is written: one goroutine mutating a map of clients, their Send buffers and its three channels.
    Each Serve method is one case of the select in Run, proved equal to the function of HubSpec for that case. */
module HubRun {
  import opened Basics
  import opened HubSpec

  class Client {
    const UserID: string
    const DocID: string
    ghost const id: nat
    var Send: seq<Bytes>
    var closed: bool

    constructor (userID: string, docID: string, ghost id: nat)
      ensures UserID == userID && DocID == docID && this.id == id && Send == [] && !closed
    {
      UserID, DocID, this.id := userID, docID, id;
      Send, closed := [], false;
    }

    ghost function View(): Chan
      reads this
    {
      Chan(UserID, DocID, Send, closed)
    }
  }

  class Hub {
    var clients: map<string, Client>
    var Register: seq<Client>
    var Unregister: seq<Client>
    var Broadcast: seq<Message>
    // All clients ever made, and the value of HubSpec this object stands for.
    ghost var accepted: seq<Client>
    ghost var state: HubState

    ghost predicate Known(c: Client)
      reads `accepted
    {
      c.id < |accepted| && accepted[c.id] == c
    }

    /** The map and the Send channels are what `state` says, and only clients made by Accept are queued. */
    ghost predicate Valid()
      reads `clients, `Register, `Unregister, `accepted, `state, accepted
    {
      && |state.chans| == |accepted|
      && (forall i | 0 <= i < |accepted| :: accepted[i].id == i && state.chans[i] == accepted[i].View())
      && (forall u :: u in clients <==> u in state.clients)
      && (forall u | u in clients :: Known(clients[u]) && clients[u].id == state.clients[u])
      && (forall i | 0 <= i < |Register| :: Known(Register[i]))
      && (forall i | 0 <= i < |Unregister| :: Known(Unregister[i]))
      && WellKeyed(state)
    }

    constructor ()
      ensures Valid() && state == HubState([], map[])
      ensures Register == [] && Unregister == [] && Broadcast == [] && accepted == []
    {
      clients, Register, Unregister, Broadcast := map[], [], [], [];
      accepted, state := [], HubState([], map[]);
    }

    /** NewClient */
    method NewClient(userID: string, docID: string) returns (c: Client)
      requires Valid()
      modifies this`accepted, this`state
      ensures Valid() && fresh(c) && accepted == old(accepted) + [c] && c.id == |old(accepted)|
      ensures state == old(state).(chans := old(state).chans + [Chan(userID, docID, [], false)])
    {
      c := new Client(userID, docID, |accepted|);
      accepted := accepted + [c];
      state := state.(chans := state.chans + [Chan(userID, docID, [], false)]);
    }

    /** WSHandler: NewClient and the send on Register; while the channel is full it waits and has sent nothing. */
    method Accept(userID: string, docID: string) returns (c: Client, sent: bool)
      requires Valid()
      modifies this`Register, this`accepted, this`state
      ensures Valid() && fresh(c) && accepted == old(accepted) + [c] && c.id == |old(accepted)|
      ensures sent == (|old(Register)| < 64)
      ensures Register == if sent then old(Register) + [c] else old(Register)
      ensures state == old(state).(chans := old(state).chans + [Chan(userID, docID, [], false)])
    {
      c := NewClient(userID, docID);
      sent := |Register| < REGISTER_CAPACITY;
      if sent { Register := Register + [c]; }
    }

    /** h.clients[c.UserID] = c */
    method Put(c: Client)
      requires Valid() && Known(c)
      modifies this`clients, this`state
      ensures Valid() && state == old(state).(clients := old(state).clients[c.UserID := c.id])
    {
      clients := clients[c.UserID := c];
      state := state.(clients := state.clients[c.UserID := c.id]);
    }

    /** delete(h.clients, u) */
    method Delete(u: string)
      requires Valid()
      modifies this`clients, this`state
      ensures Valid() && state == old(state).(clients := old(state).clients - {u})
    {
      clients := clients - {u};
      state := state.(clients := state.clients - {u});
    }

    /** close(c.Send) */
    method CloseSend(c: Client) returns (panicked: bool)
      requires Valid() && Known(c)
      modifies c`closed, this`state
      ensures Valid() && panicked == old(c.closed) && c.closed
      ensures state == old(state).(chans := old(state).chans[c.id := old(state).chans[c.id].(closed := true)])
    {
      panicked := c.closed;
      c.closed := true;
      state := state.(chans := state.chans[c.id := state.chans[c.id].(closed := true)]);
    }

    /** c.Send <- payload, with room in the buffer */
    method Enqueue(c: Client, payload: Bytes)
      requires Valid() && Known(c)
      modifies c`Send, this`state
      ensures Valid()
      ensures var chan := old(state).chans[c.id].(buf := old(c.Send) + [payload]);
              state == old(state).(chans := old(state).chans[c.id := chan])
    {
      c.Send := c.Send + [payload];
      state := state.(chans := state.chans[c.id := state.chans[c.id].(buf := c.Send)]);
    }

    /** case client := <-h.Register */
    method ServeRegister() returns (panicked: bool)
      requires Valid() && Register != []
      modifies this`clients, this`Register, this`state, accepted
      ensures Valid() && Register == old(Register)[1..]
      ensures var next := HubSpec.Register(old(state), old(Register[0]).id);
              panicked == next.Panic? && (!panicked ==> state == next.h)
    {
      var c := Register[0];
      Register := Register[1..];
      panicked := false;
      if c.UserID in clients {
        panicked := CloseSend(clients[c.UserID]);
        if panicked { return; }
      }
      Put(c);
    }

    /** case client := <-h.Unregister */
    method ServeUnregister() returns (panicked: bool)
      requires Valid() && Unregister != []
      modifies this`clients, this`Unregister, this`state, accepted
      ensures Valid() && Unregister == old(Unregister)[1..]
      ensures var next := HubSpec.Unregister(old(state), old(Unregister[0]).id);
              panicked == next.Panic? && (!panicked ==> state == next.h)
    {
      var c := Unregister[0];
      Unregister := Unregister[1..];
      panicked := false;
      if c.UserID in clients {
        Delete(c.UserID);
        panicked := CloseSend(c);
      }
    }

    /** case msg := <-h.Broadcast */
    method ServeBroadcast() returns (panicked: bool)
      requires Valid() && Broadcast != []
      modifies this`clients, this`Broadcast, this`state, accepted
      ensures Valid() && Broadcast == old(Broadcast)[1..]
      ensures var next := HubSpec.Broadcast(old(state), old(Broadcast[0]));
              panicked == next.Panic? && (!panicked ==> state == next.h)
    {
      var msg := Broadcast[0];
      Broadcast := Broadcast[1..];
      panicked := RangeClients(msg);
    }

    /** The loop over h.clients, which visits the entries in whatever order it likes and deletes as it goes. */
    method RangeClients(msg: Message) returns (panicked: bool)
      requires Valid()
      modifies this`clients, this`state, accepted
      ensures Valid()
      ensures var next := HubSpec.Broadcast(old(state), msg);
              panicked == next.Panic? && (!panicked ==> state == next.h)
    {
      ghost var h := state;
      ghost var visited: set<string> := {};
      var todo := clients.Keys;
      panicked := false;
      FanoutStarts(h, msg);
      while todo != {} && !panicked
        invariant Valid() && todo + visited == h.clients.Keys && todo !! visited
        invariant panicked == !Clear(h, msg, visited)
        invariant !panicked ==> state == Fanout(h, msg, visited)
        decreases todo
      {
        var u :| u in todo;
        panicked := VisitClient(u, msg, h, visited);
        todo, visited := todo - {u}, visited + {u};
      }
      FanoutEnds(h, msg, visited);
    }

    /** One iteration of the loop over a map that was `h` when the loop began. */
    method VisitClient(u: string, msg: Message, ghost h: HubState, ghost visited: set<string>) returns (panicked: bool)
      requires Valid() && WellKeyed(h) && u in h.clients && u !in visited && Clear(h, msg, visited)
      requires state == Fanout(h, msg, visited)
      modifies this`clients, this`state, accepted
      ensures Valid() && panicked == !Clear(h, msg, visited + {u})
      ensures !panicked ==> state == Fanout(h, msg, visited + {u})
    {
      FanoutStep(h, msg, visited, u);
      var c := clients[u];
      if u == msg.sender || c.DocID != msg.doc { return false; }
      if c.closed { return true; }
      panicked := false;
      if |c.Send| < SEND_CAPACITY {
        Enqueue(c, msg.payload);
      } else {
        var _ := CloseSend(c);
        Delete(u);
      }
    }

    /** A ReadPump's deferred send on Unregister; while the channel is full it waits and has sent nothing. */
    method Leave(c: Client) returns (sent: bool)
      requires Valid() && Known(c)
      modifies this`Unregister
      ensures Valid() && sent == (|old(Unregister)| < 64)
      ensures Unregister == if sent then old(Unregister) + [c] else old(Unregister)
    {
      sent := |Unregister| < UNREGISTER_CAPACITY;
      if sent { Unregister := Unregister + [c]; }
    }

    /** Any producer's select with default: a full channel drops the message. */
    method Offer(msg: Message) returns (taken: bool)
      modifies this`Broadcast
      ensures taken == (|old(Broadcast)| < 512)
      ensures Broadcast == if taken then old(Broadcast) + [msg] else old(Broadcast)
    {
      taken := |Broadcast| < BROADCAST_CAPACITY;
      if taken { Broadcast := Broadcast + [msg]; }
    }
  }
}
