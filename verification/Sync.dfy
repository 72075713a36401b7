/** The producers of the hub's Broadcast channel: HandleUpdate for local frames, and the subscriber for the bus. */
module Sync {
  import opened Basics
  import opened HubSpec
  import opened HubRun
  import opened Analytics
  import opened TrackerRun

  /** What non-blocking sends of `msgs` leave in a channel that nobody drains meanwhile: the first ones that fit. */
  function Feed(queue: seq<Message>, msgs: seq<Message>): seq<Message> {
    var room := if |queue| < BROADCAST_CAPACITY then BROADCAST_CAPACITY - |queue| else 0;
    queue + if |msgs| <= room then msgs else msgs[..room]
  }

  /** A single non-blocking send. */
  function Offered(queue: seq<Message>, msg: Message): seq<Message> {
    if |queue| < BROADCAST_CAPACITY then queue + [msg] else queue
  }

  lemma FeedMore(queue: seq<Message>, msgs: seq<Message>, msg: Message)
    ensures Feed(queue, msgs + [msg]) == Offered(Feed(queue, msgs), msg)
  {
    var room := if |queue| < BROADCAST_CAPACITY then BROADCAST_CAPACITY - |queue| else 0;
    if |msgs| >= room { assert (msgs + [msg])[..room] == msgs[..room]; }
  }

  /** An update whose insert into the log was started as a goroutine. */
  datatype Spawned = Spawned(doc: string, user: string, payload: Bytes)

  /** What HandleUpdate changes, by value: the hub's Broadcast channel, the counters, and how many inserts were
      started. */
  datatype Progress = Progress(queue: seq<Message>, contents: map<Key, Act>, started: nat)

  /** The effect of one update. */
  function Handle(p: Progress, userID: string, docID: string, payload: Bytes): Progress {
    Progress(Offered(p.queue, Message(userID, docID, payload, p.started)),
             Credit(p.contents, Key(docID, userID), Act(1, |payload|, 0)), p.started + 1)
  }

  class Handler {
    const hub: Hub
    const tracker: Tracker
    var spawned: seq<Spawned>

    constructor (hub: Hub, tracker: Tracker)
      ensures this.hub == hub && this.tracker == tracker && spawned == []
    {
      this.hub, this.tracker, spawned := hub, tracker, [];
    }

    ghost function View(): Progress
      reads this, hub, tracker
    {
      Progress(hub.Broadcast, tracker.contents, |spawned|)
    }

    /** Persist, broadcast if there is room, and count, in this order and whatever happens to the broadcast. */
    method HandleUpdate(userID: string, docID: string, payload: Bytes)
      requires tracker.Valid()
      modifies this, hub`Broadcast, tracker, tracker.objects
      ensures tracker.Valid() && fresh(tracker.objects - old(tracker.objects))
      ensures spawned == old(spawned) + [Spawned(docID, userID, payload)]
      ensures View() == Handle(old(View()), userID, docID, payload)
    {
      var msg := Message(userID, docID, payload, |spawned|);
      spawned := spawned + [Spawned(docID, userID, payload)];
      var taken := hub.Offer(msg);
      tracker.Record(userID, docID, |payload|);
    }
  }

  /** The messages of the bus that unmarshal. */
  function Decoded(incoming: seq<Option<Message>>): seq<Message> {
    if incoming == [] then []
    else
      var last := incoming[|incoming| - 1];
      Decoded(incoming[..|incoming| - 1]) + if last.Some? then [last.value] else []
  }

  /** Each message that unmarshals is there as often as the bus delivered it ... */
  lemma {:induction false} DecodedOnce(incoming: seq<Option<Message>>, msg: Message)
    ensures multiset(Decoded(incoming))[msg] == multiset(incoming)[Some(msg)]
  {
    if incoming != [] {
      DecodedOnce(incoming[..|incoming| - 1], msg);
      assert incoming == incoming[..|incoming| - 1] + [incoming[|incoming| - 1]];
    }
  }

  /** ... and in the order in which it did. */
  lemma {:induction false} DecodedInOrder(a: seq<Option<Message>>, b: seq<Option<Message>>)
    ensures Decoded(a + b) == Decoded(a) + Decoded(b)
  {
    if b == [] {
      assert a + b == a;
    } else {
      DecodedInOrder(a, b[..|b| - 1]);
      assert (a + b)[..|a + b| - 1] == a + b[..|b| - 1];
    }
  }

  /** The Subscribe loop over what the bus delivers: bad messages are skipped, the rest offered to the hub in order. It
      publishes nothing. */
  method Subscribe(hub: Hub, incoming: seq<Option<Message>>)
    modifies hub`Broadcast
    ensures hub.Broadcast == Feed(old(hub.Broadcast), Decoded(incoming))
  {
    for i := 0 to |incoming|
      invariant hub.Broadcast == Feed(old(hub.Broadcast), Decoded(incoming[..i]))
    {
      assert incoming[..i + 1][..i] == incoming[..i];
      if incoming[i].Some? {
        FeedMore(old(hub.Broadcast), Decoded(incoming[..i]), incoming[i].value);
        var taken := hub.Offer(incoming[i].value);
      }
    }
    assert incoming[..|incoming|] == incoming;
  }
}
