/** Several server processes joined by the pub/sub bus. A handled update is offered to its own hub and, if it is
    published, to every subscriber's hub, the publisher's own included; a subscriber never publishes again. The
    announcement of a task is offered to its own hub only. */
module Cluster {
  import opened Basics
  import opened HubSpec
  import opened System
  import opened Delivery

  /** A message some process made: of a diff that a ReadPump handed to HandleUpdate, by which connection, or of a task
      that AssignTask announces; and whether it was published. */
  datatype Handled =
    | Diff(node: nat, conn: nat, msg: Message, published: bool)
    | Task(node: nat, msg: Message, published: bool)

  /** `bus[n]` holds what was published and not yet read by the subscriber of process n, in no particular order.
      `handled` and `drops` are history; `drops` counts, for each hub n and message t, the copies of t meant for n that
      were discarded. */
  datatype Cluster = Cluster(nodes: seq<Sys>, bus: seq<seq<Message>>, handled: seq<Handled>,
                             drops: multiset<(nat, nat)>)

  datatype Move =
    | Local(node: nat, e: Event)
    | Update(node: nat, conn: nat, payload: Bytes, published: bool)
    | Announce(node: nat, user: string, doc: string, payload: Bytes) // AssignTask: the JSON of a task
    | Relay(node: nat, k: nat) // the subscriber takes one message off the bus
    | Lose(node: nat, k: nat)  // the bus loses one

  ghost predicate CWf(c: Cluster) {
    |c.bus| == |c.nodes| && forall n | 0 <= n < |c.nodes| :: Wf(c.nodes[n])
  }

  predicate CEnabled(c: Cluster, m: Move)
    requires CWf(c)
  {
    m.node < |c.nodes| &&
    match m
    case Local(n, e) => !e.Offer?
    // A ReadPump may still be handed frames that were buffered before its socket was closed.
    case Update(n, i, _, _) => !c.nodes[n].crashed && i < |c.nodes[n].pumps| && c.nodes[n].pumps[i].reader
    case Announce(n, _, _, _) => !c.nodes[n].crashed
    case Relay(n, k) => !c.nodes[n].crashed && k < |c.bus[n]|
    case Lose(n, k) => k < |c.bus[n]|
  }

  /** The drop made by a non-blocking send of update t to hub n. */
  function Overflow(c: Cluster, n: nat, t: nat): multiset<(nat, nat)>
    requires n < |c.nodes|
  {
    if |c.nodes[n].bcastQ| < BROADCAST_CAPACITY then multiset{} else multiset{(n, t)}
  }

  /** The copies of message t that the other hubs do not get if it is not published. */
  function Others(size: nat, n: nat, t: nat): set<(nat, nat)> { set j | 0 <= j < size && j != n :: (j, t) }

  /** A producer on process h.node: offer the message to the local hub, then publish it, or do not, or fail to. */
  function Send(c: Cluster, h: Handled): (r: Cluster)
    requires CWf(c) && h.node < |c.nodes|
    ensures CWf(r)
  {
    var n, t := h.node, h.msg.tag;
    Cluster(c.nodes[n := Step(c.nodes[n], Offer(h.msg))],
            if h.published then seq(|c.bus|, j requires 0 <= j < |c.bus| => c.bus[j] + [h.msg]) else c.bus,
            c.handled + [h],
            c.drops + Overflow(c, n, t) + if h.published then multiset{} else multiset(Others(|c.nodes|, n, t)))
  }

  /** The message HandleUpdate makes of a connection's diff. */
  function Diffed(c: Cluster, n: nat, i: nat, payload: Bytes, published: bool): Handled
    requires CWf(c) && n < |c.nodes| && i < |c.nodes[n].pumps|
  {
    Diff(n, i, Message(c.nodes[n].hub.chans[i].user, c.nodes[n].hub.chans[i].doc, payload, |c.handled|), published)
  }

  /** The message AssignTask makes. */
  function Announced(c: Cluster, n: nat, user: string, doc: string, payload: Bytes): Handled {
    Task(n, Message(user, doc, payload, |c.handled|), false)
  }

  /** One turn of the Subscribe loop of process n. */
  function DoRelay(c: Cluster, n: nat, k: nat): (r: Cluster)
    requires CWf(c) && n < |c.nodes| && k < |c.bus[n]|
    ensures CWf(r)
  {
    var msg := c.bus[n][k];
    c.(nodes := c.nodes[n := Step(c.nodes[n], Offer(msg))], bus := c.bus[n := Without(c.bus[n], k)],
       drops := c.drops + Overflow(c, n, msg.tag))
  }

  function DoLose(c: Cluster, n: nat, k: nat): (r: Cluster)
    requires CWf(c) && n < |c.nodes| && k < |c.bus[n]|
    ensures CWf(r)
  {
    c.(bus := c.bus[n := Without(c.bus[n], k)], drops := c.drops + multiset{(n, c.bus[n][k].tag)})
  }

  function CApply(c: Cluster, m: Move): (r: Cluster)
    requires CWf(c) && CEnabled(c, m)
    ensures CWf(r)
  {
    match m
    case Local(n, e) => c.(nodes := c.nodes[n := Step(c.nodes[n], e)])
    case Update(n, i, payload, published) => Send(c, Diffed(c, n, i, payload, published))
    case Announce(n, user, doc, payload) => Send(c, Announced(c, n, user, doc, payload))
    case Relay(n, k) => DoRelay(c, n, k)
    case Lose(n, k) => DoLose(c, n, k)
  }

  function CRun(size: nat, ms: seq<Move>): (c: Cluster)
    ensures CWf(c)
  {
    if ms == [] then Cluster(seq(size, _ => INIT), seq(size, _ => []), [], multiset{})
    else
      var c := CRun(size, ms[..|ms| - 1]);
      if CEnabled(c, ms[|ms| - 1]) then CApply(c, ms[|ms| - 1]) else c
  }

  /** How often one process has processed a message or will. */
  ghost function Held(s: Sys, msg: Message): nat { multiset(s.log)[msg] + multiset(s.bcastQ)[msg] }

  /** The copies of a message that hub n has processed, will process, or may still be given by its subscriber. */
  ghost function Copies(c: Cluster, n: nat, msg: Message): nat
    requires CWf(c) && n < |c.nodes|
  {
    Held(c.nodes[n], msg) + multiset(c.bus[n])[msg]
  }

  ghost predicate Genuine(c: Cluster, msg: Message) {
    msg.tag < |c.handled| && c.handled[msg.tag].msg == msg
  }

  ghost predicate HandledWell(c: Cluster, t: nat)
    requires CWf(c) && t < |c.handled|
  {
    var h := c.handled[t];
    && h.msg.tag == t && h.node < |c.nodes|
    && (h.Diff? ==>
          && h.conn < |c.nodes[h.node].hub.chans|
          && h.msg.sender == c.nodes[h.node].hub.chans[h.conn].user
          && h.msg.doc == c.nodes[h.node].hub.chans[h.conn].doc)
  }

  /** How many copies of a message are meant for hub n: one by way of the bus, which another process's message misses if
      it is not published, and one more if the message is the hub's own. */
  function Meant(h: Handled, n: nat): nat { if h.node != n then 1 else if h.published then 2 else 1 }

  /** Everything meant for hub n was made by some process, and of the copies of each message meant for the hub, each is
      processed, waiting, on the bus, or counted as discarded. */
  ghost predicate Accounted(c: Cluster, n: nat)
    requires CWf(c) && n < |c.nodes|
  {
    && (forall msg | Copies(c, n, msg) > 0 :: Genuine(c, msg))
    && (forall t: nat | |c.handled| <= t :: c.drops[(n, t)] == 0)
    && (forall t | 0 <= t < |c.handled| :: InAccount(c, n, t))
  }

  ghost predicate InAccount(c: Cluster, n: nat, t: nat)
    requires CWf(c) && n < |c.nodes| && t < |c.handled|
  {
    Copies(c, n, c.handled[t].msg) + c.drops[(n, t)] == Meant(c.handled[t], n)
  }

  ghost predicate Tracked(c: Cluster)
    requires CWf(c)
  {
    && (forall n | 0 <= n < |c.nodes| :: Phases(c.nodes[n]) && GapFree(c.nodes[n]) && Accounted(c, n))
    && (forall t | 0 <= t < |c.handled| :: HandledWell(c, t))
  }

  /** A step of one process never makes, loses or alters a message, except that an accepted offer adds one. */
  lemma StepHeld(s: Sys, e: Event, msg: Message)
    requires Wf(s)
    ensures Held(Step(s, e), msg) == Held(s, msg) + if e.Offer? && Enabled(s, e) && e.msg == msg then 1 else 0
  {
    if Enabled(s, e) && e.TakeBroadcast? { assert s.bcastQ == [s.bcastQ[0]] + s.bcastQ[1..]; }
  }

  function Room(c: Cluster, n: nat): nat
    requires n < |c.nodes|
  {
    if |c.nodes[n].bcastQ| < BROADCAST_CAPACITY then 1 else 0
  }

  lemma CopiesSend(c: Cluster, h: Handled, j: nat, x: Message)
    requires CWf(c) && h.node < |c.nodes| && !c.nodes[h.node].crashed && j < |c.nodes|
    ensures Copies(Send(c, h), j, x) == Copies(c, j, x) +
              if x != h.msg then 0 else (if h.published then 1 else 0) + (if j == h.node then Room(c, j) else 0)
  {
    var d := Send(c, h);
    StepHeld(c.nodes[h.node], Offer(h.msg), x);
    assert d.bus[j] == c.bus[j] + if h.published then [h.msg] else [];
  }

  lemma DropsSend(c: Cluster, h: Handled, j: nat, t: nat)
    requires CWf(c) && h.node < |c.nodes| && j < |c.nodes|
    ensures Send(c, h).drops[(j, t)] == c.drops[(j, t)] +
              if t != h.msg.tag then 0 else if j == h.node then 1 - Room(c, j) else if h.published then 0 else 1
  {
    assert (j, t) in Others(|c.nodes|, h.node, h.msg.tag) <==> t == h.msg.tag && j != h.node;
  }

  lemma CopiesRelay(c: Cluster, n: nat, k: nat, j: nat, x: Message)
    requires CWf(c) && n < |c.nodes| && k < |c.bus[n]| && !c.nodes[n].crashed && j < |c.nodes|
    ensures Copies(DoRelay(c, n, k), j, x) == Copies(c, j, x) - if j == n && x == c.bus[n][k] then 1 - Room(c, n) else 0
  {
    StepHeld(c.nodes[n], Offer(c.bus[n][k]), x);
    WithoutCount(c.bus[n], k, x);
  }

  lemma CopiesLose(c: Cluster, n: nat, k: nat, j: nat, x: Message)
    requires CWf(c) && n < |c.nodes| && k < |c.bus[n]| && j < |c.nodes|
    ensures Copies(DoLose(c, n, k), j, x) == Copies(c, j, x) - if j == n && x == c.bus[n][k] then 1 else 0
  {
    WithoutCount(c.bus[n], k, x);
  }

  lemma AccountedSend(c: Cluster, h: Handled, j: nat)
    requires CWf(c) && h.node < |c.nodes| && h.msg.tag == |c.handled| && !c.nodes[h.node].crashed && j < |c.nodes|
    requires Accounted(c, j) && forall t | 0 <= t < |c.handled| :: HandledWell(c, t)
    ensures Accounted(Send(c, h), j)
  {
    var d := Send(c, h);
    forall msg | Copies(d, j, msg) > 0 ensures Genuine(d, msg) {
      CopiesSend(c, h, j, msg);
      assert msg != h.msg ==> Genuine(c, msg);
    }
    forall t: nat | |d.handled| <= t ensures d.drops[(j, t)] == 0 { DropsSend(c, h, j, t); }
    forall t | 0 <= t < |d.handled| ensures InAccount(d, j, t) {
      CopiesSend(c, h, j, d.handled[t].msg);
      DropsSend(c, h, j, t);
      if t < |c.handled| { assert InAccount(c, j, t) && HandledWell(c, t); }
      else { assert !Genuine(c, h.msg); }
    }
  }

  lemma AccountedRelay(c: Cluster, n: nat, k: nat, j: nat)
    requires CWf(c) && n < |c.nodes| && k < |c.bus[n]| && !c.nodes[n].crashed && j < |c.nodes|
    requires Accounted(c, n) && Accounted(c, j) && forall t | 0 <= t < |c.handled| :: HandledWell(c, t)
    ensures Accounted(DoRelay(c, n, k), j)
  {
    var d := DoRelay(c, n, k);
    OnBus(c, n, k);
    forall msg | Copies(d, j, msg) > 0 ensures Genuine(d, msg) { CopiesRelay(c, n, k, j, msg); }
    forall t | 0 <= t < |d.handled| ensures InAccount(d, j, t) {
      CopiesRelay(c, n, k, j, d.handled[t].msg);
      assert InAccount(c, j, t) && HandledWell(c, t);
    }
  }

  /** What is on the bus is known by its tag. */
  lemma OnBus(c: Cluster, n: nat, k: nat)
    requires CWf(c) && n < |c.nodes| && k < |c.bus[n]| && Accounted(c, n)
    ensures Genuine(c, c.bus[n][k])
  {
    assert c.bus[n][k] in multiset(c.bus[n]);
    assert Copies(c, n, c.bus[n][k]) > 0;
  }

  lemma AccountedLose(c: Cluster, n: nat, k: nat, j: nat)
    requires CWf(c) && n < |c.nodes| && k < |c.bus[n]| && j < |c.nodes|
    requires Accounted(c, n) && Accounted(c, j) && forall t | 0 <= t < |c.handled| :: HandledWell(c, t)
    ensures Accounted(DoLose(c, n, k), j)
  {
    var d := DoLose(c, n, k);
    OnBus(c, n, k);
    forall msg | Copies(d, j, msg) > 0 ensures Genuine(d, msg) { CopiesLose(c, n, k, j, msg); }
    forall t | 0 <= t < |d.handled| ensures InAccount(d, j, t) {
      CopiesLose(c, n, k, j, d.handled[t].msg);
      assert InAccount(c, j, t) && HandledWell(c, t);
    }
  }

  lemma AccountedLocal(c: Cluster, n: nat, e: Event, j: nat)
    requires CWf(c) && CEnabled(c, Local(n, e)) && j < |c.nodes| && Accounted(c, j)
    ensures Accounted(CApply(c, Local(n, e)), j)
  {
    var d := CApply(c, Local(n, e));
    forall msg ensures Copies(d, j, msg) == Copies(c, j, msg) { StepHeld(c.nodes[n], e, msg); }
    forall t | 0 <= t < |d.handled| ensures InAccount(d, j, t) { assert InAccount(c, j, t); }
  }

  /** What a move does to one process: nothing, or one step of it. */
  lemma NodeMove(c: Cluster, m: Move, j: nat) returns (e: Event)
    requires CWf(c) && CEnabled(c, m) && j < |c.nodes|
    ensures CApply(c, m).nodes[j] in {c.nodes[j], Step(c.nodes[j], e)}
  {
    match m
    case Local(_, e0) => e := e0;
    case Update(_, _, _, _) => e := Offer(CApply(c, m).handled[|c.handled|].msg);
    case Announce(_, _, _, _) => e := Offer(CApply(c, m).handled[|c.handled|].msg);
    case Relay(n, k) => e := Offer(c.bus[n][k]);
    case Lose(_, _) => e := TakeRegister;
  }

  lemma TrackedMove(c: Cluster, m: Move)
    requires CWf(c) && Tracked(c) && CEnabled(c, m)
    ensures Tracked(CApply(c, m))
  {
    var d := CApply(c, m);
    forall j | 0 <= j < |d.nodes| ensures Phases(d.nodes[j]) && GapFree(d.nodes[j]) {
      var e := NodeMove(c, m, j);
      PhasesStep(c.nodes[j], e);
      GapFreeStep(c.nodes[j], e);
    }
    forall j | 0 <= j < |d.nodes| ensures Accounted(d, j) {
      match m
      case Local(n, e) => AccountedLocal(c, n, e, j);
      case Update(n, i, payload, published) => AccountedSend(c, Diffed(c, n, i, payload, published), j);
      case Announce(n, user, doc, payload) => AccountedSend(c, Announced(c, n, user, doc, payload), j);
      case Relay(n, k) => AccountedRelay(c, n, k, j);
      case Lose(n, k) => AccountedLose(c, n, k, j);
    }
    forall t | 0 <= t < |d.handled| ensures HandledWell(d, t) { HandledMove(c, m, t); }
  }

  lemma HandledMove(c: Cluster, m: Move, t: nat)
    requires CWf(c) && CEnabled(c, m) && t < |CApply(c, m).handled|
    requires forall t | 0 <= t < |c.handled| :: HandledWell(c, t)
    ensures HandledWell(CApply(c, m), t)
  {
    var d := CApply(c, m);
    var h := d.handled[t];
    assert t < |c.handled| ==> HandledWell(c, t);
    var e := NodeMove(c, m, h.node);
    ConnectionsStep(c.nodes[h.node], e);
  }

  lemma {:induction false} AlwaysTracked(size: nat, ms: seq<Move>)
    ensures Tracked(CRun(size, ms)) && |CRun(size, ms).nodes| == size
  {
    if ms != [] {
      var before := ms[..|ms| - 1];
      AlwaysTracked(size, before);
      if CEnabled(CRun(size, before), ms[|ms| - 1]) { TrackedMove(CRun(size, before), ms[|ms| - 1]); }
    }
  }

  /** The messages made in a run are those its moves asked for, in order, each with the sender, document and payload of
      its producer. */
  lemma {:induction false} MadeAsAsked(size: nat, ms: seq<Move>)
    ensures CRun(size, ms).handled == Asked(size, ms)
  {
    if ms != [] { MadeAsAsked(size, ms[..|ms| - 1]); }
  }

  /** What the producers asked for, read off the moves that were possible when they came. */
  function Asked(size: nat, ms: seq<Move>): seq<Handled> {
    if ms == [] then []
    else
      var before, c, m := Asked(size, ms[..|ms| - 1]), CRun(size, ms[..|ms| - 1]), ms[|ms| - 1];
      match m
      case Update(n, i, payload, published) =>
        if n < |c.nodes| && i < |c.nodes[n].pumps| && c.nodes[n].pumps[i].reader && !c.nodes[n].crashed then
          var client := c.nodes[n].hub.chans[i];
          before + [Diff(n, i, Message(client.user, client.doc, payload, |before|), published)]
        else before
      case Announce(n, user, doc, payload) =>
        if n < |c.nodes| && !c.nodes[n].crashed then before + [Task(n, Message(user, doc, payload, |before|), false)]
        else before
      case _ => before
  }

  /** The copies of message t for hub n that a move discards: one the bus loses, one that finds Broadcast full, and
      that of another process's new message which is not published. */
  function Discarded(c: Cluster, m: Move, n: nat, t: nat): nat
    requires CWf(c) && CEnabled(c, m) && n < |c.nodes|
  {
    var full := |c.nodes[n].bcastQ| >= 512;
    match m
    case Local(_, _) => 0
    case Update(from, _, _, published) => if t == |c.handled| && (if from == n then full else !published) then 1 else 0
    case Announce(from, _, _, _) => if t == |c.handled| && (from == n ==> full) then 1 else 0
    case Relay(at, k) => if at == n && c.bus[n][k].tag == t && full then 1 else 0
    case Lose(at, k) => if at == n && c.bus[n][k].tag == t then 1 else 0
  }

  lemma DiscardedExactly(c: Cluster, m: Move, n: nat, t: nat)
    requires CWf(c) && CEnabled(c, m) && n < |c.nodes|
    ensures CApply(c, m).drops[(n, t)] == c.drops[(n, t)] + Discarded(c, m, n, t)
  {
    match m
    case Update(from, i, payload, published) => DropsSend(c, Diffed(c, from, i, payload, published), n, t);
    case Announce(from, user, doc, payload) => DropsSend(c, Announced(c, from, user, doc, payload), n, t);
    case _ =>
  }

  /** A living process can always take any message off its bus; the message goes behind what its hub has waiting, if
      fewer than 512 wait, and nothing else changes. */
  lemma RelayTakes(c: Cluster, n: nat, k: nat)
    requires CWf(c) && n < |c.nodes| && !c.nodes[n].crashed && k < |c.bus[n]|
    ensures CEnabled(c, Relay(n, k))
    ensures var d, msg := CApply(c, Relay(n, k)), c.bus[n][k];
            && d.handled == c.handled && |d.nodes| == |c.nodes| && |d.bus| == |c.bus|
            && (forall j | 0 <= j < |c.nodes| && j != n :: d.nodes[j] == c.nodes[j] && d.bus[j] == c.bus[j])
            && multiset(c.bus[n]) == multiset(d.bus[n]) + multiset{msg}
            && d.nodes[n] == c.nodes[n].(bcastQ := c.nodes[n].bcastQ + if |c.nodes[n].bcastQ| < 512 then [msg] else [])
  {
    var d := CApply(c, Relay(n, k));
    forall x
      ensures multiset(c.bus[n])[x] == (multiset(d.bus[n]) + multiset{c.bus[n][k]})[x]
    {
      WithoutCount(c.bus[n], k, x);
    }
  }

  /** The bus may lose any message, which changes nothing else. */
  lemma BusMayLose(c: Cluster, n: nat, k: nat)
    requires CWf(c) && n < |c.nodes| && k < |c.bus[n]|
    ensures CEnabled(c, Lose(n, k))
    ensures var d := CApply(c, Lose(n, k));
            && d.nodes == c.nodes && d.handled == c.handled && |d.bus| == |c.bus|
            && (forall j | 0 <= j < |c.bus| && j != n :: d.bus[j] == c.bus[j])
            && multiset(c.bus[n]) == multiset(d.bus[n]) + multiset{c.bus[n][k]}
  {
    var d := CApply(c, Lose(n, k));
    forall x
      ensures multiset(c.bus[n])[x] == (multiset(d.bus[n]) + multiset{c.bus[n][k]})[x]
    {
      WithoutCount(c.bus[n], k, x);
    }
  }

  /** However messages are relayed, delayed, reordered or lost, no hub ever processes one more than once, except that
      the hub it was made at may process it twice: from its own queue, and again from the bus. */
  lemma {:induction false} RelayIsBounded(size: nat, ms: seq<Move>, n: nat, t: nat)
    requires n < size && t < |CRun(size, ms).handled|
    ensures var c := CRun(size, ms);
            |c.nodes| == size &&
            multiset(c.nodes[n].log)[c.handled[t].msg] <= (if c.handled[t].node == n then 2 else 1)
  {
    AlwaysTracked(size, ms);
    assert Accounted(CRun(size, ms), n) && InAccount(CRun(size, ms), n, t);
  }

  /** The exact count, in every run: of the one copy of a message meant for a hub, or the two if the hub is the
      message's own and it was published, each has been processed, is waiting or on the bus, or was discarded. */
  lemma {:induction false} CopiesAreConserved(size: nat, ms: seq<Move>, n: nat, t: nat)
    requires n < size && t < |CRun(size, ms).handled|
    ensures var c := CRun(size, ms); var h := c.handled[t];
            |c.nodes| == size &&
            multiset(c.nodes[n].log)[h.msg] + multiset(c.nodes[n].bcastQ)[h.msg] + multiset(c.bus[n])[h.msg]
              + c.drops[(n, t)] == if h.node == n && h.published then 2 else 1
  {
    AlwaysTracked(size, ms);
    assert Accounted(CRun(size, ms), n) && InAccount(CRun(size, ms), n, t);
  }

  lemma {:induction false} RoutedFrom(log: seq<Message>, user: string, doc: string, p: Bytes)
    ensures p in Routed(log, user, doc) <==> exists m | m in log :: m.sender != user && m.doc == doc && m.payload == p
  {
    if log != [] {
      RoutedFrom(log[..|log| - 1], user, doc, p);
      assert log == log[..|log| - 1] + [log[|log| - 1]];
    }
  }

  /** Whatever reaches a client is a diff handled or a task announced somewhere in the cluster, for its document and by
      another user. */
  lemma {:induction false} PayloadsAreHandled(size: nat, ms: seq<Move>, n: nat, id: nat, p: Bytes)
    requires var c := CRun(size, ms);
             n < |c.nodes| && id < |c.nodes[n].pumps| && p in Enqueued(c.nodes[n], id)
    ensures var c := CRun(size, ms); var client := c.nodes[n].hub.chans[id];
            exists t | 0 <= t < |c.handled| ::
              var msg := c.handled[t].msg; msg.payload == p && msg.doc == client.doc && msg.sender != client.user
  {
    AlwaysTracked(size, ms);
    var c := CRun(size, ms);
    var s := c.nodes[n];
    assert Faithful(s, id) && Accounted(c, n);
    RoutedFrom(s.log[s.pumps[id].since.value..], s.hub.chans[id].user, s.hub.chans[id].doc, p);
    assert Enqueued(s, id) <= Owed(s, id);
    var msg :| msg in s.log && msg.sender != s.hub.chans[id].user && msg.doc == s.hub.chans[id].doc && msg.payload == p;
    assert Copies(c, n, msg) > 0 && Genuine(c, msg);
  }

  /** HandleUpdate as it is written never calls Publish. */
  ghost predicate NeverPublishes(ms: seq<Move>) {
    forall i | 0 <= i < |ms| && ms[i].Update? :: !ms[i].published
  }

  /** Then the bus stays empty, and no hub ever processes a message of another process. */
  lemma {:induction false} UnpublishedStaysLocal(size: nat, ms: seq<Move>)
    requires NeverPublishes(ms)
    ensures StaysLocal(CRun(size, ms))
  {
    if ms != [] {
      var before, m := ms[..|ms| - 1], ms[|ms| - 1];
      UnpublishedStaysLocal(size, before);
      AlwaysTracked(size, before);
      var c := CRun(size, before);
      if CEnabled(c, m) { LocalMove(c, m); }
    }
  }

  ghost predicate StaysLocal(c: Cluster)
    requires CWf(c)
  {
    forall n | 0 <= n < |c.nodes| ::
      c.bus[n] == [] && forall msg | Copies(c, n, msg) > 0 :: Genuine(c, msg) && c.handled[msg.tag].node == n
  }

  lemma LocalMove(c: Cluster, m: Move)
    requires CWf(c) && Tracked(c) && StaysLocal(c) && CEnabled(c, m) && (m.Update? ==> !m.published)
    ensures StaysLocal(CApply(c, m))
  {
    var d := CApply(c, m);
    forall n, msg | 0 <= n < |d.nodes| && Copies(d, n, msg) > 0
      ensures Genuine(d, msg) && d.handled[msg.tag].node == n
    {
      assert c.bus[n] == [];
      match m
      case Local(n0, e) => StepHeld(c.nodes[n0], e, msg);
      case Update(n0, i, payload, _) => CopiesSend(c, Diffed(c, n0, i, payload, false), n, msg);
      case Announce(n0, user, doc, payload) => CopiesSend(c, Announced(c, n0, user, doc, payload), n, msg);
    }
  }
}
