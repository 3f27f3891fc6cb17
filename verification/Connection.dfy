/**
 The outbound side of one WebSocket connection: two bounded channels joined by a forwarder task,
 drained by a writer task, fed by the greeting, by pongs and by responses.  Every `await` on a
 channel or on the socket is one step, and steps interleave freely.
 */
module Connection {
  import opened Prelude

  const CAPACITY: nat := 128

  /** `printable`: `serde_json::to_string` succeeds on it. */
  datatype Response = Response(body: nat, printable: bool)

  datatype Item = Protocol(response: Response) | Raw(pong: nat)

  /** `Ponging` is the receive loop waiting for room in the internal queue. */
  datatype Phase = Opening | Greeting(rest: seq<Response>) | Receiving | Ponging(data: nat) | Closing | Closed

  /** `Stopped`: the internal queue's receiving end is gone. */
  datatype Writer = Unstarted | Idle | Writing(item: Item) | Stopped

  /** `Ended`: the core queue's receiving end is gone. */
  datatype Forwarder = Waiting | Holding(response: Response) | Ended

  /**
   The queues and tasks, then the history: what `on_connect` returned, how much of it was queued,
   the responses accepted, the pings read, the items the writer is through with, the frames written.
   */
  datatype State = State(
    phase: Phase, writer: Writer, internal: seq<Item>, forwarder: Forwarder, core: seq<Response>,
    initial: seq<Response>, queued: seq<Response>, accepted: seq<Response>, pings: seq<nat>,
    done: seq<Item>, wire: seq<Item>)

  const INITIAL := State(Opening, Unstarted, [], Waiting, [], [], [], [], [], [], [])

  datatype Event =
    | Connected(msgs: seq<Response>)
    | ConnectFailed
    | QueueInitial
    | StartReceiving
    | Accept(response: Response)
    | ForwarderTake
    | ForwarderPush
    | ForwarderFail
    | ForwarderEnd
    | Ping(data: nat)
    | PongPush
    | PongFail
    | ReadEnd
    | WriterTake
    | WriterFinish(ok: bool)
    | Abort

  predicate Open(st: State) {
    st.writer != Stopped
  }

  predicate Room(st: State) {
    Open(st) && |st.internal| < CAPACITY
  }

  /** A handler gets a sink with its first message only, so nothing is accepted before the receive loop. */
  predicate SinkHeld(st: State) {
    !st.phase.Opening? && !st.phase.Greeting?
  }

  predicate Enabled(st: State, e: Event) {
    match e
    case Connected(_) => st.phase.Opening?
    case ConnectFailed => st.phase.Opening?
    case QueueInitial => st.phase.Greeting? && st.phase.rest != [] && Room(st)
    case StartReceiving => st.phase == Greeting([])
    case Accept(_) => SinkHeld(st) && !st.forwarder.Ended? && |st.core| < CAPACITY
    case ForwarderTake => st.forwarder.Waiting? && st.core != []
    case ForwarderPush => st.forwarder.Holding? && Room(st)
    case ForwarderFail => st.forwarder.Holding? && !Open(st)
    case ForwarderEnd => st.forwarder.Waiting? && st.core == [] && st.phase.Closed?
    case Ping(_) => st.phase.Receiving?
    case PongPush => st.phase.Ponging? && Room(st)
    case PongFail => st.phase.Ponging? && !Open(st)
    case ReadEnd => st.phase.Receiving?
    case WriterTake => st.writer.Idle? && st.internal != []
    case WriterFinish(_) => st.writer.Writing?
    case Abort => st.phase.Closing?
  }

  predicate Writable(item: Item) {
    item.Protocol? ==> item.response.printable
  }

  function Apply(st: State, e: Event): State
    requires Enabled(st, e)
  {
    match e
    case Connected(msgs) => st.(phase := Greeting(msgs), initial := msgs)
    case ConnectFailed => st.(phase := Closed, writer := Stopped)
    case QueueInitial =>
      var m := st.phase.rest[0];
      st.(phase := Greeting(st.phase.rest[1..]), internal := st.internal + [Protocol(m)], queued := st.queued + [m])
    case StartReceiving => st.(phase := Receiving, writer := Idle)
    case Accept(r) => st.(core := st.core + [r], accepted := st.accepted + [r])
    case ForwarderTake => st.(forwarder := Holding(st.core[0]), core := st.core[1..])
    case ForwarderPush => st.(forwarder := Waiting, internal := st.internal + [Protocol(st.forwarder.response)])
    case ForwarderFail => st.(forwarder := Ended, core := [])
    case ForwarderEnd => st.(forwarder := Ended)
    case Ping(data) => st.(phase := Ponging(data), pings := st.pings + [data])
    case PongPush => st.(phase := Receiving, internal := st.internal + [Raw(st.phase.data)])
    case PongFail => st.(phase := Closing)
    case ReadEnd => st.(phase := Closing)
    case WriterTake => st.(writer := Writing(st.internal[0]), internal := st.internal[1..])
    case WriterFinish(ok) =>
      var item := st.writer.item;
      if !Writable(item) then st.(writer := Idle, done := st.done + [item])
      else if ok then st.(writer := Idle, done := st.done + [item], wire := st.wire + [item])
      else st.(writer := Stopped, internal := [])
    case Abort => st.(phase := Closed, writer := Stopped, internal := [])
  }

  predicate EnabledRun(st: State, events: seq<Event>)
    decreases |events|
  {
    events == [] || (Enabled(st, events[0]) && EnabledRun(Apply(st, events[0]), events[1..]))
  }

  function Run(st: State, events: seq<Event>): State
    requires EnabledRun(st, events)
    decreases |events|
  {
    if events == [] then st else Run(Apply(st, events[0]), events[1..])
  }

  // ----- the two queues read as one -----

  function Protocols(items: seq<Item>): seq<Response> {
    if items == [] then []
    else if items[0].Protocol? then [items[0].response] + Protocols(items[1..])
    else Protocols(items[1..])
  }

  function Pongs(items: seq<Item>): seq<nat> {
    if items == [] then []
    else if items[0].Raw? then [items[0].pong] + Pongs(items[1..])
    else Pongs(items[1..])
  }

  lemma {:induction false} ProtocolsConcat(a: seq<Item>, b: seq<Item>)
    ensures Protocols(a + b) == Protocols(a) + Protocols(b)
  {
    if a == [] {
      assert a + b == b;
    } else {
      ProtocolsConcat(a[1..], b);
      assert (a + b)[1..] == a[1..] + b && (a + b)[0] == a[0];
    }
  }

  lemma {:induction false} PongsConcat(a: seq<Item>, b: seq<Item>)
    ensures Pongs(a + b) == Pongs(a) + Pongs(b)
  {
    if a == [] {
      assert a + b == b;
    } else {
      PongsConcat(a[1..], b);
      assert (a + b)[1..] == a[1..] + b && (a + b)[0] == a[0];
    }
  }

  lemma ItemsConcat(a: seq<Item>, b: seq<Item>)
    ensures Protocols(a + b) == Protocols(a) + Protocols(b)
    ensures Pongs(a + b) == Pongs(a) + Pongs(b)
  {
    ProtocolsConcat(a, b);
    PongsConcat(a, b);
  }

  function WriterHand(st: State): seq<Item> {
    if st.writer.Writing? then [st.writer.item] else []
  }

  function ForwarderHand(st: State): seq<Response> {
    if st.forwarder.Holding? then [st.forwarder.response] else []
  }

  function ReaderHand(st: State): seq<nat> {
    if st.phase.Ponging? then [st.phase.data] else []
  }

  /** The responses on their way, in the order in which they will be written. */
  function Pending(st: State): seq<Response> {
    Protocols(WriterHand(st) + st.internal) + ForwarderHand(st) + st.core
  }

  /** The pongs on their way. */
  function PendingPongs(st: State): seq<nat> {
    Pongs(WriterHand(st) + st.internal) + ReaderHand(st)
  }

  /** One unbounded queue: what was put in, and what has come out. */
  datatype Fifo = Fifo(entered: seq<Response>, left: seq<Response>)

  /** The connection as one queue of responses. */
  function AsFifo(st: State): Fifo {
    Fifo(st.queued + st.accepted, Protocols(st.done))
  }

  /** One step of an unbounded queue, or none. */
  predicate FifoStep(a: Fifo, b: Fifo) {
    || a == b
    || (b.left == a.left && |b.entered| == |a.entered| + 1 && a.entered == b.entered[..|a.entered|])
    || (b.entered == a.entered && |a.left| < |a.entered| && b.left == a.left + [a.entered[|a.left|]])
  }

  predicate Ordered(st: State) {
    && Protocols(st.done) + Pending(st) == st.queued + st.accepted
    && Pongs(st.done) + PendingPongs(st) == st.pings
  }

  predicate Prefixes(st: State) {
    Protocols(st.done) <= st.queued + st.accepted && Pongs(st.done) <= st.pings
  }

  predicate Early(st: State) {
    st.phase.Opening? || st.phase.Greeting?
  }

  predicate Staged(st: State) {
    && (st.phase.Opening? ==> st == INITIAL)
    && (st.phase.Greeting? ==> st.initial == st.queued + st.phase.rest && |st.internal| == |st.queued|)
    && (Early(st) <==> st.writer.Unstarted?)
    && (Early(st) ==> st.accepted == [] && st.core == [] && st.forwarder.Waiting?)
    && (!Early(st) ==> st.queued == st.initial)
    && (st.phase.Closed? ==> !Open(st))
    && (st.forwarder.Ended? ==> !Open(st))
  }

  predicate Bounded(st: State) {
    |st.internal| <= CAPACITY && |st.core| <= CAPACITY
  }

  predicate Invariant(st: State) {
    && Staged(st) && Bounded(st)
    && (Open(st) ==> Ordered(st))
    && Prefixes(st)
    && st.wire == Filter(st.done, Writable)
  }

  lemma StagedStep(st: State, e: Event)
    requires Staged(st) && Bounded(st) && Enabled(st, e)
    ensures Staged(Apply(st, e)) && Bounded(Apply(st, e))
  {
  }

  lemma FilterOne(items: seq<Item>, item: Item)
    ensures Filter(items + [item], Writable) == Filter(items, Writable) + if Writable(item) then [item] else []
  {
    FilterConcat(items, [item], Writable);
    assert [item][1..] == [];
  }

  lemma ForwarderTakeKeepsOrder(st: State)
    requires Enabled(st, ForwarderTake) && Ordered(st)
    ensures Ordered(Apply(st, ForwarderTake))
  {
    hide Protocols, Pongs;
    assert [st.core[0]] + st.core[1..] == st.core;
    assert Pending(Apply(st, ForwarderTake)) == Pending(st);
  }

  lemma ForwarderPushKeepsOrder(st: State)
    requires Enabled(st, ForwarderPush) && Ordered(st)
    ensures Ordered(Apply(st, ForwarderPush))
  {
    hide Protocols, Pongs;
    MovePush(st, Protocol(st.forwarder.response));
    assert Pending(Apply(st, ForwarderPush)) == Pending(st);
  }

  lemma PongPushKeepsOrder(st: State)
    requires Enabled(st, PongPush) && Ordered(st)
    ensures Ordered(Apply(st, PongPush))
  {
    hide Protocols, Pongs;
    MovePush(st, Raw(st.phase.data));
    assert PendingPongs(Apply(st, PongPush)) == PendingPongs(st);
  }

  lemma WriterTakeKeepsOrder(st: State)
    requires Enabled(st, WriterTake) && Ordered(st)
    ensures Ordered(Apply(st, WriterTake))
  {
    hide Protocols, Pongs;
    var next := Apply(st, WriterTake);
    assert WriterHand(next) + next.internal == WriterHand(st) + st.internal;
  }

  lemma QueueInitialKeepsOrder(st: State)
    requires Enabled(st, QueueInitial) && Ordered(st) && Staged(st)
    ensures Ordered(Apply(st, QueueInitial))
  {
    hide Protocols, Pongs;
    var next, m := Apply(st, QueueInitial), st.phase.rest[0];
    MovePush(st, Protocol(m));
    assert Pending(next) == Pending(st) + [m] by {
      assert ForwarderHand(st) == [] && st.core == [];
    }
    assert next.queued + next.accepted == st.queued + st.accepted + [m];
    assert Protocols(next.done) + Pending(next) == Protocols(st.done) + Pending(st) + [m];
  }

  lemma MovePush(st: State, item: Item)
    ensures var before := WriterHand(st) + st.internal;
      && Protocols(WriterHand(st) + (st.internal + [item]))
           == Protocols(before) + (if item.Protocol? then [item.response] else [])
      && Pongs(WriterHand(st) + (st.internal + [item])) == Pongs(before) + (if item.Raw? then [item.pong] else [])
  {
    var before := WriterHand(st) + st.internal;
    assert WriterHand(st) + (st.internal + [item]) == before + [item];
    ItemsConcat(before, [item]);
    assert [item][1..] == [];
  }

  /** Whether an item counts as done or as next in line makes no difference to the order. */
  lemma HeadDone(done: seq<Item>, item: Item, internal: seq<Item>)
    ensures Protocols(done + [item]) + Protocols(internal) == Protocols(done) + Protocols([item] + internal)
    ensures Pongs(done + [item]) + Pongs(internal) == Pongs(done) + Pongs([item] + internal)
  {
    ItemsConcat(done, [item]);
    ItemsConcat([item], internal);
    hide Protocols, Pongs;
  }

  lemma FinishKeepsOrder(st: State, e: Event)
    requires Enabled(st, e) && Ordered(st) && e.WriterFinish?
    ensures var next := Apply(st, e); Open(next) ==> Ordered(next)
    ensures Prefixes(Apply(st, e))
  {
    hide Protocols, Pongs;
    var next := Apply(st, e);
    if Open(next) {
      HeadDone(st.done, st.writer.item, st.internal);
      assert WriterHand(next) + next.internal == st.internal;
      assert WriterHand(st) == [st.writer.item];
      FinishPending(st, next);
      OrderedPrefixes(next);
    } else {
      OrderedPrefixes(st);
    }
  }

  lemma FinishPending(st: State, next: State)
    requires Ordered(st) && st.writer.Writing? && next.writer.Idle? && next.internal == st.internal
    requires next.done == st.done + [st.writer.item]
    requires next == st.(writer := next.writer, done := next.done, wire := next.wire)
    requires Protocols(next.done) + Protocols(st.internal)
          == Protocols(st.done) + Protocols([st.writer.item] + st.internal)
    requires Pongs(next.done) + Pongs(st.internal) == Pongs(st.done) + Pongs([st.writer.item] + st.internal)
    ensures Ordered(next)
  {
    hide Protocols, Pongs;
    assert WriterHand(next) + next.internal == st.internal;
    var tail := ForwarderHand(st) + st.core;
    assert Protocols(next.done) + Pending(next) == Protocols(next.done) + Protocols(st.internal) + tail;
    assert Pongs(next.done) + PendingPongs(next) == Pongs(next.done) + Pongs(st.internal) + ReaderHand(st);
  }

  lemma InputKeepsOrder(st: State, e: Event)
    requires Enabled(st, e) && Ordered(st) && Staged(st) && Open(st)
    requires !e.ForwarderTake? && !e.ForwarderPush? && !e.PongPush? && !e.WriterTake? && !e.WriterFinish?
    requires !e.QueueInitial?
    ensures var next := Apply(st, e); Open(next) ==> Ordered(next)
  {
    hide Protocols, Pongs;
    var next := Apply(st, e);
    match e
    case StartReceiving => assert WriterHand(next) == WriterHand(st);
    case Accept(r) =>
      assert Pending(next) == Pending(st) + [r];
      assert next.queued + next.accepted == st.queued + st.accepted + [r];
      assert Protocols(next.done) + Pending(next) == Protocols(st.done) + Pending(st) + [r];
    case Ping(data) =>
      assert PendingPongs(next) == PendingPongs(st) + [data];
      assert Pongs(next.done) + PendingPongs(next) == Pongs(st.done) + PendingPongs(st) + [data];
    case _ =>
  }

  /** A message that moves from one place to the next keeps its turn. */
  lemma KeepsOrder(st: State, e: Event)
    requires Enabled(st, e) && Ordered(st) && Staged(st) && Open(st) && !e.WriterFinish?
    ensures var next := Apply(st, e); Open(next) ==> Ordered(next)
  {
    hide Enabled, Apply, Ordered, Staged;
    if e.ForwarderTake? {
      ForwarderTakeKeepsOrder(st);
    } else if e.ForwarderPush? {
      ForwarderPushKeepsOrder(st);
    } else if e.PongPush? {
      PongPushKeepsOrder(st);
    } else if e.WriterTake? {
      WriterTakeKeepsOrder(st);
    } else if e.QueueInitial? {
      QueueInitialKeepsOrder(st);
    } else {
      InputKeepsOrder(st, e);
    }
  }

  lemma PrefixesGrow(st: State, e: Event)
    requires Enabled(st, e) && Prefixes(st) && !e.WriterFinish? && Staged(st)
    ensures Prefixes(Apply(st, e))
  {
    hide Protocols, Pongs;
    var next := Apply(st, e);
    assert st.done == next.done;
    assert st.queued + st.accepted <= next.queued + next.accepted;
  }

  lemma OrderedPrefixes(st: State)
    requires Ordered(st)
    ensures Prefixes(st)
  {
    hide Protocols, Pongs, Pending, PendingPongs;
  }

  lemma StaysShut(st: State, e: Event)
    requires Staged(st) && Enabled(st, e) && !Open(st)
    ensures !Open(Apply(st, e))
  {
  }

  lemma InvariantStep(st: State, e: Event)
    requires Invariant(st) && Enabled(st, e)
    ensures Invariant(Apply(st, e))
  {
    hide Staged, Bounded, Ordered, Prefixes, Filter;
    StagedStep(st, e);
    var next := Apply(st, e);
    if e.WriterFinish? {
      assert Open(st);
      FinishKeepsOrder(st, e);
      FilterOne(st.done, st.writer.item);
    } else {
      PrefixesGrow(st, e);
      assert next.done == st.done && next.wire == st.wire;
      if Open(next) {
        if !Open(st) { StaysShut(st, e); }
        KeepsOrder(st, e);
      }
    }
  }

  lemma {:induction false} InvariantRun(st: State, events: seq<Event>)
    requires Invariant(st) && EnabledRun(st, events)
    ensures Invariant(Run(st, events))
    decreases |events|
  {
    hide Invariant, Enabled, Apply;
    if events != [] {
      InvariantStep(st, events[0]);
      InvariantRun(Apply(st, events[0]), events[1..]);
    }
  }

  /** Only printable responses reach the wire. */
  lemma {:induction false} WireProtocols(items: seq<Item>)
    ensures Protocols(Filter(items, Writable)) == Filter(Protocols(items), (r: Response) => r.printable)
    ensures Pongs(Filter(items, Writable)) == Pongs(items)
  {
    if items != [] {
      WireProtocols(items[1..]);
      ItemsConcat([items[0]], Filter(items[1..], Writable));
      assert [items[0]][1..] == [];
    }
  }

  /**
   The two bounded queues are one first-in first-out queue.  In every reachable state, failures and
   shutdown included, the frames written are the printable ones of a prefix of the greeting followed by the
   responses in the order of acceptance, and pongs answer a prefix of the pings in order.
   While the writer lives nothing is missing between that prefix and the queues' contents.
   */
  lemma OneFifo(events: seq<Event>)
    requires EnabledRun(INITIAL, events)
    ensures var st := Run(INITIAL, events);
      && Protocols(st.done) <= st.initial + st.accepted
      && Protocols(st.wire) == Filter(Protocols(st.done), (r: Response) => r.printable)
      && Pongs(st.wire) <= st.pings
      && st.queued <= st.initial && (st.accepted != [] ==> st.queued == st.initial)
      && (Open(st) ==> Protocols(st.done) + Pending(st) == st.queued + st.accepted)
      && (Open(st) ==> Pongs(st.wire) + PendingPongs(st) == st.pings)
  {
    hide Protocols, Pongs, Pending, PendingPongs, Filter;
    InvariantRun(INITIAL, events) by {
      InitialHolds();
    }
    var st := Run(INITIAL, events);
    WireProtocols(st.done);
    assert st.queued <= st.initial;
    assert st.accepted != [] ==> st.queued == st.initial;
    assert st.queued + st.accepted <= st.initial + st.accepted;
  }

  lemma InitialHolds()
    ensures Invariant(INITIAL)
  {
  }

  /** What is in flight never exceeds the two capacities and one message in each task's hand. */
  lemma InFlightBounded(events: seq<Event>)
    requires EnabledRun(INITIAL, events)
    ensures var st := Run(INITIAL, events);
      && |Pending(st)| + |PendingPongs(st)| <= CAPACITY + CAPACITY + 3
      && (Open(st) ==> |st.queued + st.accepted| - |Protocols(st.done)| == |Pending(st)| <= CAPACITY + CAPACITY + 2)
  {
    InitialHolds();
    InvariantRun(INITIAL, events);
    hide Protocols, Pongs;
    var st := Run(INITIAL, events);
    ItemCounts(WriterHand(st) + st.internal);
  }

  lemma {:induction false} ItemCounts(items: seq<Item>)
    ensures |Protocols(items)| + |Pongs(items)| == |items|
  {
    if items != [] {
      ItemCounts(items[1..]);
    }
  }

  /** Step by step: an enqueue, a dequeue, or nothing the single queue could notice. */
  lemma RefinesFifo(st: State, e: Event)
    requires Invariant(st) && Enabled(st, e)
    ensures FifoStep(AsFifo(st), AsFifo(Apply(st, e)))
    ensures AsFifo(Apply(st, e)).entered != AsFifo(st).entered ==> e.QueueInitial? || e.Accept?
  {
    hide Protocols, Filter, Pending, Staged, PendingPongs;
    var next := Apply(st, e);
    if e.WriterFinish? {
      FinishTakesHead(st, e);
    } else if e.QueueInitial? {
      QueuedBeforeAccepted(st);
      assert next.queued + next.accepted == st.queued + st.accepted + [st.phase.rest[0]];
    } else if e.Accept? {
      assert next.queued + next.accepted == st.queued + st.accepted + [e.response];
    }
  }

  lemma QueuedBeforeAccepted(st: State)
    requires Staged(st) && st.phase.Greeting?
    ensures st.accepted == []
  {
  }

  lemma FinishTakesHead(st: State, e: Event)
    requires Invariant(st) && Enabled(st, e) && e.WriterFinish?
    ensures FifoStep(AsFifo(st), AsFifo(Apply(st, e)))
  {
    hide Filter, Staged, PendingPongs;
    var item := st.writer.item;
    ItemsConcat(st.done, [item]);
    ItemsConcat([item], st.internal);
    assert [item][1..] == [];
    hide Protocols;
    if item.Protocol? {
      assert Pending(st)[0] == item.response;
    }
  }

  // ----- progress -----

  /** Steps the connection takes by itself when the socket accepts what is written. */
  predicate OwnStep(e: Event) {
    e.ForwarderTake? || e.ForwarderPush? || e.PongPush? || e.WriterTake? || e == WriterFinish(true)
  }

  /** The number of own steps the messages in flight still have to take. */
  function Load(st: State): nat {
    4 * |st.core| + 3 * |ForwarderHand(st)| + 3 * |ReaderHand(st)| + 2 * |st.internal| + |WriterHand(st)|
  }

  lemma OwnStepWorks(st: State, e: Event)
    requires Enabled(st, e) && OwnStep(e) && Open(st)
    ensures Open(Apply(st, e)) && Load(Apply(st, e)) == Load(st) - 1
  {
  }

  /** While the writer lives and anything is in flight, some task can move: the queues never block each other. */
  lemma NeverStuck(st: State) returns (e: Event)
    requires Invariant(st) && !Early(st) && Open(st) && Load(st) > 0
    ensures OwnStep(e) && Enabled(st, e)
  {
    hide Ordered, Prefixes, Filter;
    if st.writer.Writing? { e := WriterFinish(true); }
    else if st.internal != [] { e := WriterTake; }
    else if st.forwarder.Holding? { e := ForwarderPush; }
    else if st.phase.Ponging? { e := PongPush; }
    else { e := ForwarderTake; }
  }

  predicate OwnSteps(events: seq<Event>) {
    forall e :: e in events ==> OwnStep(e)
  }

  /** However the own steps are scheduled, exactly `Load` of them are left. */
  lemma {:induction false} OwnStepsCount(st: State, events: seq<Event>)
    requires EnabledRun(st, events) && OwnSteps(events) && Open(st)
    ensures Open(Run(st, events)) && Load(Run(st, events)) == Load(st) - |events|
    ensures Run(st, events).queued + Run(st, events).accepted == st.queued + st.accepted
    ensures Run(st, events).pings == st.pings
    decreases |events|
  {
    if events != [] {
      OwnStepWorks(st, events[0]);
      OwnStepsCount(Apply(st, events[0]), events[1..]);
    }
  }

  /** Once nothing is in flight, everything accepted has been dealt with, in order. */
  lemma DrainedIsComplete(st: State)
    requires Invariant(st) && Open(st) && Load(st) == 0
    ensures Protocols(st.done) == st.queued + st.accepted && Pongs(st.wire) == st.pings
    ensures Protocols(st.wire) == Filter(st.queued + st.accepted, (r: Response) => r.printable)
  {
    hide Filter;
    WireProtocols(st.done);
    assert WriterHand(st) + st.internal == [];
  }

  /** Everything `st` had queued, accepted or read is on the wire of `later`. */
  predicate Delivered(st: State, later: State) {
    && Protocols(later.wire) == Filter(st.queued + st.accepted, (r: Response) => r.printable)
    && Pongs(later.wire) == st.pings
  }

  /**
   No response accepted by a living connection is forgotten: after `Load` own steps, whatever their schedule,
   every response and every pong is on the wire in order, and such a schedule exists.
   */
  lemma {:induction false} Delivers(st: State) returns (events: seq<Event>)
    requires Invariant(st) && !Early(st) && Open(st)
    ensures EnabledRun(st, events) && OwnSteps(events) && |events| == Load(st)
    ensures forall es :: EnabledRun(st, es) && OwnSteps(es) ==>
      |es| <= Load(st) && (|es| == Load(st) ==> Delivered(st, Run(st, es)))
  {
    hide Invariant, Filter, Protocols, Pongs, Enabled, Apply, Run, EnabledRun, Load;
    forall es | EnabledRun(st, es) && OwnSteps(es)
      ensures |es| <= Load(st) && (|es| == Load(st) ==> Delivered(st, Run(st, es)))
    {
      OwnStepsCount(st, es);
      InvariantRun(st, es);
      if |es| == Load(st) {
        DrainedIsComplete(Run(st, es));
      }
    }
    events := Schedule(st);
  }

  lemma {:induction false} Schedule(st: State) returns (events: seq<Event>)
    requires Invariant(st) && !Early(st) && Open(st)
    ensures EnabledRun(st, events) && OwnSteps(events) && |events| == Load(st)
    decreases Load(st)
  {
    hide Invariant, Enabled, Apply, Load;
    if Load(st) == 0 {
      events := [];
    } else {
      var e := NeverStuck(st);
      OwnStepWorks(st, e);
      InvariantStep(st, e);
      StaysLate(st, e);
      var rest := Schedule(Apply(st, e));
      events := [e] + rest;
      assert events[1..] == rest;
    }
  }

  lemma StaysLate(st: State, e: Event)
    requires Enabled(st, e) && !Early(st)
    ensures !Early(Apply(st, e))
  {
  }

  // ----- the greeting is queued before anything drains the queue -----

  /** A greeting that fills the internal queue stops the connection for good: no step of any task is possible. */
  lemma LongGreetingStalls(st: State)
    requires Invariant(st) && st.phase.Greeting? && |st.queued| == CAPACITY && |st.initial| > CAPACITY
    ensures forall e :: !Enabled(st, e)
  {
  }

  lemma {:induction false} GreetingKept(st: State, events: seq<Event>)
    requires EnabledRun(st, events) && !st.phase.Opening?
    ensures Run(st, events).initial == st.initial && !Run(st, events).phase.Opening?
    decreases |events|
  {
    if events != [] {
      GreetingKept(Apply(st, events[0]), events[1..]);
    }
  }

  lemma {:induction false} ReceivedFits(st: State, events: seq<Event>)
    requires Invariant(st) && EnabledRun(st, events)
    requires Early(st) || |st.initial| <= CAPACITY
    ensures Early(Run(st, events)) || |Run(st, events).initial| <= CAPACITY
    decreases |events|
  {
    hide Invariant;
    if events != [] {
      InvariantStep(st, events[0]);
      LeavingFits(st, events[0]);
      ReceivedFits(Apply(st, events[0]), events[1..]);
    }
  }

  lemma LeavingFits(st: State, e: Event)
    requires Invariant(st) && Enabled(st, e) && (Early(st) || |st.initial| <= CAPACITY)
    ensures Early(Apply(st, e)) || |Apply(st, e).initial| <= CAPACITY
  {
    hide Ordered, Prefixes, Filter;
  }

  function Greet(n: nat): seq<Event> {
    seq(n, _ => QueueInitial) + [StartReceiving]
  }

  lemma {:induction false} GreetRuns(st: State, n: nat)
    requires Invariant(st) && st.phase.Greeting? && |st.phase.rest| == n && |st.initial| <= CAPACITY
    ensures EnabledRun(st, Greet(n)) && Run(st, Greet(n)).phase.Receiving? && Run(st, Greet(n)).initial == st.initial
    decreases n
  {
    hide Ordered, Prefixes, Filter;
    if n == 0 {
      assert Greet(0) == [StartReceiving];
      assert Greet(0)[1..] == [];
    } else {
      InvariantStep(st, QueueInitial);
      GreetRuns(Apply(st, QueueInitial), n - 1);
      assert Greet(n)[0] == QueueInitial && Greet(n)[1..] == Greet(n - 1);
    }
  }

  /** The connection got as far as reading messages, after this greeting. */
  ghost predicate Receives(msgs: seq<Response>, events: seq<Event>) {
    EnabledRun(INITIAL, events) && Run(INITIAL, events).phase.Receiving? && Run(INITIAL, events).initial == msgs
  }

  /** The receive loop can be reached exactly when the greeting fits the internal queue. */
  lemma ReceivesIff(msgs: seq<Response>)
    ensures (exists events :: Receives(msgs, events)) <==> |msgs| <= 128
  {
    hide Invariant, Apply;
    InitialHolds();
    if events :| Receives(msgs, events) {
      ReceivedFits(INITIAL, events);
    }
    if |msgs| <= CAPACITY {
      var st := Apply(INITIAL, Connected(msgs));
      InvariantStep(INITIAL, Connected(msgs));
      ConnectedStarts(msgs);
      GreetRuns(st, |msgs|);
      var events := [Connected(msgs)] + Greet(|msgs|);
      assert events[1..] == Greet(|msgs|);
      assert Receives(msgs, events);
    }
  }

  lemma ConnectedStarts(msgs: seq<Response>)
    ensures Enabled(INITIAL, Connected(msgs))
    ensures var st := Apply(INITIAL, Connected(msgs)); st.phase == Greeting(msgs) && st.initial == msgs
  {
  }

  // ----- what the history has to do with the events -----

  function Greetings(events: seq<Event>): seq<Response> {
    if events == [] then [] else (if events[0].Connected? then events[0].msgs else []) + Greetings(events[1..])
  }

  function Accepts(events: seq<Event>): seq<Response> {
    if events == [] then [] else (if events[0].Accept? then [events[0].response] else []) + Accepts(events[1..])
  }

  function PingsRead(events: seq<Event>): seq<nat> {
    if events == [] then [] else (if events[0].Ping? then [events[0].data] else []) + PingsRead(events[1..])
  }

  lemma {:induction false} HistoryOfRun(st: State, events: seq<Event>)
    requires Staged(st) && Bounded(st) && EnabledRun(st, events)
    ensures var last := Run(st, events);
      && last.initial == st.initial + Greetings(events) && last.accepted == st.accepted + Accepts(events)
      && last.pings == st.pings + PingsRead(events)
    decreases |events|
  {
    hide Staged, Bounded, Enabled;
    if events != [] {
      StagedStep(st, events[0]);
      HistoryOfEvent(st, events[0]);
      HistoryOfRun(Apply(st, events[0]), events[1..]);
    }
  }

  lemma HistoryOfEvent(st: State, e: Event)
    requires Staged(st) && Enabled(st, e)
    ensures var next := Apply(st, e);
      && next.initial == st.initial + (if e.Connected? then e.msgs else [])
      && next.accepted == st.accepted + (if e.Accept? then [e.response] else [])
      && next.pings == st.pings + (if e.Ping? then [e.data] else [])
  {
  }

  /** The greeting, the responses and the pings of `OneFifo` are those of the events. */
  lemma HistoryIsEvents(events: seq<Event>)
    requires EnabledRun(INITIAL, events)
    ensures var last := Run(INITIAL, events);
      last.initial == Greetings(events) && last.accepted == Accepts(events) && last.pings == PingsRead(events)
  {
    hide *;
    InitialStaged();
    HistoryOfRun(INITIAL, events);
    NothingBefore(Greetings(events));
    NothingBefore(Accepts(events));
    NothingBefore(PingsRead(events));
  }

  lemma InitialStaged()
    ensures Staged(INITIAL) && Bounded(INITIAL) && Open(INITIAL)
    ensures INITIAL.initial == [] && INITIAL.accepted == [] && INITIAL.pings == []
  {
  }

  lemma NothingBefore<T>(s: seq<T>)
    ensures [] + s == s
  {
  }

  // ----- how a connection ends -----

  /**
   A frame is on the wire exactly when its item is printable and the socket took it; a failed write ends the writer,
   and an item that does not print is skipped.
   */
  lemma WriteEnds(st: State, ok: bool)
    requires st.writer.Writing?
    ensures var item, next := st.writer.item, Apply(st, WriterFinish(ok));
      var printable := item.Raw? || item.response.printable;
      && next.wire == st.wire + (if printable && ok then [item] else [])
      && (next.writer.Stopped? <==> printable && !ok) && (!next.writer.Stopped? ==> next.writer.Idle?)
  {
  }

  /** Without a writer nothing is written any more, pongs and forwarded responses fail, and it stays so. */
  lemma {:induction false} SilentForGood(st: State, events: seq<Event>)
    requires st.writer.Stopped? && !Early(st) && EnabledRun(st, events)
    ensures var last := Run(st, events);
      && last.writer.Stopped? && last.wire == st.wire && last.done == st.done
      && (last.phase.Ponging? ==> Enabled(last, PongFail)) && (last.forwarder.Holding? ==> Enabled(last, ForwarderFail))
    decreases |events|
  {
    if events != [] {
      SilentForGood(Apply(st, events[0]), events[1..]);
    }
  }

  /** The events that can end the writer, or keep it from starting. */
  predicate Ends(e: Event) {
    e.ConnectFailed? || e.Abort? || e == WriterFinish(false)
  }

  lemma {:induction false} OpenStays(st: State, events: seq<Event>)
    requires Open(st) && EnabledRun(st, events) && forall i :: 0 <= i < |events| ==> !Ends(events[i])
    ensures Open(Run(st, events))
    decreases |events|
  {
    hide Enabled;
    if events != [] {
      OpenStays(Apply(st, events[0]), events[1..]);
    }
  }

  /**
   From the events alone: as long as the handler did not refuse the peer, no write failed and nothing was aborted, the
   writer lives; once reading has begun, `Load` own steps then put the greeting and every response accepted, as far as
   they print, and a pong for every ping on the wire.
   */
  lemma EverythingWritten(events: seq<Event>, own: seq<Event>)
    requires EnabledRun(INITIAL, events) && forall i :: 0 <= i < |events| ==> !Ends(events[i])
    requires !Early(Run(INITIAL, events)) && EnabledRun(Run(INITIAL, events), own) && OwnSteps(own)
    ensures var st := Run(INITIAL, events);
      |own| == Load(st) ==>
        var last := Run(st, own);
        && Protocols(last.wire) == Filter(Greetings(events) + Accepts(events), (r: Response) => r.printable)
        && Pongs(last.wire) == PingsRead(events)
  {
    hide *;
    InitialHolds();
    InitialStaged();
    OpenStays(INITIAL, events);
    InvariantRun(INITIAL, events);
    HistoryIsEvents(events);
    var st := Run(INITIAL, events);
    var schedule := Delivers(st);
    QueuedIsInitial(st);
    if |own| == Load(st) {
      DeliveredIs(st, Run(st, own));
    }
  }

  lemma QueuedIsInitial(st: State)
    requires Invariant(st) && !Early(st)
    ensures st.queued == st.initial
  {
    hide Ordered, Prefixes, Filter;
  }

  lemma DeliveredIs(st: State, later: State)
    requires Delivered(st, later)
    ensures Protocols(later.wire) == Filter(st.queued + st.accepted, (r: Response) => r.printable)
    ensures Pongs(later.wire) == st.pings
  {
  }

  predicate Ending(st: State) {
    st.phase.Closing? || st.phase.Closed?
  }

  lemma {:induction false} EndingStays(st: State, events: seq<Event>)
    requires Ending(st) && EnabledRun(st, events)
    ensures var last := Run(st, events);
      && Ending(last) && last.pings == st.pings
      && (last.phase.Closed? <==> st.phase.Closed? || Abort in events)
    decreases |events|
  {
    if events != [] {
      EndingStays(Apply(st, events[0]), events[1..]);
    }
  }

  /**
   When reading ends, or a pong cannot be queued, the connection closes: nothing more is read, the writer can be
   aborted until it has been, and from then on nothing is written.
   */
  lemma Closes(st: State, e: Event, events: seq<Event>)
    requires Invariant(st) && Enabled(st, e) && (e.ReadEnd? || e.PongFail?) && EnabledRun(Apply(st, e), events)
    ensures var last := Run(Apply(st, e), events);
      && last.pings == st.pings && Ending(last)
      && (Abort !in events ==> Enabled(last, Abort))
      && (Abort in events ==> last.phase.Closed? && last.writer.Stopped?)
  {
    hide Invariant, Run, EnabledRun;
    EndingStays(Apply(st, e), events);
    InvariantStep(st, e);
    InvariantRun(Apply(st, e), events);
    ClosedIsStopped(Run(Apply(st, e), events));
  }

  lemma ClosedIsStopped(st: State)
    requires Invariant(st)
    ensures st.phase.Closed? ==> st.writer.Stopped?
  {
  }

  /** A refused connection is closed at once, with nothing written. */
  lemma RefusedCloses()
    ensures var next := Apply(INITIAL, ConnectFailed); next.phase.Closed? && next.writer.Stopped? && next.wire == []
  {
  }

  /** Behind a closed connection the forwarder comes to its end, whatever it still holds. */
  lemma ForwarderEnds(st: State) returns (events: seq<Event>)
    requires Invariant(st) && st.phase.Closed?
    ensures EnabledRun(st, events) && |events| <= 2 && Run(st, events).forwarder.Ended?
  {
    hide Ordered, Prefixes, Filter;
    if st.forwarder.Ended? {
      events := [];
    } else if st.forwarder.Holding? {
      events := [ForwarderFail];
      assert events[1..] == [];
    } else if st.core == [] {
      events := [ForwarderEnd];
      assert events[1..] == [];
    } else {
      events := [ForwarderTake, ForwarderFail];
      assert events[1..] == [ForwarderFail] && [ForwarderFail][1..] == [];
    }
  }

  // ----- what each side lets in -----

  function Accepting(responses: seq<Response>): seq<Event> {
    if responses == [] then [] else [Accept(responses[0])] + Accepting(responses[1..])
  }

  /** While no task moves, the core queue takes as many responses in a row as it has room for, and no more. */
  lemma {:induction false} AcceptsIff(st: State, responses: seq<Response>)
    requires !Early(st) && !st.forwarder.Ended? && |st.core| <= 128
    ensures EnabledRun(st, Accepting(responses)) <==> |st.core| + |responses| <= 128
    decreases |responses|
  {
    if responses != [] {
      var events := Accepting(responses);
      assert events[0] == Accept(responses[0]) && events[1..] == Accepting(responses[1..]);
      if |st.core| < 128 {
        AcceptsIff(Apply(st, events[0]), responses[1..]);
      }
    }
  }

  /** Each ping is answered before the next is read. */
  function Answering(pings: seq<nat>): seq<Event> {
    if pings == [] then [] else [Ping(pings[0]), PongPush] + Answering(pings[1..])
  }

  lemma PingPong(st: State, data: nat, rest: seq<Event>)
    requires st.phase.Receiving?
    ensures var events := [Ping(data), PongPush] + rest;
      var next := st.(internal := st.internal + [Raw(data)], pings := st.pings + [data]);
      EnabledRun(st, events) <==> Room(st) && EnabledRun(next, rest)
  {
    var events := [Ping(data), PongPush] + rest;
    var waiting := Apply(st, Ping(data));
    assert events[0] == Ping(data) && events[1..] == [PongPush] + rest;
    assert events[1..][0] == PongPush && events[1..][1..] == rest;
    if Room(st) {
      assert Apply(waiting, PongPush) == st.(internal := st.internal + [Raw(data)], pings := st.pings + [data]);
    }
  }

  /**
   The receive loop always reads a next ping; while no task moves it can answer as many as the internal queue has room
   for, and no more.
   */
  lemma {:induction false} AnswersIff(st: State, pings: seq<nat>)
    requires st.phase.Receiving? && !st.writer.Stopped? && |st.internal| <= 128
    ensures EnabledRun(st, Answering(pings)) <==> |st.internal| + |pings| <= 128
    ensures forall data :: Enabled(st, Ping(data))
    decreases |pings|
  {
    if pings != [] {
      PingPong(st, pings[0], Answering(pings[1..]));
      if |st.internal| < 128 {
        AnswersIff(st.(internal := st.internal + [Raw(pings[0])], pings := st.pings + [pings[0]]), pings[1..]);
      }
    }
  }

  /** The forwarder carries so many responses over, one by one. */
  function Forwarding(count: nat): seq<Event> {
    if count == 0 then [] else [ForwarderTake, ForwarderPush] + Forwarding(count - 1)
  }

  lemma TakePush(st: State, rest: seq<Event>)
    requires st.forwarder.Waiting? && st.core != []
    ensures var events := [ForwarderTake, ForwarderPush] + rest;
      var next := st.(internal := st.internal + [Protocol(st.core[0])], core := st.core[1..]);
      EnabledRun(st, events) <==> Room(st) && EnabledRun(next, rest)
  {
    var events := [ForwarderTake, ForwarderPush] + rest;
    var held := Apply(st, ForwarderTake);
    assert events[0] == ForwarderTake && events[1..] == [ForwarderPush] + rest;
    assert events[1..][0] == ForwarderPush && events[1..][1..] == rest;
    if Room(st) {
      assert Apply(held, ForwarderPush) == st.(internal := st.internal + [Protocol(st.core[0])], core := st.core[1..]);
    }
  }

  /** While the writer does not move the forwarder carries over as many as the internal queue has room for. */
  lemma {:induction false} ForwardsIff(st: State, count: nat)
    requires st.forwarder.Waiting? && !st.writer.Stopped? && |st.internal| <= 128 && count <= |st.core|
    ensures EnabledRun(st, Forwarding(count)) <==> |st.internal| + count <= 128
    decreases count
  {
    if count > 0 {
      TakePush(st, Forwarding(count - 1));
      if |st.internal| < 128 {
        ForwardsIff(st.(internal := st.internal + [Protocol(st.core[0])], core := st.core[1..]), count - 1);
      }
    }
  }

  lemma RunMore(st: State, e: Event, rest: seq<Event>)
    requires Enabled(st, e) && EnabledRun(Apply(st, e), rest)
    ensures EnabledRun(st, [e] + rest) && Run(st, [e] + rest) == Run(Apply(st, e), rest)
  {
    hide Apply, Enabled;
    assert ([e] + rest)[1..] == rest;
  }

  lemma RunNothing(st: State)
    ensures EnabledRun(st, []) && Run(st, []) == st
  {
  }

  lemma PushAndClose(st: State)
    requires st.phase.Ponging? && Room(st)
    ensures var events := [PongPush, ReadEnd, Abort]; EnabledRun(st, events) && Run(st, events).phase.Closed?
  {
    hide Run, EnabledRun;
    var read := Apply(st, PongPush);
    var ended := Apply(read, ReadEnd);
    RunNothing(Apply(ended, Abort));
    RunMore(ended, Abort, []);
    RunMore(read, ReadEnd, [Abort] + []);
    RunMore(st, PongPush, [ReadEnd] + ([Abort] + []));
    assert [PongPush] + ([ReadEnd] + ([Abort] + [])) == [PongPush, ReadEnd, Abort];
  }

  lemma TakeAndClose(st: State)
    requires st.phase.Ponging? && st.writer.Idle? && |st.internal| == CAPACITY
    ensures var events := [WriterTake, PongPush, ReadEnd, Abort];
      EnabledRun(st, events) && Run(st, events).phase.Closed?
  {
    hide Run, EnabledRun;
    PushAndClose(Apply(st, WriterTake));
    RunMore(st, WriterTake, [PongPush, ReadEnd, Abort]);
    assert [WriterTake] + [PongPush, ReadEnd, Abort] == [WriterTake, PongPush, ReadEnd, Abort];
  }

  lemma FinishAndClose(st: State)
    requires st.phase.Ponging? && st.writer.Writing? && |st.internal| == CAPACITY
    ensures var events := [WriterFinish(true), WriterTake, PongPush, ReadEnd, Abort];
      EnabledRun(st, events) && Run(st, events).phase.Closed?
  {
    hide Run, EnabledRun;
    TakeAndClose(Apply(st, WriterFinish(true)));
    RunMore(st, WriterFinish(true), [WriterTake, PongPush, ReadEnd, Abort]);
    assert [WriterFinish(true)] + [WriterTake, PongPush, ReadEnd, Abort]
        == [WriterFinish(true), WriterTake, PongPush, ReadEnd, Abort];
  }

  /** Once reading has begun the connection can be closed: at once while it reads, and soon while a pong waits. */
  lemma CanClose(st: State) returns (events: seq<Event>)
    requires Invariant(st) && !Early(st)
    ensures EnabledRun(st, events) && Run(st, events).phase.Closed?
    ensures |events| <= if st.phase.Ponging? then 5 else 2
  {
    hide Ordered, Prefixes, Filter;
    match st.phase
    case Closed =>
      events := [];
    case Closing =>
      events := [Abort];
      assert events[1..] == [];
    case Receiving =>
      events := [ReadEnd, Abort];
      assert events[1..] == [Abort] && [Abort][1..] == [];
    case Ponging(_) =>
      if st.writer.Stopped? {
        events := [PongFail, Abort];
        assert events[1..] == [Abort] && [Abort][1..] == [];
      } else if |st.internal| < CAPACITY {
        events := [PongPush, ReadEnd, Abort];
        PushAndClose(st);
      } else if st.writer.Writing? {
        events := [WriterFinish(true), WriterTake, PongPush, ReadEnd, Abort];
        FinishAndClose(st);
      } else {
        events := [WriterTake, PongPush, ReadEnd, Abort];
        TakeAndClose(st);
      }
  }
}
