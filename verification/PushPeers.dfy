/**
 Who is registered with which sink, read off the events alone, and what that means for a broadcast from its two
 snapshots to its last send.
 */
module PushPeers {
  import opened Prelude
  import opened PushIndex
  import opened PushSystem

  function SinkOf(ix: Index, p: Peer): Option<Sink> {
    if p in ix.peers then Some(ix.peers[p]) else None
  }

  /** After a registration the peer has the new sink, and nothing else has changed anywhere. */
  lemma RegisterStores(ix: Index, p: Peer, sink: Sink)
    ensures var next := Finish(ix, Register(p, sink));
      && p in next.peers && next.peers[p] == sink
      && (forall q :: q != p ==> SinkOf(next, q) == SinkOf(ix, q))
      && next.peerSessions == ix.peerSessions && next.sessionPeers == ix.sessionPeers
  {
  }

  /** The event registers `p`. */
  predicate Registers(st: State, e: Event, p: Peer)
    requires Enabled(st, e)
  {
    e.Tick? && st.tasks[e.id].Plain? && st.tasks[e.id].op.Register? && st.tasks[e.id].op.p == p
  }

  /** It removes `p`: the first step of `unregister`, called for or at the end of a broadcast. */
  predicate Removes(st: State, e: Event, p: Peer)
    requires Enabled(st, e)
  {
    e.Tick? && (st.tasks[e.id].Plain? || st.tasks[e.id].Cleaning?) && st.tasks[e.id].op == Unregister(p)
  }

  /** The sink of the last registration of `p` that no removal follows; `before` if there is neither. */
  function LastSink(st: State, events: seq<Event>, p: Peer, before: Option<Sink>): Option<Sink>
    requires EnabledRun(st, events)
    decreases |events|
  {
    if events == [] then before
    else
      var e := events[0];
      var now :=
        if Registers(st, e, p) then Some(st.tasks[e.id].op.sink) else if Removes(st, e, p) then None else before;
      LastSink(Apply(st, e), events[1..], p, now)
  }

  /** Only clean-ups by `unregister` run inside a broadcast. */
  predicate CleansOnly(st: State) {
    forall id :: id in st.tasks && st.tasks[id].Cleaning? ==> !st.tasks[id].op.Register?
  }

  lemma StepSink(ix: Index, op: Op, p: Peer)
    ensures SinkOf(StepOp(ix, op).0, p) ==
      if op.Register? && op.p == p then Some(op.sink) else if op == Unregister(p) then None else SinkOf(ix, p)
  {
  }

  lemma EventSink(st: State, e: Event, p: Peer)
    requires Enabled(st, e) && CleansOnly(st)
    ensures SinkOf(Apply(st, e).ix, p) ==
      if Registers(st, e, p) then Some(st.tasks[e.id].op.sink) else if Removes(st, e, p) then None
      else SinkOf(st.ix, p)
  {
    hide StepOp, StepTask, Note;
    if e.Tick? {
      QuietIndex(st, e);
      var task := st.tasks[e.id];
      if task.Plain? || task.Cleaning? {
        StepSink(st.ix, task.op, p);
      }
    }
  }

  lemma CleansStays(st: State, e: Event)
    requires Enabled(st, e) && CleansOnly(st)
    ensures CleansOnly(Apply(st, e))
  {
    hide Note, Targets, Leave, Enter;
  }

  lemma {:induction false} RunSink(st: State, events: seq<Event>, p: Peer)
    requires EnabledRun(st, events) && CleansOnly(st)
    ensures SinkOf(Run(st, events).ix, p) == LastSink(st, events, p, SinkOf(st.ix, p))
    decreases |events|
  {
    hide Apply, Enabled, CleansOnly, SinkOf;
    if events != [] {
      EventSink(st, events[0], p);
      CleansStays(st, events[0]);
      RunSink(Apply(st, events[0]), events[1..], p);
    }
  }

  /** Over every run a peer has the sink it was last registered with, if it was not removed since, and else none. */
  lemma PeersFromEvents(events: seq<Event>, p: Peer)
    requires EnabledRun(INITIAL, events)
    ensures SinkOf(Run(INITIAL, events).ix, p) == LastSink(INITIAL, events, p, None)
  {
    RunSink(INITIAL, events, p);
  }

  /** Under a name not used yet exactly the calls of the class begin, from any state, and from their first step. */
  lemma BeginsIff(st: State, id: Id, task: Task)
    requires id !in st.used
    ensures Enabled(st, Start(id, task)) <==>
      || (exists p, sink :: task == Plain(Register(p, sink)))
      || (exists p :: task == Plain(Unregister(p)))
      || (exists p, s :: task == Plain(Subscribe(p, s)))
      || (exists s, excluded :: task == Announce(s, excluded))
  {
    if Enabled(st, Start(id, task)) {
      match task
      case Plain(Register(p, sink)) => assert task == Plain(Register(p, sink));
      case Plain(Unregister(p)) => assert task == Plain(Unregister(p));
      case Plain(Subscribe(p, s)) => assert task == Plain(Subscribe(p, s));
      case Announce(s, excluded) => assert task == Announce(s, excluded);
    }
  }

  // ----- a broadcast from its first snapshot to its last send -----

  /** The broadcast has taken its first snapshot. */
  predicate Announced(st: State, id: Id) {
    id in st.log && id in st.used && (id in st.tasks ==> Broadcasting(st.tasks[id]))
  }

  /** And its second. */
  predicate Collected(st: State, id: Id) {
    Announced(st, id) && (id in st.tasks ==> !st.tasks[id].Collect?)
  }

  /** The first snapshot: whom to leave out, as asked for, and all peers of the session, each once. */
  lemma AnnounceSees(st: State, e: Event)
    requires AlwaysHolds(st) && Enabled(st, e) && e.Tick? && st.tasks[e.id].Announce? && e.order != []
    ensures Announced(Apply(st, e), e.id)
    ensures var r := Apply(st, e).log[e.id];
      && r.excluded == st.tasks[e.id].excluded && Distinct(r.listed)
      && forall p :: p in r.listed <==> Listed(st.ix.sessionPeers, p, st.tasks[e.id].s)
  {
    var listed := set p | p in e.order;
    assert listed == PeersOf(st.ix, st.tasks[e.id].s);
    forall p ensures p in e.order <==> Listed(st.ix.sessionPeers, p, st.tasks[e.id].s) {
      assert p in e.order <==> p in listed;
    }
  }

  /** The second: the sinks as they are registered at that moment. */
  lemma CollectSees(st: State, e: Event)
    requires AlwaysHolds(st) && Enabled(st, e) && e.Tick? && st.tasks[e.id].Collect?
    ensures Collected(Apply(st, e), e.id) && Apply(st, e).log[e.id].sinks == st.ix.peers
    ensures e.id in st.log && Apply(st, e).log[e.id].listed == st.log[e.id].listed
    ensures Apply(st, e).log[e.id].excluded == st.log[e.id].excluded
  {
    hide Targets, RecordHolds;
  }

  lemma SnapshotsStayOnce(st: State, e: Event, id: Id)
    requires Enabled(st, e) && Announced(st, id)
    ensures var next := Apply(st, e);
      && Announced(next, id) && (Collected(st, id) ==> Collected(next, id))
      && next.log[id].listed == st.log[id].listed && next.log[id].excluded == st.log[id].excluded
      && (Collected(st, id) ==> next.log[id].sinks == st.log[id].sinks)
  {
    hide StepOp, Targets;
  }

  lemma {:induction false} SnapshotsStay(st: State, events: seq<Event>, id: Id)
    requires EnabledRun(st, events) && Announced(st, id)
    ensures var last := Run(st, events);
      && Announced(last, id)
      && last.log[id].listed == st.log[id].listed && last.log[id].excluded == st.log[id].excluded
      && (Collected(st, id) ==> last.log[id].sinks == st.log[id].sinks)
    decreases |events|
  {
    hide Apply, Enabled;
    if events != [] {
      SnapshotsStayOnce(st, events[0], id);
      SnapshotsStay(Apply(st, events[0]), events[1..], id);
    }
  }

  predicate Attempted(r: Record, p: Peer, sink: Sink) {
    exists i :: 0 <= i < |r.sent| && r.sent[i].p == p && r.sent[i].sink == sink
  }

  /**
   Whatever runs in between: a finished broadcast to `s` has written to exactly those peers that were in the session
   at its first snapshot, were not left out, and were registered at its second, each with the sink it had then.
   */
  lemma BroadcastWrites(st: State, announce: Event, between: seq<Event>, collect: Event, after: seq<Event>)
    requires AlwaysHolds(st) && Enabled(st, announce) && announce.Tick? && st.tasks[announce.id].Announce?
    requires announce.order != [] && EnabledRun(Apply(st, announce), between)
    requires var mid := Run(Apply(st, announce), between);
      && Enabled(mid, collect) && collect.Tick? && collect.id == announce.id && mid.tasks[collect.id].Collect?
      && EnabledRun(Apply(mid, collect), after) && announce.id !in Run(Apply(mid, collect), after).tasks
    ensures var mid := Run(Apply(st, announce), between);
      var last := Run(Apply(mid, collect), after);
      announce.id in last.log &&
      forall p: Peer, sink: Sink :: Attempted(last.log[announce.id], p, sink) <==>
        && Listed(st.ix.sessionPeers, p, st.tasks[announce.id].s) && st.tasks[announce.id].excluded != Some(p)
        && SinkOf(mid.ix, p) == Some(sink)
  {
    hide Apply, Enabled, EnabledRun, Run, AlwaysHolds, Listed, RecordHolds;
    var id, first := announce.id, Apply(st, announce);
    var mid := Run(first, between);
    var last := Run(Apply(mid, collect), after);
    AnnounceSees(st, announce);
    ApplyAlways(st, announce);
    RunAlways(first, between);
    SnapshotsStay(first, between, id);
    CollectSees(mid, collect);
    ApplyAlways(mid, collect);
    RunAlways(Apply(mid, collect), after);
    SnapshotsStay(Apply(mid, collect), after, id);
    FinishedRecord(last, id);
    RecordWrites(last.log[id]);
  }

  lemma FinishedRecord(st: State, id: Id)
    requires AlwaysHolds(st) && id in st.log && id !in st.tasks
    ensures var r := st.log[id];
      Distinct(r.listed) && SentPrefix(r) && |r.sent| == |Targets(r.listed, r.excluded, r.sinks)|
  {
    assert RecordHolds(st, id);
  }

  lemma RecordWrites(r: Record)
    requires Distinct(r.listed) && SentPrefix(r) && |r.sent| == |Targets(r.listed, r.excluded, r.sinks)|
    ensures forall p: Peer, sink: Sink :: Attempted(r, p, sink) <==>
      p in r.listed && r.excluded != Some(p) && p in r.sinks && r.sinks[p] == sink
  {
    hide Targets, SentPrefix;
    RecordSafe(r);
    RecordComplete(r);
    forall p: Peer, sink: Sink
      ensures Attempted(r, p, sink) <==> p in r.listed && r.excluded != Some(p) && p in r.sinks && r.sinks[p] == sink
    {
      if Attempted(r, p, sink) {
        var i :| 0 <= i < |r.sent| && r.sent[i].p == p && r.sent[i].sink == sink;
        assert r.sent[i] in r.sent;
      }
      if p in r.listed && r.excluded != Some(p) && p in r.sinks && r.sinks[p] == sink {
        var i :| 0 <= i < |r.sent| && r.sent[i].p == p;
        assert r.sent[i] in r.sent;
      }
    }
  }
}
