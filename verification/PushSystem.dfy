/**
 `PushCenter` under concurrency: any number of calls in flight, one lock-sized step at a time, in
 any order.  A broadcast is a call too; the history `log` records what each one saw and sent.
 */
module PushSystem {
  import opened Prelude
  import opened PushIndex

  type Id = nat

  datatype Attempt = Attempt(p: Peer, sink: Sink, delivered: bool)

  datatype Task =
    | Plain(op: Op)
    | Announce(s: Session, excluded: Option<Peer>)
    | Collect(excluded: Option<Peer>, listed: seq<Peer>)
    | Sending(targets: seq<(Peer, Sink)>, next: nat, stale: seq<Peer>)
    | Cleaning(op: Op, rest: seq<Peer>)

  /** The two snapshots of a broadcast and its send attempts. */
  datatype Record = Record(excluded: Option<Peer>, listed: seq<Peer>, sinks: map<Peer, Sink>, sent: seq<Attempt>)

  datatype State = State(ix: Index, tasks: map<Id, Task>, used: set<Id>, log: map<Id, Record>)

  const INITIAL := State(EMPTY, map[], {}, map[])

  /** `order` is the order in which a hash set is listed; `delivered` the outcome of a send. */
  datatype Event = Start(id: Id, task: Task) | Tick(id: Id, order: seq<Peer>, delivered: bool)

  /** `filter` and `filter_map` over the listed peers. */
  function Targets(listed: seq<Peer>, excluded: Option<Peer>, sinks: map<Peer, Sink>): seq<(Peer, Sink)> {
    if listed == [] then []
    else
      var rest := Targets(listed[1..], excluded, sinks);
      if excluded != Some(listed[0]) && listed[0] in sinks then [(listed[0], sinks[listed[0]])] + rest else rest
  }

  function Cleanup(stale: seq<Peer>): Option<Task> {
    if stale == [] then None else Some(Cleaning(Unregister(stale[0]), stale[1..]))
  }

  function StepTask(ix: Index, task: Task, order: seq<Peer>, delivered: bool): (Index, Option<Task>) {
    match task
    case Plain(op) =>
      var (next, rest) := StepOp(ix, op);
      (next, if rest.None? then None else Some(Plain(rest.value)))
    case Announce(_, excluded) => (ix, if order == [] then None else Some(Collect(excluded, order)))
    case Collect(excluded, listed) => (ix, Some(Sending(Targets(listed, excluded, ix.peers), 0, [])))
    case Sending(targets, next, stale) =>
      (ix, if next < |targets| then
             Some(Sending(targets, next + 1, if delivered then stale else stale + [targets[next].0]))
           else Cleanup(stale))
    case Cleaning(op, rest) =>
      var (next, more) := StepOp(ix, op);
      (next, if more.Some? then Some(Cleaning(more.value, rest)) else Cleanup(rest))
  }

  function Note(log: map<Id, Record>, ix: Index, id: Id, task: Task, order: seq<Peer>, delivered: bool): map<Id,
                Record> {
    match task
    case Announce(_, excluded) => if order == [] then log else log[id := Record(excluded, order, map[], [])]
    case Collect(_, _) => if id in log then log[id := log[id].(sinks := ix.peers)] else log
    case Sending(targets, next, _) =>
      if id in log && next < |targets| then
        log[id := log[id].(sent := log[id].sent + [Attempt(targets[next].0, targets[next].1, delivered)])]
      else log
    case _ => log
  }

  predicate ListsExactly(order: seq<Peer>, peers: set<Peer>) {
    Distinct(order) && (set p | p in order) == peers
  }

  function PeersOf(ix: Index, s: Session): set<Peer> {
    if s in ix.sessionPeers then ix.sessionPeers[s] else {}
  }

  predicate Enabled(st: State, e: Event) {
    match e
    case Start(id, task) => id !in st.used && (task.Announce? || (task.Plain? && Call(task.op)))
    case Tick(id, order, _) =>
      id in st.tasks && (st.tasks[id].Announce? ==> ListsExactly(order, PeersOf(st.ix, st.tasks[id].s)))
  }

  function Apply(st: State, e: Event): State
    requires Enabled(st, e)
  {
    match e
    case Start(id, task) => st.(tasks := st.tasks[id := task], used := st.used + {id})
    case Tick(id, order, delivered) =>
      var task := st.tasks[id];
      var (ix, rest) := StepTask(st.ix, task, order, delivered);
      State(ix, if rest.None? then st.tasks - {id} else st.tasks[id := rest.value], st.used,
            Note(st.log, st.ix, id, task, order, delivered))
  }

  predicate EnabledRun(st: State, events: seq<Event>)
    decreases |events|
  {
    events == [] || (Enabled(st, events[0]) && EnabledRun(Apply(st, events[0]), events[1..]))
  }

  function Run(st: State, events: seq<Event>): State
    requires EnabledRun(st, events)
    decreases |events|
  {
    if events == [] then st else Run(Apply(st, events[0]), events[1..])
  }

  // ----- what holds under every interleaving -----

  /** The attempts made are the leading targets, in order, each once. */
  predicate SentPrefix(r: Record) {
    var targets := Targets(r.listed, r.excluded, r.sinks);
    && |r.sent| <= |targets|
    && forall i :: 0 <= i < |r.sent| ==> r.sent[i].p == targets[i].0 && r.sent[i].sink == targets[i].1
  }

  function Failed(sent: seq<Attempt>): seq<Peer> {
    if sent == [] then []
    else if Last(sent).delivered then Failed(sent[..|sent| - 1])
    else Failed(sent[..|sent| - 1]) + [Last(sent).p]
  }

  predicate EndsWith<T(==)>(s: seq<T>, tail: seq<T>) {
    |tail| <= |s| && s[|s| - |tail|..] == tail
  }

  predicate RecordHolds(st: State, id: Id)
    requires id in st.log
  {
    var r := st.log[id];
    Distinct(r.listed) && SentPrefix(r) &&
    if id !in st.tasks then |r.sent| == |Targets(r.listed, r.excluded, r.sinks)|
    else if st.tasks[id].Cleaning? then
      && |r.sent| == |Targets(r.listed, r.excluded, r.sinks)|
      && EndsWith(Failed(r.sent), [st.tasks[id].op.p] + st.tasks[id].rest)
    else if st.tasks[id].Collect? then
      r == Record(st.tasks[id].excluded, st.tasks[id].listed, map[], [])
    else if st.tasks[id].Sending? then
      && st.tasks[id].targets == Targets(r.listed, r.excluded, r.sinks)
      && st.tasks[id].next == |r.sent| && st.tasks[id].stale == Failed(r.sent)
    else false
  }

  predicate Broadcasting(task: Task) {
    task.Collect? || task.Sending? || task.Cleaning?
  }

  ghost predicate AlwaysHolds(st: State) {
    && NoEmptySession(st.ix)
    && (forall id :: id in st.tasks || id in st.log ==> id in st.used)
    && (forall id :: id in st.log ==> RecordHolds(st, id))
    && (forall id :: id in st.tasks && Broadcasting(st.tasks[id]) ==> id in st.log)
  }

  lemma {:induction false} TargetsEmpty(listed: seq<Peer>, excluded: Option<Peer>)
    ensures Targets(listed, excluded, map[]) == []
  {
    if listed != [] {
      TargetsEmpty(listed[1..], excluded);
    }
  }

  /** A peer is a target exactly when it is in both snapshots and not excluded; no peer twice. */
  lemma {:induction false} TargetsAre(listed: seq<Peer>, excluded: Option<Peer>, sinks: map<Peer, Sink>)
    requires Distinct(listed)
    ensures var ts := Targets(listed, excluded, sinks);
      && (forall p, k :: (p, k) in ts <==> p in listed && excluded != Some(p) && p in sinks && sinks[p] == k)
      && (forall i, j :: 0 <= i < j < |ts| ==> ts[i].0 != ts[j].0)
  {
    if listed != [] {
      assert listed == [listed[0]] + listed[1..];
      assert listed[0] !in listed[1..];
      TargetsAre(listed[1..], excluded, sinks);
      var rest := Targets(listed[1..], excluded, sinks);
      forall i | 0 <= i < |rest| ensures rest[i].0 in listed[1..] { assert (rest[i].0, rest[i].1) in rest; }
    }
  }

  lemma CleaningKeepsRecord(st: State, e: Event)
    requires AlwaysHolds(st) && Enabled(st, e) && e.Tick? && st.tasks[e.id].Cleaning?
    ensures RecordHolds(Apply(st, e), e.id)
  {
    hide NoEmptySession, Targets, Failed;
    assert RecordHolds(st, e.id);
    var Cleaning(op, rest) := st.tasks[e.id];
    var (_, more) := StepOp(st.ix, op);
    if more.Some? {
      assert more.value.p == op.p;
    } else if rest != [] {
      assert [rest[0]] + rest[1..] == rest;
      assert ([op.p] + rest)[1..] == rest;
    }
  }

  lemma AnnounceKeepsRecord(st: State, e: Event)
    requires Enabled(st, e) && e.Tick? && st.tasks[e.id].Announce? && e.order != []
    ensures RecordHolds(Apply(st, e), e.id)
  {
    hide Targets, Failed;
    TargetsEmpty(e.order, st.tasks[e.id].excluded);
    NothingFailed();
  }

  lemma NothingFailed()
    ensures Failed([]) == []
  {
  }

  lemma CollectKeepsRecord(st: State, e: Event)
    requires AlwaysHolds(st) && Enabled(st, e) && e.Tick? && st.tasks[e.id].Collect?
    ensures RecordHolds(Apply(st, e), e.id)
  {
    hide NoEmptySession, Targets, Failed;
    assert RecordHolds(st, e.id);
    NothingFailed();
  }

  lemma SendingKeepsRecord(st: State, e: Event)
    requires AlwaysHolds(st) && Enabled(st, e) && e.Tick? && st.tasks[e.id].Sending?
    ensures RecordHolds(Apply(st, e), e.id)
  {
    hide NoEmptySession, Targets, Failed;
    assert RecordHolds(st, e.id);
    var Sending(targets, n, stale) := st.tasks[e.id];
    var r, q := st.log[e.id], Apply(st, e).log[e.id];
    if n < |targets| {
      var a := Attempt(targets[n].0, targets[n].1, e.delivered);
      assert q.sent == r.sent + [a];
      FailedMore(r.sent, a);
    } else if stale != [] {
      assert [stale[0]] + stale[1..] == stale;
    }
  }

  lemma FailedMore(sent: seq<Attempt>, a: Attempt)
    ensures Failed(sent + [a]) == if a.delivered then Failed(sent) else Failed(sent) + [a.p]
  {
    assert (sent + [a])[..|sent|] == sent;
  }

  lemma TickKeepsRecord(st: State, e: Event)
    requires AlwaysHolds(st) && Enabled(st, e) && e.Tick?
    ensures var next := Apply(st, e); e.id in next.log ==> RecordHolds(next, e.id)
  {
    hide RecordHolds, NoEmptySession;
    var task := st.tasks[e.id];
    if task.Announce? {
      if e.order != [] {
        AnnounceKeepsRecord(st, e);
      } else {
        SilentAnnounce(st, e);
      }
    } else if task.Collect? {
      CollectKeepsRecord(st, e);
    } else if task.Sending? {
      SendingKeepsRecord(st, e);
    } else if task.Cleaning? {
      CleaningKeepsRecord(st, e);
    } else {
      PlainIsUnlogged(st, e);
    }
  }

  /** A record belongs to a broadcast behind its first snapshot, or to a finished one. */
  lemma LoggedTask(st: State, id: Id)
    requires AlwaysHolds(st) && id in st.log
    ensures id in st.tasks ==> Broadcasting(st.tasks[id])
  {
    hide NoEmptySession, Targets, Failed, SentPrefix;
    assert RecordHolds(st, id);
  }

  /** A broadcast to nobody leaves no record, and a plain call never has one. */
  lemma SilentAnnounce(st: State, e: Event)
    requires AlwaysHolds(st) && Enabled(st, e) && e.Tick? && st.tasks[e.id].Announce? && e.order == []
    ensures e.id !in Apply(st, e).log
  {
    hide AlwaysHolds, StepTask;
    if e.id in st.log {
      LoggedTask(st, e.id);
    }
  }

  lemma PlainIsUnlogged(st: State, e: Event)
    requires AlwaysHolds(st) && Enabled(st, e) && e.Tick? && st.tasks[e.id].Plain?
    ensures e.id !in Apply(st, e).log
  {
    hide AlwaysHolds, StepTask;
    if e.id in st.log {
      LoggedTask(st, e.id);
    }
  }

  lemma ApplyAlways(st: State, e: Event)
    requires AlwaysHolds(st) && Enabled(st, e)
    ensures AlwaysHolds(Apply(st, e))
  {
    hide NoEmptySession, StepTask, Targets, Failed;
    var next := Apply(st, e);
    TickKeepsNonEmpty(st, e);
    if e.Tick? {
      TickKeepsRecord(st, e);
    }
    forall id | id in next.log ensures RecordHolds(next, id) {
      if e.Start? || id != e.id {
        assert RecordHolds(st, id);
      }
    }
    TickKeepsLogged(st, e);
  }

  lemma TickKeepsNonEmpty(st: State, e: Event)
    requires NoEmptySession(st.ix) && Enabled(st, e)
    ensures NoEmptySession(Apply(st, e).ix)
  {
    hide StepOp, NoEmptySession;
    if e.Tick? {
      var task := st.tasks[e.id];
      if task.Plain? || task.Cleaning? {
        StepKeepsNonEmpty(st.ix, task.op);
      }
    }
  }

  lemma TickKeepsLogged(st: State, e: Event)
    requires AlwaysHolds(st) && Enabled(st, e)
    ensures var next := Apply(st, e);
      && (forall id :: id in next.tasks || id in next.log ==> id in next.used)
      && (forall id :: id in next.tasks && Broadcasting(next.tasks[id]) ==> id in next.log)
  {
    hide NoEmptySession, StepOp, Targets, RecordHolds;
  }

  lemma {:induction false} RunAlways(st: State, events: seq<Event>)
    requires AlwaysHolds(st) && EnabledRun(st, events)
    ensures AlwaysHolds(Run(st, events))
    decreases |events|
  {
    if events != [] {
      ApplyAlways(st, events[0]);
      RunAlways(Apply(st, events[0]), events[1..]);
    }
  }

  /** Broadcasts are safe whatever overlaps them, and no empty session is ever stored. */
  lemma BroadcastSafe(events: seq<Event>, id: Id)
    requires EnabledRun(INITIAL, events)
    ensures NoEmptySession(Run(INITIAL, events).ix)
    ensures var st := Run(INITIAL, events);
      id in st.log ==>
        var r := st.log[id];
        && (forall i, j :: 0 <= i < j < |r.sent| ==> r.sent[i].p != r.sent[j].p)
        && (forall a :: a in r.sent ==>
              a.p in r.listed && a.p in r.sinks && a.sink == r.sinks[a.p] && r.excluded != Some(a.p))
        && (id in st.tasks && st.tasks[id].Cleaning? ==> st.tasks[id].op.p in Failed(r.sent))
        && (id !in st.tasks ==> forall p :: p in r.listed && p in r.sinks && r.excluded != Some(p) ==>
              exists i :: 0 <= i < |r.sent| && r.sent[i].p == p)
  {
    RunAlways(INITIAL, events);
    var st := Run(INITIAL, events);
    if id in st.log {
      assert RecordHolds(st, id);
      RecordSafe(st.log[id]);
      if id in st.tasks && st.tasks[id].Cleaning? {
        var tail := [st.tasks[id].op.p] + st.tasks[id].rest;
        assert tail[0] in tail;
      }
      if id !in st.tasks {
        RecordComplete(st.log[id]);
      }
    }
  }

  lemma RecordSafe(r: Record)
    requires Distinct(r.listed) && SentPrefix(r)
    ensures forall i, j :: 0 <= i < j < |r.sent| ==> r.sent[i].p != r.sent[j].p
    ensures forall a :: a in r.sent ==>
      a.p in r.listed && a.p in r.sinks && a.sink == r.sinks[a.p] && r.excluded != Some(a.p)
  {
    var targets := Targets(r.listed, r.excluded, r.sinks);
    TargetsAre(r.listed, r.excluded, r.sinks);
    forall a | a in r.sent
      ensures a.p in r.listed && a.p in r.sinks && a.sink == r.sinks[a.p] && r.excluded != Some(a.p)
    {
      var i :| 0 <= i < |r.sent| && r.sent[i] == a;
      assert (targets[i].0, targets[i].1) in targets;
    }
  }

  lemma RecordComplete(r: Record)
    requires Distinct(r.listed) && SentPrefix(r) && |r.sent| == |Targets(r.listed, r.excluded, r.sinks)|
    ensures forall p :: p in r.listed && p in r.sinks && r.excluded != Some(p) ==>
      exists i :: 0 <= i < |r.sent| && r.sent[i].p == p
  {
    var targets := Targets(r.listed, r.excluded, r.sinks);
    TargetsAre(r.listed, r.excluded, r.sinks);
    forall p | p in r.listed && p in r.sinks && r.excluded != Some(p)
      ensures exists i :: 0 <= i < |r.sent| && r.sent[i].p == p
    {
      assert (p, r.sinks[p]) in targets;
      var i :| 0 <= i < |targets| && targets[i] == (p, r.sinks[p]);
      assert r.sent[i].p == p;
    }
  }

  // ----- what holds when no two calls on one peer overlap -----

  function BusyTask(task: Task): Option<Peer> {
    match task
    case Plain(op) => Busy(op)
    case Cleaning(op, _) => Busy(op)
    case _ => None
  }

  /** No two calls in flight are about to change the rows of the same peer. */
  predicate Exclusive(st: State) {
    forall i, j :: i in st.tasks && j in st.tasks && i != j && BusyTask(st.tasks[i]).Some? ==>
      BusyTask(st.tasks[i]) != BusyTask(st.tasks[j])
  }

  predicate ExclusiveRun(st: State, events: seq<Event>)
    requires EnabledRun(st, events)
    decreases |events|
  {
    Exclusive(st) && (events == [] || ExclusiveRun(Apply(st, events[0]), events[1..]))
  }

  ghost predicate StageTask(ix: Index, task: Task) {
    BusyTask(task).Some? ==> Stage(ix, task.op)
  }

  predicate Untouched(st: State, p: Peer) {
    forall id :: id in st.tasks ==> BusyTask(st.tasks[id]) != Some(p)
  }

  ghost predicate Placed(st: State) {
    && (forall id :: id in st.tasks ==> StageTask(st.ix, st.tasks[id]))
    && (forall p :: Untouched(st, p) ==> Agree(st.ix, p))
  }

  /** A tick leaves the other calls in their stages and every untouched peer in agreement. */
  lemma TickPlaced(st: State, e: Event)
    requires Placed(st) && Exclusive(st) && Enabled(st, e) && e.Tick? && Exclusive(Apply(st, e))
    ensures Placed(Apply(st, e))
  {
    hide StepOp, Stage, Agree;
    var next := Apply(st, e);
    var task := st.tasks[e.id];
    assert StageTask(st.ix, task);
    if BusyTask(task).None? {
      QuietTickPlaced(st, e);
    } else {
      StepStage(st.ix, task.op);
      forall p | BusyTask(task) != Some(p) && Agree(st.ix, p) ensures Agree(next.ix, p) {
        OthersAgree(st.ix, task.op, p);
      }
      forall id | id in next.tasks && id != e.id ensures StageTask(next.ix, next.tasks[id]) {
        if BusyTask(st.tasks[id]).Some? {
          OthersStage(st.ix, task.op, st.tasks[id].op);
        }
      }
      forall p | Untouched(next, p) ensures Agree(next.ix, p) {
        if BusyTask(task) != Some(p) {
          UntouchedBefore(st, e, p);
        } else {
          var (after, more) := StepOp(st.ix, task.op);
          assert next.ix == after && p == task.op.p;
          assert more.Some? ==> e.id in next.tasks && BusyTask(next.tasks[e.id]) == Some(p);
          assert more.None?;
        }
      }
      if e.id in next.tasks && task.Cleaning? && StepOp(st.ix, task.op).1.None? {
        CleanNextPlaced(st, e);
      }
    }
  }

  lemma UntouchedBefore(st: State, e: Event, p: Peer)
    requires Enabled(st, e) && e.Tick? && Untouched(Apply(st, e), p) && BusyTask(st.tasks[e.id]) != Some(p)
    ensures Untouched(st, p)
  {
    hide StepTask;
    forall id | id in st.tasks ensures BusyTask(st.tasks[id]) != Some(p) {
      assert id != e.id ==> id in Apply(st, e).tasks && Apply(st, e).tasks[id] == st.tasks[id];
    }
  }

  lemma OthersAgree(ix: Index, op: Op, p: Peer)
    requires Busy(op) != Some(p) && Agree(ix, p)
    ensures Agree(StepOp(ix, op).0, p)
  {
    hide StepOp;
    StepOthers(ix, op, p);
  }

  lemma OthersStage(ix: Index, op: Op, other: Op)
    requires Busy(other).Some? && Busy(other) != Busy(op) && Stage(ix, other)
    ensures Stage(StepOp(ix, op).0, other)
  {
    hide StepOp;
    StepOthers(ix, op, other.p);
  }

  /** The next stale peer was untouched before its turn, or its rows are already settled. */
  lemma CleanNextPlaced(st: State, e: Event)
    requires Placed(st) && Exclusive(st) && Enabled(st, e) && e.Tick? && Exclusive(Apply(st, e))
    requires st.tasks[e.id].Cleaning? && StepOp(st.ix, st.tasks[e.id].op).1.None? && st.tasks[e.id].rest != []
    ensures StageTask(Apply(st, e).ix, Apply(st, e).tasks[e.id])
  {
    hide StepOp, Stage, Agree;
    var task := st.tasks[e.id];
    var next := Apply(st, e);
    var p := task.rest[0];
    assert next.tasks[e.id] == Cleaning(Unregister(p), task.rest[1..]);
    assert StageTask(st.ix, task);
    StepStage(st.ix, task.op);
    if Busy(task.op) != Some(p) {
      forall id | id in st.tasks ensures BusyTask(st.tasks[id]) != Some(p) {
        assert id != e.id ==> next.tasks[id] == st.tasks[id];
      }
      assert Untouched(st, p);
      OthersAgree(st.ix, task.op, p);
    }
    StageOfUnregister(next.ix, p);
  }

  lemma StageOfUnregister(ix: Index, p: Peer)
    requires Agree(ix, p)
    ensures Stage(ix, Unregister(p))
  {
  }

  /** Steps that change no row: registration, snapshots, sends, and the start of a clean-up. */
  lemma QuietTickPlaced(st: State, e: Event)
    requires Placed(st) && Exclusive(st) && Enabled(st, e) && e.Tick? && Exclusive(Apply(st, e))
    requires BusyTask(st.tasks[e.id]).None?
    ensures Placed(Apply(st, e))
  {
    hide Stage, Agree, StepTask;
    var next := Apply(st, e);
    var task := st.tasks[e.id];
    QuietIndex(st, e);
    forall p | Agree(st.ix, p) ensures Agree(next.ix, p) {
      QuietAgree(st, e, p);
    }
    forall id | id in next.tasks && id != e.id ensures StageTask(next.ix, next.tasks[id]) {
      assert StageTask(st.ix, st.tasks[id]);
      if BusyTask(st.tasks[id]).Some? && (task.Plain? || task.Cleaning?) {
        OthersStage(st.ix, task.op, st.tasks[id].op);
      }
    }
    forall p | Untouched(next, p) ensures Agree(next.ix, p) {
      UntouchedBefore(st, e, p);
    }
    if e.id in next.tasks && BusyTask(next.tasks[e.id]).Some? {
      QuietTickStarts(st, e);
    }
  }

  lemma QuietIndex(st: State, e: Event)
    requires Enabled(st, e) && e.Tick?
    ensures var task := st.tasks[e.id];
      Apply(st, e).ix == if task.Plain? || task.Cleaning? then StepOp(st.ix, task.op).0 else st.ix
  {
    hide StepOp, Note, Targets;
  }

  lemma QuietAgree(st: State, e: Event, p: Peer)
    requires Enabled(st, e) && e.Tick? && BusyTask(st.tasks[e.id]).None? && Agree(st.ix, p)
    ensures Agree(Apply(st, e).ix, p)
  {
    hide Apply, Agree, StepOp;
    QuietIndex(st, e);
    var task := st.tasks[e.id];
    if task.Plain? || task.Cleaning? {
      OthersAgree(st.ix, task.op, p);
    }
  }

  lemma QuietTickStarts(st: State, e: Event)
    requires Placed(st) && Enabled(st, e) && e.Tick? && Exclusive(Apply(st, e)) && BusyTask(st.tasks[e.id]).None?
    requires e.id in Apply(st, e).tasks && BusyTask(Apply(st, e).tasks[e.id]).Some?
    ensures StageTask(Apply(st, e).ix, Apply(st, e).tasks[e.id])
  {
    hide Stage, Agree;
    var next := Apply(st, e);
    assert next.tasks[e.id].Cleaning? && next.tasks[e.id].op.Unregister?;
    hide StepTask;
    var p := next.tasks[e.id].op.p;
    forall id | id in st.tasks ensures BusyTask(st.tasks[id]) != Some(p) {
      assert id != e.id ==> next.tasks[id] == st.tasks[id];
    }
    assert Untouched(st, p);
    QuietAgree(st, e, p);
    StageOfUnregister(next.ix, p);
  }

  lemma StartPlaced(st: State, e: Event)
    requires Placed(st) && Enabled(st, e) && e.Start? && Exclusive(Apply(st, e)) && e.id !in st.tasks
    ensures Placed(Apply(st, e))
  {
    hide Agree;
    var next := Apply(st, e);
    if BusyTask(e.task).Some? {
      var p := e.task.op.p;
      forall id | id in st.tasks ensures BusyTask(st.tasks[id]) != Some(p) {
        assert next.tasks[id] == st.tasks[id] && next.tasks[e.id] == e.task;
      }
      assert Untouched(st, p);
    }
    forall p | Untouched(next, p) ensures Agree(next.ix, p) {
      forall id | id in st.tasks ensures BusyTask(st.tasks[id]) != Some(p) {
        assert next.tasks[id] == st.tasks[id];
      }
      assert Untouched(st, p);
    }
  }

  lemma {:induction false} RunPlaced(st: State, events: seq<Event>)
    requires Placed(st) && AlwaysHolds(st) && EnabledRun(st, events) && ExclusiveRun(st, events)
    ensures Placed(Run(st, events))
    decreases |events|
  {
    hide Placed, AlwaysHolds, Apply, Enabled, Exclusive;
    if events != [] {
      ApplyAlways(st, events[0]);
      ApplyPlaced(st, events[0]);
      RunPlaced(Apply(st, events[0]), events[1..]);
    }
  }

  lemma ApplyPlaced(st: State, e: Event)
    requires Placed(st) && AlwaysHolds(st) && Enabled(st, e) && Exclusive(st) && Exclusive(Apply(st, e))
    ensures Placed(Apply(st, e))
  {
    hide Placed, Exclusive, Apply;
    if e.Start? {
      StartPlaced(st, e);
    } else {
      TickPlaced(st, e);
    }
  }

  /** In the middle of a call or not, a peer stands in one session at most. */
  lemma StageOneSession(ix: Index, op: Op)
    requires Stage(ix, op) && Busy(op).Some?
    ensures forall s, t :: Listed(ix.sessionPeers, op.p, s) && Listed(ix.sessionPeers, op.p, t) ==> s == t
  {
  }

  /** The index agreement: over every run in which calls on one peer do not overlap. */
  lemma IndexAgreement(events: seq<Event>)
    requires EnabledRun(INITIAL, events) && ExclusiveRun(INITIAL, events)
    ensures var st := Run(INITIAL, events);
      && AtMostOneSession(st.ix)
      && (forall p :: Untouched(st, p) ==> Agree(st.ix, p))
      && ((forall id :: id in st.tasks ==> BusyTask(st.tasks[id]).None?) ==> Inverse(st.ix))
  {
    hide EnabledRun, ExclusiveRun, Run, Stage;
    assert Placed(INITIAL);
    RunPlaced(INITIAL, events);
    var st := Run(INITIAL, events);
    forall p, s, t | Listed(st.ix.sessionPeers, p, s) && Listed(st.ix.sessionPeers, p, t) ensures s == t {
      if Untouched(st, p) {
        assert Agree(st.ix, p);
      } else {
        var id :| id in st.tasks && BusyTask(st.tasks[id]) == Some(p);
        assert StageTask(st.ix, st.tasks[id]);
        StageOneSession(st.ix, st.tasks[id].op);
      }
    }
    if forall id :: id in st.tasks ==> BusyTask(st.tasks[id]).None? {
      forall p ensures Agree(st.ix, p) { assert Untouched(st, p); }
      InverseIsAgree(st.ix);
    }
  }

  // ----- the hypothesis is needed -----

  /** Two subscriptions of one peer, with the second running through between the first one's steps. */
  function Overlap(p: Peer, a: Session, b: Session): seq<Event> {
    [Start(0, Plain(Subscribe(p, a))), Start(1, Plain(Subscribe(p, b))),
     Tick(0, [], true), Tick(1, [], true), Tick(1, [], true), Tick(1, [], true), Tick(0, [], true)]
  }

  /** The seven states the overlap passes through. */
  function OverlapState(p: Peer, a: Session, b: Session, k: nat): State
    requires k <= 7
  {
    var first, second := Plain(Subscribe(p, a)), Plain(Subscribe(p, b));
    var ix1, ix2 := Index(map[], map[p := a], map[]), Index(map[], map[p := b], map[]);
    if k == 0 then INITIAL
    else if k == 1 then State(EMPTY, map[0 := first], {0}, map[])
    else if k == 2 then State(EMPTY, map[0 := first, 1 := second], {0, 1}, map[])
    else if k == 3 then State(ix1, map[0 := Plain(Join(p, a)), 1 := second], {0, 1}, map[])
    else if k == 4 then State(ix2, map[0 := Plain(Join(p, a)), 1 := Plain(Move(p, a, b))], {0, 1}, map[])
    else if k == 5 then State(ix2, map[0 := Plain(Join(p, a)), 1 := Plain(Join(p, b))], {0, 1}, map[])
    else if k == 6 then State(ix2.(sessionPeers := map[b := {p}]), map[0 := Plain(Join(p, a))], {0, 1}, map[])
    else State(ix2.(sessionPeers := map[b := {p}, a := {p}]), map[], {0, 1}, map[])
  }

  lemma EnterFresh(ix: Index, p: Peer, s: Session)
    requires s !in ix.sessionPeers
    ensures Enter(ix, p, s) == ix.(sessionPeers := ix.sessionPeers[s := {p}])
  {
    assert {} + {p} == {p};
  }

  lemma OverlapJoins(p: Peer, a: Session, b: Session)
    requires a != b
    ensures StepOp(OverlapState(p, a, b, 5).ix, Join(p, b)) == (OverlapState(p, a, b, 6).ix, None)
    ensures StepOp(OverlapState(p, a, b, 6).ix, Join(p, a)) == (OverlapState(p, a, b, 7).ix, None)
  {
    EnterFresh(OverlapState(p, a, b, 5).ix, p, b);
    EnterFresh(OverlapState(p, a, b, 6).ix, p, a);
    assert map[][b := {p}] == map[b := {p}];
  }

  lemma OverlapBinds(p: Peer, a: Session, b: Session)
    requires a != b
    ensures StepOp(OverlapState(p, a, b, 2).ix, Subscribe(p, a)) == (OverlapState(p, a, b, 3).ix, Some(Join(p, a)))
    ensures StepOp(OverlapState(p, a, b, 3).ix, Subscribe(p, b)) == (OverlapState(p, a, b, 4).ix, Some(Move(p, a, b)))
    ensures StepOp(OverlapState(p, a, b, 4).ix, Move(p, a, b)) == (OverlapState(p, a, b, 5).ix, Some(Join(p, b)))
  {
    assert map[][p := a] == map[p := a];
    assert map[p := a][p := b] == map[p := b];
  }

  lemma OverlapStep(p: Peer, a: Session, b: Session, k: nat)
    requires a != b && k < 7
    ensures Enabled(OverlapState(p, a, b, k), Overlap(p, a, b)[k])
    ensures Apply(OverlapState(p, a, b, k), Overlap(p, a, b)[k]) == OverlapState(p, a, b, k + 1)
  {
    hide StepOp, Enter, Leave;
    OverlapJoins(p, a, b);
    OverlapBinds(p, a, b);
  }

  lemma {:induction false} OverlapRun(p: Peer, a: Session, b: Session, k: nat)
    requires a != b && k <= 7
    ensures EnabledRun(OverlapState(p, a, b, k), Overlap(p, a, b)[k..])
    ensures Run(OverlapState(p, a, b, k), Overlap(p, a, b)[k..]) == OverlapState(p, a, b, 7)
    decreases 7 - k
  {
    hide Enabled, Apply, OverlapState;
    if k < 7 {
      OverlapStep(p, a, b, k);
      OverlapRun(p, a, b, k + 1);
      assert Overlap(p, a, b)[k..][1..] == Overlap(p, a, b)[k + 1..];
    }
  }

  /** Two overlapping subscriptions of one peer: at rest it stands in both sessions, bound to the second. */
  lemma OverlapBreaksIndex(p: Peer, a: Session, b: Session)
    requires a != b
    ensures var events := Overlap(p, a, b);
      EnabledRun(INITIAL, events) && !ExclusiveRun(INITIAL, events)
    ensures EnabledRun(INITIAL, Overlap(p, a, b)) &&
      var st := Run(INITIAL, Overlap(p, a, b));
      && st.tasks == map[] && st.ix.peerSessions == map[p := b]
      && Listed(st.ix.sessionPeers, p, a) && Listed(st.ix.sessionPeers, p, b)
      && !AtMostOneSession(st.ix) && !Inverse(st.ix)
  {
    hide EnabledRun, ExclusiveRun, Run, Overlap;
    OverlapRun(p, a, b, 0);
    var events := Overlap(p, a, b);
    assert events[0..] == events;
    var st := Run(INITIAL, events);
    assert st == OverlapState(p, a, b, 7);
    assert Listed(st.ix.sessionPeers, p, a) && Listed(st.ix.sessionPeers, p, b);
    if ExclusiveRun(INITIAL, events) {
      IndexAgreement(events);
    }
  }
}
