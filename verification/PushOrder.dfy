/**
 Overlapping calls on one peer.

 Binding a peer, the change of `peer_sessions`, is one step; the session sets follow in later ones.  So a call that
 has bound the peer owes changes of session sets, and the index comes out right if every set is changed in the order
 of binding.  With two calls that is also necessary.
 */
module PushOrder {
  import opened Prelude
  import opened PushIndex
  import opened PushSystem

  /** The call `id` still has to put the peer into the set of `s`, or to take it out. */
  datatype Due = Due(id: Id, s: Session, joins: bool)

  function Bound(ix: Index, p: Peer): Option<Session> {
    if p in ix.peerSessions then Some(ix.peerSessions[p]) else None
  }

  function Owes(id: Id, op: Op): seq<Due> {
    match op
    case UnregisterSession(_, s) => [Due(id, s, false)]
    case Move(_, prev, s) => [Due(id, prev, false), Due(id, s, true)]
    case Join(_, s) => [Due(id, s, true)]
    case _ => []
  }

  function OwesAfter(id: Id, rest: Option<Op>): seq<Due> {
    if rest.None? then [] else Owes(id, rest.value)
  }

  function TaskOwes(st: State, id: Id, p: Peer): seq<Due> {
    if id in st.tasks && BusyTask(st.tasks[id]) == Some(p) then Owes(id, st.tasks[id].op) else []
  }

  /** The event is a step of a call on `p`. */
  predicate Steps(st: State, e: Event, p: Peer)
    requires Enabled(st, e)
  {
    e.Tick? && BusyTask(st.tasks[e.id]) == Some(p)
  }

  /** It changes the binding of `p`. */
  predicate Binds(st: State, e: Event, p: Peer)
    requires Enabled(st, e)
  {
    Steps(st, e, p) && (st.tasks[e.id].op.Subscribe? || st.tasks[e.id].op.UnregisterIndex?)
  }

  /** It changes a session set. */
  predicate Pays(st: State, e: Event, p: Peer)
    requires Enabled(st, e)
  {
    e.Tick? && TaskOwes(st, e.id, p) != []
  }

  function Removed(due: seq<Due>, id: Id): seq<Due> {
    if due == [] then [] else if due[0].id == id then due[1..] else [due[0]] + Removed(due[1..], id)
  }

  /** What is owed for `p` after the event, in the order of binding. */
  function NextDue(st: State, e: Event, p: Peer, due: seq<Due>): seq<Due>
    requires Enabled(st, e)
  {
    if !Steps(st, e, p) then due
    else if Pays(st, e, p) then Removed(due, e.id)
    else due + OwesAfter(e.id, StepOp(st.ix, st.tasks[e.id].op).1)
  }

  /** No change of the same set was bound before the first one the call owes. */
  predicate Clear(due: seq<Due>, id: Id, s: Session) {
    due == [] || due[0].id == id || (due[0].s != s && Clear(due[1..], id, s))
  }

  predicate InTurn(st: State, e: Event, p: Peer, due: seq<Due>)
    requires Enabled(st, e)
  {
    Pays(st, e, p) ==> Clear(due, e.id, TaskOwes(st, e.id, p)[0].s)
  }

  /** Throughout the run every session set is changed for `p` in the order of binding. */
  predicate Ordered(st: State, events: seq<Event>, p: Peer, due: seq<Due>)
    requires EnabledRun(st, events)
    decreases |events|
  {
    events == [] ||
    (InTurn(st, events[0], p, due)
     && Ordered(Apply(st, events[0]), events[1..], p, NextDue(st, events[0], p, due)))
  }

  /** How often the run binds `p`. */
  function Bindings(st: State, events: seq<Event>, p: Peer): nat
    requires EnabledRun(st, events)
    decreases |events|
  {
    if events == [] then 0
    else (if Binds(st, events[0], p) then 1 else 0) + Bindings(Apply(st, events[0]), events[1..], p)
  }

  // ----- lists of changes -----

  function Mine(due: seq<Due>, id: Id): seq<Due> {
    if due == [] then [] else (if due[0].id == id then [due[0]] else []) + Mine(due[1..], id)
  }

  /** Whether the peer is in the set of `s` once all is paid. */
  predicate Ends(due: seq<Due>, s: Session, listed: bool) {
    if due == [] then listed else Ends(due[1..], s, if due[0].s == s then due[0].joins else listed)
  }

  /** Paid in this order, each change of `s` is one. */
  predicate Flips(due: seq<Due>, s: Session, listed: bool) {
    due == [] ||
    if due[0].s == s then due[0].joins != listed && Flips(due[1..], s, due[0].joins) else Flips(due[1..], s, listed)
  }

  function Count(due: seq<Due>, s: Session): nat {
    if due == [] then 0 else (if due[0].s == s then 1 else 0) + Count(due[1..], s)
  }

  lemma {:induction false} MineConcat(a: seq<Due>, b: seq<Due>, id: Id)
    ensures Mine(a + b, id) == Mine(a, id) + Mine(b, id)
  {
    if a == [] {
      assert a + b == b;
    } else {
      assert (a + b)[1..] == a[1..] + b;
      MineConcat(a[1..], b, id);
    }
  }

  lemma {:induction false} MineRemoved(due: seq<Due>, id: Id, other: Id)
    ensures Mine(Removed(due, id), other)
         == if id == other && Mine(due, id) != [] then Mine(due, id)[1..] else Mine(due, other)
  {
    if due != [] {
      MineRemoved(due[1..], id, other);
      assert due[0].id != id ==> Removed(due, id)[1..] == Removed(due[1..], id);
    }
  }

  lemma {:induction false} EndsConcat(a: seq<Due>, b: seq<Due>, s: Session, listed: bool)
    ensures Ends(a + b, s, listed) == Ends(b, s, Ends(a, s, listed))
    ensures Flips(a + b, s, listed) <==> Flips(a, s, listed) && Flips(b, s, Ends(a, s, listed))
    ensures Count(a + b, s) == Count(a, s) + Count(b, s)
  {
    if a == [] {
      assert a + b == b;
    } else {
      assert (a + b)[1..] == a[1..] + b;
      EndsConcat(a[1..], b, s, if a[0].s == s then a[0].joins else listed);
    }
  }

  /** Paying a change in turn leaves the outcome as it is; for other sessions any change does. */
  lemma {:induction false} EndsRemoved(due: seq<Due>, id: Id, s: Session, listed: bool)
    requires Mine(due, id) != [] && (Mine(due, id)[0].s == s ==> Clear(due, id, s))
    ensures var c := Mine(due, id)[0];
      var after := if c.s == s then c.joins else listed;
      && Ends(Removed(due, id), s, after) == Ends(due, s, listed)
      && (Flips(due, s, listed) ==> Flips(Removed(due, id), s, after))
      && Count(Removed(due, id), s) <= Count(due, s)
  {
    if due[0].id != id {
      assert Removed(due, id)[1..] == Removed(due[1..], id);
      EndsRemoved(due[1..], id, s, if due[0].s == s then due[0].joins else listed);
    }
  }

  lemma {:induction false} NothingOwed(due: seq<Due>, s: Session, listed: bool)
    requires Count(due, s) == 0
    ensures Ends(due, s, listed) == listed
  {
    if due != [] {
      NothingOwed(due[1..], s, listed);
    }
  }

  lemma {:induction false} MineCounts(due: seq<Due>, id: Id, s: Session)
    requires Mine(due, id) != [] && Mine(due, id)[0].s == s
    ensures Count(due, s) > 0
  {
    if due[0].id != id {
      MineCounts(due[1..], id, s);
    }
  }

  /** A single change of `s` is in turn whenever it comes. */
  lemma {:induction false} SingleChange(due: seq<Due>, id: Id, s: Session, listed: bool)
    requires Mine(due, id) != [] && Mine(due, id)[0].s == s && Count(due, s) <= 1
    ensures Clear(due, id, s) && Count(Removed(due, id), s) == 0
    ensures Ends(due, s, listed) == Mine(due, id)[0].joins
    ensures Flips(due, s, listed) ==> Mine(due, id)[0].joins != listed
  {
    if due[0].id == id {
      NothingOwed(due[1..], s, due[0].joins);
    } else {
      MineCounts(due[1..], id, s);
      assert Removed(due, id)[1..] == Removed(due[1..], id);
      SingleChange(due[1..], id, s, listed);
    }
  }

  /** The second of two changes paid first: it has no effect, and the first then spoils the outcome. */
  lemma {:induction false} OutOfTurn(due: seq<Due>, id: Id, s: Session, listed: bool)
    requires Mine(due, id) != [] && Mine(due, id)[0].s == s && !Clear(due, id, s)
    requires Count(due, s) <= 2 && Flips(due, s, listed)
    ensures Ends(Removed(due, id), s, Mine(due, id)[0].joins) != Ends(due, s, listed)
    ensures Count(Removed(due, id), s) == 1 && Count(due, s) == 2
  {
    assert Removed(due, id)[1..] == Removed(due[1..], id);
    if due[0].s == s {
      MineCounts(due[1..], id, s);
      SingleChange(due[1..], id, s, due[0].joins);
      NothingOwed(Removed(due[1..], id), s, due[0].joins);
    } else {
      OutOfTurn(due[1..], id, s, listed);
    }
  }

  // ----- the invariant -----

  /** `due` is what the calls in flight owe for `p`. */
  ghost predicate Tracks(st: State, p: Peer, due: seq<Due>) {
    forall id :: Mine(due, id) == TaskOwes(st, id, p)
  }

  predicate SettlesAt(ix: Index, p: Peer, due: seq<Due>, s: Session) {
    var listed := Listed(ix.sessionPeers, p, s);
    Flips(due, s, listed) && (Ends(due, s, listed) <==> Bound(ix, p) == Some(s))
  }

  /** Once it is paid, in this order, the peer is in the session it is bound to and in no other. */
  ghost predicate Settles(ix: Index, p: Peer, due: seq<Due>) {
    forall s :: SettlesAt(ix, p, due, s)
  }

  /** A payment changes one set and no binding. */
  lemma PaymentRows(ix: Index, id: Id, op: Op, s: Session)
    requires Owes(id, op) != []
    ensures var next := StepOp(ix, op).0;
      && (Listed(next.sessionPeers, op.p, s) <==>
            if Owes(id, op)[0].s == s then Owes(id, op)[0].joins else Listed(ix.sessionPeers, op.p, s))
      && Bound(next, op.p) == Bound(ix, op.p)
    ensures OwesAfter(id, StepOp(ix, op).1) == Owes(id, op)[1..]
  {
    match op
    case UnregisterSession(p, t) => LeaveLists(ix, p, t);
    case Move(p, prev, t) => LeaveLists(ix, p, prev);
    case Join(p, t) => EnterLists(ix, p, t);
  }

  lemma OneDue(d: Due, s: Session, listed: bool)
    ensures Ends([d], s, listed) == (if d.s == s then d.joins else listed)
    ensures Flips([d], s, listed) <==> d.s == s ==> d.joins != listed
    ensures Count([d], s) == if d.s == s then 1 else 0
  {
    assert [d][1..] == [];
  }

  /** Binding changes no set, and makes the call owe at most one change of each. */
  lemma BindingRows(ix: Index, id: Id, op: Op, s: Session)
    requires Busy(op).Some? && Owes(id, op) == []
    ensures var (next, rest) := StepOp(ix, op);
      var more := OwesAfter(id, rest);
      && (Listed(next.sessionPeers, op.p, s) <==> Listed(ix.sessionPeers, op.p, s))
      && Count(more, s) <= 1 && Flips(more, s, Bound(ix, op.p) == Some(s))
      && (Ends(more, s, Bound(ix, op.p) == Some(s)) <==> Bound(next, op.p) == Some(s))
    ensures op.Unregister? ==> OwesAfter(id, StepOp(ix, op).1) == [] && Bound(StepOp(ix, op).0, op.p) == Bound(ix, op.p)
  {
    hide Listed;
    var rest := StepOp(ix, op).1;
    if rest.Some? && rest.value.Move? {
      var prev, next := Due(id, rest.value.prev, false), Due(id, rest.value.s, true);
      var bound := Bound(ix, op.p) == Some(s);
      assert OwesAfter(id, rest) == [prev] + [next];
      EndsConcat([prev], [next], s, bound);
      OneDue(prev, s, bound);
      OneDue(next, s, Ends([prev], s, bound));
    } else if OwesAfter(id, rest) != [] {
      OneDue(OwesAfter(id, rest)[0], s, Bound(ix, op.p) == Some(s));
    }
  }

  /** What the call of the event owes afterwards. */
  lemma TaskOwesNext(st: State, e: Event, p: Peer)
    requires Enabled(st, e)
    ensures TaskOwes(Apply(st, e), e.id, p)
         == if Steps(st, e, p) then OwesAfter(e.id, StepOp(st.ix, st.tasks[e.id].op).1) else []
  {
    hide Note, Targets, Leave, Enter;
  }

  lemma OtherTasks(st: State, e: Event, p: Peer, id: Id)
    requires Enabled(st, e) && id != e.id
    ensures TaskOwes(Apply(st, e), id, p) == TaskOwes(st, id, p)
  {
    hide StepTask, Note;
  }

  /** Rows of `p` change by steps of its own calls only. */
  lemma NoStep(st: State, e: Event, p: Peer)
    requires Enabled(st, e) && !Steps(st, e, p)
    ensures SameRows(st.ix, Apply(st, e).ix, p)
  {
    hide StepTask, Note, StepOp, Listed;
    if e.Tick? {
      QuietIndex(st, e);
      var task := st.tasks[e.id];
      if task.Plain? || task.Cleaning? {
        StepOthers(st.ix, task.op, p);
      }
    }
  }

  lemma StepIndex(st: State, e: Event, p: Peer)
    requires Enabled(st, e) && Steps(st, e, p)
    ensures Apply(st, e).ix == StepOp(st.ix, st.tasks[e.id].op).0
    ensures st.tasks[e.id].op.p == p && Busy(st.tasks[e.id].op) == Some(p)
  {
    hide StepTask, Note, StepOp;
    QuietIndex(st, e);
  }

  lemma OwesMine(id: Id, rest: Option<Op>, other: Id)
    ensures Mine(OwesAfter(id, rest), other) == if other == id then OwesAfter(id, rest) else []
  {
    var more := OwesAfter(id, rest);
    if |more| == 2 {
      assert more == [more[0]] + [more[1]];
      MineConcat([more[0]], [more[1]], other);
      assert [more[0]][1..] == [] && [more[1]][1..] == [];
    } else if |more| == 1 {
      assert more[1..] == [];
    }
  }

  lemma TracksAt(st: State, e: Event, p: Peer, due: seq<Due>, id: Id)
    requires AlwaysHolds(st) && Enabled(st, e) && Mine(due, e.id) == TaskOwes(st, e.id, p)
    ensures var more := if Steps(st, e, p) then OwesAfter(e.id, StepOp(st.ix, st.tasks[e.id].op).1) else [];
      Mine(NextDue(st, e, p, due), id) == if id == e.id then more else Mine(due, id)
  {
    hide NoEmptySession, RecordHolds, StepOp, Owes, Mine, Removed;
    if !Steps(st, e, p) {
    } else if Pays(st, e, p) {
      MineRemoved(due, e.id, id);
      PaymentRows(st.ix, e.id, st.tasks[e.id].op, "");
    } else {
      var more := OwesAfter(e.id, StepOp(st.ix, st.tasks[e.id].op).1);
      MineConcat(due, more, id);
      OwesMine(e.id, StepOp(st.ix, st.tasks[e.id].op).1, id);
      assert Mine(due, e.id) == [];
    }
  }

  lemma TracksNext(st: State, e: Event, p: Peer, due: seq<Due>)
    requires AlwaysHolds(st) && Enabled(st, e) && Tracks(st, p, due)
    ensures Tracks(Apply(st, e), p, NextDue(st, e, p, due))
  {
    hide Apply, AlwaysHolds, StepOp, TaskOwes, Owes, OwesAfter, Mine, Removed;
    var next := NextDue(st, e, p, due);
    assert Mine(due, e.id) == TaskOwes(st, e.id, p);
    forall id ensures Mine(next, id) == TaskOwes(Apply(st, e), id, p) {
      TaskOwesNext(st, e, p);
      assert Mine(due, id) == TaskOwes(st, id, p);
      if id != e.id {
        OtherTasks(st, e, p, id);
      }
      TracksAt(st, e, p, due, id);
    }
  }

  lemma SettlesAtNext(st: State, e: Event, p: Peer, due: seq<Due>, s: Session)
    requires Enabled(st, e) && Tracks(st, p, due) && SettlesAt(st.ix, p, due, s) && InTurn(st, e, p, due)
    ensures SettlesAt(Apply(st, e).ix, p, NextDue(st, e, p, due), s)
  {
    hide Apply, StepOp, Listed, Owes, Ends, Flips, Mine, Removed, Clear, Count;
    var listed := Listed(st.ix.sessionPeers, p, s);
    if !Steps(st, e, p) {
      NoStep(st, e, p);
    } else {
      var op := st.tasks[e.id].op;
      StepIndex(st, e, p);
      assert Mine(due, e.id) == TaskOwes(st, e.id, p) == Owes(e.id, op);
      if Pays(st, e, p) {
        PaymentRows(st.ix, e.id, op, s);
        EndsRemoved(due, e.id, s, listed);
      } else {
        BindingRows(st.ix, e.id, op, s);
        EndsConcat(due, OwesAfter(e.id, StepOp(st.ix, op).1), s, listed);
      }
    }
  }

  lemma SettlesNext(st: State, e: Event, p: Peer, due: seq<Due>)
    requires Enabled(st, e) && Tracks(st, p, due) && Settles(st.ix, p, due) && InTurn(st, e, p, due)
    ensures Settles(Apply(st, e).ix, p, NextDue(st, e, p, due))
  {
    hide Apply, NextDue, SettlesAt, Tracks, InTurn;
    forall s ensures SettlesAt(Apply(st, e).ix, p, NextDue(st, e, p, due), s) {
      SettlesAtNext(st, e, p, due, s);
    }
  }

  // ----- runs -----

  function DueAfter(st: State, events: seq<Event>, p: Peer, due: seq<Due>): seq<Due>
    requires EnabledRun(st, events)
    decreases |events|
  {
    if events == [] then due else DueAfter(Apply(st, events[0]), events[1..], p, NextDue(st, events[0], p, due))
  }

  lemma {:induction false} RunTracks(st: State, events: seq<Event>, p: Peer, due: seq<Due>)
    requires AlwaysHolds(st) && EnabledRun(st, events) && Tracks(st, p, due)
    ensures Tracks(Run(st, events), p, DueAfter(st, events, p, due))
    decreases |events|
  {
    hide AlwaysHolds, Apply, Enabled, NextDue, Tracks;
    if events != [] {
      ApplyAlways(st, events[0]);
      TracksNext(st, events[0], p, due);
      RunTracks(Apply(st, events[0]), events[1..], p, NextDue(st, events[0], p, due));
    }
  }

  lemma {:induction false} RunSettles(st: State, events: seq<Event>, p: Peer, due: seq<Due>)
    requires AlwaysHolds(st) && EnabledRun(st, events) && Tracks(st, p, due) && Settles(st.ix, p, due)
    requires Ordered(st, events, p, due)
    ensures Settles(Run(st, events).ix, p, DueAfter(st, events, p, due))
    decreases |events|
  {
    hide AlwaysHolds, Apply, Enabled, NextDue, Tracks, Settles, InTurn;
    if events != [] {
      ApplyAlways(st, events[0]);
      TracksNext(st, events[0], p, due);
      SettlesNext(st, events[0], p, due);
      RunSettles(Apply(st, events[0]), events[1..], p, NextDue(st, events[0], p, due));
    }
  }

  lemma HeadIsMine(due: seq<Due>)
    requires due != []
    ensures Mine(due, due[0].id) != []
  {
  }

  /** Nothing is owed for a peer that no call is about to change. */
  lemma UntouchedOwesNothing(st: State, p: Peer, due: seq<Due>)
    requires Tracks(st, p, due) && Untouched(st, p)
    ensures due == []
  {
    hide Mine;
    if due != [] {
      HeadIsMine(due);
    }
  }

  lemma UntouchedTracks(st: State, p: Peer)
    requires Untouched(st, p)
    ensures Tracks(st, p, [])
  {
  }

  lemma SettledIsAgree(ix: Index, p: Peer)
    ensures Settles(ix, p, []) <==> Agree(ix, p)
  {
    hide Listed;
    if Settles(ix, p, []) {
      forall s ensures Listed(ix.sessionPeers, p, s) <==> p in ix.peerSessions && ix.peerSessions[p] == s {
        assert SettlesAt(ix, p, [], s);
      }
    }
  }

  /**
   Any number of calls, overlapping as they please: if every session set is changed for `p` in the order in which
   the calls bound it, then the maps agree on `p` whenever no call on it is in flight.
   */
  lemma OrderedAgrees(st: State, events: seq<Event>, p: Peer)
    requires AlwaysHolds(st) && Untouched(st, p) && Agree(st.ix, p)
    requires EnabledRun(st, events) && Ordered(st, events, p, []) && Untouched(Run(st, events), p)
    ensures Agree(Run(st, events).ix, p)
  {
    hide AlwaysHolds, EnabledRun, Run, Ordered, Untouched, Agree, Settles, Tracks;
    UntouchedTracks(st, p);
    SettledIsAgree(st.ix, p);
    RunTracks(st, events, p, []);
    RunSettles(st, events, p, []);
    UntouchedOwesNothing(Run(st, events), p, DueAfter(st, events, p, []));
    SettledIsAgree(Run(st, events).ix, p);
  }

  lemma ClearHead(due: seq<Due>, id: Id, s: Session)
    ensures due == [] || due[0].id == id ==> Clear(due, id, s)
  {
  }

  lemma ExclusiveInTurn(st: State, e: Event, p: Peer, due: seq<Due>)
    requires Enabled(st, e) && Exclusive(st) && Tracks(st, p, due)
    ensures InTurn(st, e, p, due)
  {
    hide Mine, Owes, Clear;
    if Pays(st, e, p) && due != [] {
      HeadIsMine(due);
      assert TaskOwes(st, due[0].id, p) != [];
      assert BusyTask(st.tasks[due[0].id]) == BusyTask(st.tasks[e.id]) == Some(p);
      assert due[0].id == e.id;
    }
    ClearHead(due, e.id, if Pays(st, e, p) then TaskOwes(st, e.id, p)[0].s else "");
  }

  /** Calls that do not overlap are in order. */
  lemma {:induction false} ExclusiveIsOrdered(st: State, events: seq<Event>, p: Peer, due: seq<Due>)
    requires AlwaysHolds(st) && EnabledRun(st, events) && ExclusiveRun(st, events) && Tracks(st, p, due)
    ensures Ordered(st, events, p, due)
    decreases |events|
  {
    hide AlwaysHolds, Apply, Enabled, NextDue, Tracks, InTurn, Exclusive;
    if events != [] {
      ApplyAlways(st, events[0]);
      ExclusiveInTurn(st, events[0], p, due);
      TracksNext(st, events[0], p, due);
      ExclusiveIsOrdered(Apply(st, events[0]), events[1..], p, NextDue(st, events[0], p, due));
    }
  }

  // ----- two calls -----

  /** At most two changes of a set are owed, or will be. */
  ghost predicate Few(st: State, events: seq<Event>, p: Peer, due: seq<Due>)
    requires EnabledRun(st, events)
  {
    forall s :: Count(due, s) + Bindings(st, events, p) <= 2
  }

  lemma UnboundStep(id: Id, op: Op)
    requires Owes(id, op) == [] && Busy(op).Some? && !op.Subscribe? && !op.UnregisterIndex?
    ensures op.Unregister?
  {
  }

  lemma CountNext(st: State, e: Event, p: Peer, due: seq<Due>, s: Session)
    requires Enabled(st, e) && Tracks(st, p, due) && InTurn(st, e, p, due)
    ensures Count(NextDue(st, e, p, due), s) <= Count(due, s) + (if Binds(st, e, p) then 1 else 0)
  {
    hide Apply, StepOp, Listed, Owes, Ends, Flips, Mine, Removed, Clear, Count;
    if Steps(st, e, p) {
      var op := st.tasks[e.id].op;
      StepIndex(st, e, p);
      assert Mine(due, e.id) == TaskOwes(st, e.id, p) == Owes(e.id, op);
      if Pays(st, e, p) {
        EndsRemoved(due, e.id, s, false);
      } else {
        var more := OwesAfter(e.id, StepOp(st.ix, op).1);
        BindingRows(st.ix, e.id, op, s);
        EndsConcat(due, more, s, false);
        if !Binds(st, e, p) {
          UnboundStep(e.id, op);
          assert due + more == due;
        }
      }
    }
  }

  /** The outcome for `s` is wrong, and nothing that is still to come can mend it. */
  ghost predicate Spoilt(st: State, events: seq<Event>, p: Peer, due: seq<Due>, s: Session)
    requires EnabledRun(st, events)
  {
    && Bindings(st, events, p) == 0 && Count(due, s) <= 1
    && !(Ends(due, s, Listed(st.ix.sessionPeers, p, s)) <==> Bound(st.ix, p) == Some(s))
  }

  lemma SpoiltNext(st: State, events: seq<Event>, p: Peer, due: seq<Due>, s: Session)
    requires EnabledRun(st, events) && events != [] && Tracks(st, p, due) && Spoilt(st, events, p, due, s)
    ensures Spoilt(Apply(st, events[0]), events[1..], p, NextDue(st, events[0], p, due), s)
  {
    var e := events[0];
    assert !Binds(st, e, p) && Bindings(Apply(st, e), events[1..], p) == 0;
    hide Apply, StepOp, Listed, Owes, Ends, Flips, Mine, Removed, Clear, Count, Bindings;
    var listed := Listed(st.ix.sessionPeers, p, s);
    if !Steps(st, e, p) {
      NoStep(st, e, p);
    } else {
      var op := st.tasks[e.id].op;
      StepIndex(st, e, p);
      assert Mine(due, e.id) == TaskOwes(st, e.id, p) == Owes(e.id, op);
      if Pays(st, e, p) {
        PaymentRows(st.ix, e.id, op, s);
        if Mine(due, e.id)[0].s == s {
          SingleChange(due, e.id, s, listed);
        }
        EndsRemoved(due, e.id, s, listed);
      } else {
        UnboundStep(e.id, op);
        BindingRows(st.ix, e.id, op, s);
        assert due + [] == due;
      }
    }
  }

  lemma {:induction false} SpoiltStays(st: State, events: seq<Event>, p: Peer, due: seq<Due>, s: Session)
    requires AlwaysHolds(st) && EnabledRun(st, events) && Tracks(st, p, due) && Spoilt(st, events, p, due, s)
    requires Untouched(Run(st, events), p)
    ensures !Agree(Run(st, events).ix, p)
    decreases |events|
  {
    hide AlwaysHolds, Apply, Enabled, NextDue, Tracks, Untouched;
    if events != [] {
      hide Spoilt, Agree;
      ApplyAlways(st, events[0]);
      TracksNext(st, events[0], p, due);
      SpoiltNext(st, events, p, due, s);
      SpoiltStays(Apply(st, events[0]), events[1..], p, NextDue(st, events[0], p, due), s);
    } else {
      UntouchedOwesNothing(st, p, due);
    }
  }

  /** The first change out of turn spoils the outcome, if there are two calls only. */
  lemma OutOfTurnSpoils(st: State, events: seq<Event>, p: Peer, due: seq<Due>)
    requires EnabledRun(st, events) && events != [] && Tracks(st, p, due) && Settles(st.ix, p, due)
    requires Few(st, events, p, due) && !InTurn(st, events[0], p, due)
    ensures exists s :: Spoilt(Apply(st, events[0]), events[1..], p, NextDue(st, events[0], p, due), s)
  {
    var e := events[0];
    var op := st.tasks[e.id].op;
    var s := TaskOwes(st, e.id, p)[0].s;
    assert SettlesAt(st.ix, p, due, s) && Count(due, s) + Bindings(st, events, p) <= 2;
    assert Bindings(Apply(st, e), events[1..], p) <= Bindings(st, events, p);
    hide Apply, StepOp, Listed, Owes, Ends, Flips, Mine, Removed, Clear, Count, Bindings, Few, Settles;
    StepIndex(st, e, p);
    assert Mine(due, e.id) == TaskOwes(st, e.id, p) == Owes(e.id, op);
    PaymentRows(st.ix, e.id, op, s);
    OutOfTurn(due, e.id, s, Listed(st.ix.sessionPeers, p, s));
    assert Spoilt(Apply(st, e), events[1..], p, NextDue(st, e, p, due), s);
  }

  lemma FewNext(st: State, events: seq<Event>, p: Peer, due: seq<Due>)
    requires EnabledRun(st, events) && events != [] && Tracks(st, p, due) && Few(st, events, p, due)
    requires InTurn(st, events[0], p, due)
    ensures Few(Apply(st, events[0]), events[1..], p, NextDue(st, events[0], p, due))
  {
    hide Apply, NextDue, Tracks, InTurn, Count;
    forall s ensures Count(NextDue(st, events[0], p, due), s) + Bindings(Apply(st, events[0]), events[1..], p) <= 2 {
      CountNext(st, events[0], p, due, s);
      assert Count(due, s) + Bindings(st, events, p) <= 2;
    }
  }

  lemma {:induction false} DisorderSpoils(st: State, events: seq<Event>, p: Peer, due: seq<Due>)
    requires AlwaysHolds(st) && EnabledRun(st, events) && Tracks(st, p, due) && Settles(st.ix, p, due)
    requires Few(st, events, p, due) && !Ordered(st, events, p, due) && Untouched(Run(st, events), p)
    ensures !Agree(Run(st, events).ix, p)
    decreases |events|
  {
    hide AlwaysHolds, Apply, Enabled, NextDue, Tracks, Settles, InTurn, Few, Spoilt, Untouched, Agree;
    var e := events[0];
    var next, nextDue := Apply(st, e), NextDue(st, e, p, due);
    ApplyAlways(st, e);
    TracksNext(st, e, p, due);
    if InTurn(st, e, p, due) {
      SettlesNext(st, e, p, due);
      FewNext(st, events, p, due);
      DisorderSpoils(next, events[1..], p, nextDue);
    } else {
      OutOfTurnSpoils(st, events, p, due);
      var s :| Spoilt(next, events[1..], p, nextDue, s);
      SpoiltStays(next, events[1..], p, nextDue, s);
    }
  }

  /**
   Two calls on one peer, subscriptions to any sessions or removals, whatever else is going on and whatever session
   the peer is in: once both are done the maps agree on it exactly when the one that bound it first was also first
   to change each session set that both change.
   */
  lemma InterleavingIff(st: State, events: seq<Event>, p: Peer)
    requires AlwaysHolds(st) && Untouched(st, p) && Agree(st.ix, p)
    requires EnabledRun(st, events) && Bindings(st, events, p) <= 2 && Untouched(Run(st, events), p)
    ensures Agree(Run(st, events).ix, p) <==> Ordered(st, events, p, [])
  {
    hide AlwaysHolds, EnabledRun, Run, Ordered, Untouched, Agree, Settles, Tracks;
    if Ordered(st, events, p, []) {
      OrderedAgrees(st, events, p);
    } else {
      UntouchedTracks(st, p);
      SettledIsAgree(st.ix, p);
      assert Few(st, events, p, []);
      DisorderSpoils(st, events, p, []);
    }
  }

  // ----- a removal that overtakes a subscription -----

  /** A peer subscribes and is unregistered; the removal runs through between the two steps of the subscription. */
  function Overtaking(p: Peer, a: Session): seq<Event> {
    [Start(0, Plain(Subscribe(p, a))), Start(1, Plain(Unregister(p))),
     Tick(0, [], true), Tick(1, [], true), Tick(1, [], true), Tick(1, [], true), Tick(0, [], true)]
  }

  function OvertakingState(p: Peer, a: Session, k: nat): State
    requires k <= 7
  {
    var subscribe, join, bound := Plain(Subscribe(p, a)), Plain(Join(p, a)), Index(map[], map[p := a], map[]);
    if k == 0 then INITIAL
    else if k == 1 then State(EMPTY, map[0 := subscribe], {0}, map[])
    else if k == 2 then State(EMPTY, map[0 := subscribe, 1 := Plain(Unregister(p))], {0, 1}, map[])
    else if k == 3 then State(bound, map[0 := join, 1 := Plain(Unregister(p))], {0, 1}, map[])
    else if k == 4 then State(bound, map[0 := join, 1 := Plain(UnregisterIndex(p))], {0, 1}, map[])
    else if k == 5 then State(EMPTY, map[0 := join, 1 := Plain(UnregisterSession(p, a))], {0, 1}, map[])
    else if k == 6 then State(EMPTY, map[0 := join], {0, 1}, map[])
    else State(EMPTY.(sessionPeers := map[a := {p}]), map[], {0, 1}, map[])
  }

  lemma OvertakingSteps(p: Peer, a: Session)
    ensures var bound := Index(map[], map[p := a], map[]);
      && StepOp(EMPTY, Subscribe(p, a)) == (bound, Some(Join(p, a)))
      && StepOp(bound, Unregister(p)) == (bound, Some(UnregisterIndex(p)))
      && StepOp(bound, UnregisterIndex(p)) == (EMPTY, Some(UnregisterSession(p, a)))
      && StepOp(EMPTY, UnregisterSession(p, a)) == (EMPTY, None)
      && StepOp(EMPTY, Join(p, a)) == (EMPTY.(sessionPeers := map[a := {p}]), None)
  {
    assert map[][p := a] == map[p := a] && map[p := a] - {p} == map[];
    EnterFresh(EMPTY, p, a);
    assert map[][a := {p}] == map[a := {p}];
  }

  lemma OvertakingStep(p: Peer, a: Session, k: nat)
    requires k < 7
    ensures Enabled(OvertakingState(p, a, k), Overtaking(p, a)[k])
    ensures Apply(OvertakingState(p, a, k), Overtaking(p, a)[k]) == OvertakingState(p, a, k + 1)
  {
    hide StepOp, Enter, Leave;
    OvertakingSteps(p, a);
  }

  lemma {:induction false} OvertakingRun(p: Peer, a: Session, k: nat)
    requires k <= 7
    ensures EnabledRun(OvertakingState(p, a, k), Overtaking(p, a)[k..])
    ensures Run(OvertakingState(p, a, k), Overtaking(p, a)[k..]) == OvertakingState(p, a, 7)
    decreases 7 - k
  {
    hide Enabled, Apply, OvertakingState;
    if k < 7 {
      OvertakingStep(p, a, k);
      OvertakingRun(p, a, k + 1);
      assert Overtaking(p, a)[k..][1..] == Overtaking(p, a)[k + 1..];
    }
  }

  /** At rest the peer is gone from `peers` and bound to nothing, and still in the session's set. */
  lemma RemovalOvertakes(p: Peer, a: Session)
    ensures EnabledRun(INITIAL, Overtaking(p, a)) &&
      var st := Run(INITIAL, Overtaking(p, a));
      && st.tasks == map[] && p !in st.ix.peers && p !in st.ix.peerSessions && Listed(st.ix.sessionPeers, p, a)
      && !Ordered(INITIAL, Overtaking(p, a), p, [])
  {
    hide EnabledRun, Run, Overtaking, Ordered;
    OvertakingRun(p, a, 0);
    var events := Overtaking(p, a);
    assert events[0..] == events;
    assert Run(INITIAL, events) == OvertakingState(p, a, 7);
    if Ordered(INITIAL, events, p, []) {
      OrderedAgrees(INITIAL, events, p);
    }
  }
}
