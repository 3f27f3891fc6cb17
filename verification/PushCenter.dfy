/**
 `PushCenter` itself: three maps changed in place.  A method called alone does to the maps what its
 steps do in `PushIndex`, one after the other.
 */
module PushCenter {
  import opened Prelude
  import opened PushIndex
  import opened PushSystem

  function Unregisters(stale: seq<Peer>): (ops: seq<Op>)
    ensures |ops| == |stale| && forall i :: 0 <= i < |stale| ==> ops[i] == Unregister(stale[i])
  {
    seq(|stale|, i requires 0 <= i < |stale| => Unregister(stale[i]))
  }

  /** What a broadcast attempts when the session is listed in this order and these sinks are closed. */
  function Attempts(targets: seq<(Peer, Sink)>, closed: set<Sink>): (sent: seq<Attempt>)
    ensures |sent| == |targets|
    ensures forall i :: 0 <= i < |sent| ==> sent[i] == Attempt(targets[i].0, targets[i].1, targets[i].1 !in closed)
  {
    seq(|targets|, i requires 0 <= i < |targets| => Attempt(targets[i].0, targets[i].1, targets[i].1 !in closed))
  }

  lemma NothingToSend(ix: Index, excluded: Option<Peer>, closed: set<Sink>)
    ensures Attempts(Targets([], excluded, ix.peers), closed) == []
    ensures FinishAll(ix, Unregisters(Failed([]))) == ix
  {
  }

  /** A hash set is iterated in no particular order. */
  method ListSet(peers: set<Peer>) returns (order: seq<Peer>)
    ensures ListsExactly(order, peers)
  {
    order := [];
    var rest := peers;
    while rest != {}
      invariant Distinct(order) && rest <= peers
      invariant forall p :: p in order <==> p in peers && p !in rest
      decreases rest
    {
      var p :| p in rest;
      order := order + [p];
      rest := rest - {p};
    }
  }

  class Center {
    var peers: map<Peer, Sink>
    var peerSessions: map<Peer, Session>
    var sessionPeers: map<Session, set<Peer>>

    function Snapshot(): Index
      reads this
    {
      Index(peers, peerSessions, sessionPeers)
    }

    constructor ()
      ensures Snapshot() == EMPTY
    {
      peers, peerSessions, sessionPeers := map[], map[], map[];
    }

    method RegisterPeer(p: Peer, sink: Sink)
      modifies this
      ensures Snapshot() == Finish(old(Snapshot()), Register(p, sink))
      ensures p in peers && peers[p] == sink
    {
      peers := peers[p := sink];
    }

    method UnregisterPeer(p: Peer)
      modifies this
      ensures Snapshot() == Finish(old(Snapshot()), Unregister(p))
    {
      ghost var start := Snapshot();
      peers := peers - {p};
      ghost var middle := Snapshot();
      assert Finish(start, Unregister(p)) == Finish(middle, UnregisterIndex(p));
      if p in peerSessions {
        var s := peerSessions[p];
        peerSessions := peerSessions - {p};
        assert Finish(middle, UnregisterIndex(p)) == Finish(Snapshot(), UnregisterSession(p, s));
        RemovePeerFromSession(p, s);
      } else {
        assert peerSessions - {p} == peerSessions;
        assert Finish(middle, UnregisterIndex(p)) == middle;
      }
    }

    method SubscribePeerToSession(p: Peer, s: Session)
      modifies this
      ensures Snapshot() == Finish(old(Snapshot()), Subscribe(p, s))
    {
      ghost var start := Snapshot();
      var previous := if p in peerSessions then Some(peerSessions[p]) else None;
      peerSessions := peerSessions[p := s];
      ghost var bound := Snapshot();
      if previous.Some? {
        if previous.value == s {
          return;
        }
        assert Finish(start, Subscribe(p, s)) == Finish(bound, Move(p, previous.value, s));
        RemovePeerFromSession(p, previous.value);
        assert Finish(bound, Move(p, previous.value, s)) == Finish(Snapshot(), Join(p, s));
      } else {
        assert Finish(start, Subscribe(p, s)) == Finish(bound, Join(p, s));
      }
      assert Finish(start, Subscribe(p, s)) == Finish(Snapshot(), Join(p, s));
      var others := if s in sessionPeers then sessionPeers[s] else {};
      sessionPeers := sessionPeers[s := others + {p}];
    }

    method RemovePeerFromSession(p: Peer, s: Session)
      modifies this`sessionPeers
      ensures Snapshot() == Leave(old(Snapshot()), p, s)
    {
      var shouldRemove := false;
      if s in sessionPeers {
        sessionPeers := sessionPeers[s := sessionPeers[s] - {p}];
        shouldRemove := sessionPeers[s] == {};
      }
      if shouldRemove {
        sessionPeers := sessionPeers - {s};
        assert sessionPeers == old(sessionPeers) - {s};
      }
    }

    /** `listed` is the order the hash set happened to be iterated in. */
    method BroadcastToSessionExcept(s: Session, excluded: Option<Peer>, closed: set<Sink>)
      returns (listed: seq<Peer>, sent: seq<Attempt>)
      modifies this
      ensures ListsExactly(listed, PeersOf(old(Snapshot()), s))
      ensures sent == Attempts(Targets(listed, excluded, old(peers)), closed)
      ensures Snapshot() == FinishAll(old(Snapshot()), Unregisters(Failed(sent)))
    {
      hide Finish, Targets, ListsExactly, Failed;
      listed := ListSet(if s in sessionPeers then sessionPeers[s] else {});
      sent := [];
      if listed == [] {
        NothingToSend(old(Snapshot()), excluded, closed);
        return;
      }
      var sinks := SelectSinks(listed, excluded);
      var stale := [];
      NothingFailed();
      for i := 0 to |sinks|
        invariant Snapshot() == old(Snapshot())
        invariant sent == Attempts(sinks[..i], closed)
        invariant stale == Failed(sent)
      {
        ghost var before := sent;
        var delivered := sinks[i].1 !in closed;
        sent := sent + [Attempt(sinks[i].0, sinks[i].1, delivered)];
        FailedMore(before, Attempt(sinks[i].0, sinks[i].1, delivered));
        assert sinks[..i + 1] == sinks[..i] + [sinks[i]];
        if !delivered {
          stale := stale + [sinks[i].0];
        }
      }
      assert sinks[..|sinks|] == sinks;
      for i := 0 to |stale|
        invariant FinishAll(old(Snapshot()), Unregisters(stale)) == FinishAll(Snapshot(), Unregisters(stale[i..]))
      {
        assert Unregisters(stale[i..])[1..] == Unregisters(stale[i + 1..]);
        UnregisterPeer(stale[i]);
      }
      assert Unregisters(stale[|stale|..]) == [];
    }

    /** `filter` and `filter_map` over the listed peers, in order. */
    method SelectSinks(listed: seq<Peer>, excluded: Option<Peer>) returns (sinks: seq<(Peer, Sink)>)
      ensures sinks == Targets(listed, excluded, peers)
    {
      sinks := [];
      for i := 0 to |listed|
        invariant sinks + Targets(listed[i..], excluded, peers) == Targets(listed, excluded, peers)
      {
        assert listed[i..][1..] == listed[i + 1..];
        if excluded != Some(listed[i]) && listed[i] in peers {
          sinks := sinks + [(listed[i], peers[listed[i]])];
        }
      }
    }
  }

  /** No trace of the peer in any of the three maps. */
  ghost predicate Gone(ix: Index, p: Peer) {
    p !in ix.peers && p !in ix.peerSessions && forall s :: !Listed(ix.sessionPeers, p, s)
  }

  predicate SameSink(ix: Index, next: Index, p: Peer) {
    (p in ix.peers <==> p in next.peers) && (p in ix.peers ==> ix.peers[p] == next.peers[p])
  }

  /** The broadcast's outcome for a caller: who is written to, and who is gone afterwards. */
  lemma BroadcastReaches(ix: Index, s: Session, excluded: Option<Peer>, closed: set<Sink>, listed: seq<Peer>)
    requires Inverse(ix) && ListsExactly(listed, PeersOf(ix, s))
    ensures var sent := Attempts(Targets(listed, excluded, ix.peers), closed);
      var next := FinishAll(ix, Unregisters(Failed(sent)));
      && Inverse(next)
      && (forall p :: (exists i :: 0 <= i < |sent| && sent[i].p == p) <==>
            Listed(ix.sessionPeers, p, s) && excluded != Some(p) && p in ix.peers)
      && (forall p :: p in Failed(sent) <==>
            Listed(ix.sessionPeers, p, s) && excluded != Some(p) && p in ix.peers && ix.peers[p] in closed)
      && (forall p :: p in Failed(sent) ==> Gone(next, p))
      && (forall p :: p !in Failed(sent) ==> SameRows(ix, next, p) && SameSink(ix, next, p))
  {
    var targets := Targets(listed, excluded, ix.peers);
    var sent := Attempts(targets, closed);
    TargetsAre(listed, excluded, ix.peers);
    FailedAre(sent);
    forall p ensures (exists i :: 0 <= i < |sent| && sent[i].p == p) <==>
                     Listed(ix.sessionPeers, p, s) && excluded != Some(p) && p in ix.peers
    {
      WrittenAre(ix, s, excluded, closed, listed, p);
    }
    forall p ensures p in Failed(sent) <==>
                     Listed(ix.sessionPeers, p, s) && excluded != Some(p) && p in ix.peers && ix.peers[p] in closed
    {
      WrittenAre(ix, s, excluded, closed, listed, p);
      if p in Failed(sent) {
        var i :| 0 <= i < |sent| && sent[i].p == p && !sent[i].delivered;
        assert (targets[i].0, targets[i].1) in targets;
      }
    }
    UnregistersGone(ix, Failed(sent));
  }

  lemma ListedAre(order: seq<Peer>, peers: set<Peer>, p: Peer)
    requires ListsExactly(order, peers)
    ensures p in order <==> p in peers
  {
    var all := set q | q in order;
    assert p in order <==> p in all;
  }

  lemma WrittenAre(ix: Index, s: Session, excluded: Option<Peer>, closed: set<Sink>, listed: seq<Peer>, p: Peer)
    requires ListsExactly(listed, PeersOf(ix, s))
    ensures var sent := Attempts(Targets(listed, excluded, ix.peers), closed);
      && ((exists i :: 0 <= i < |sent| && sent[i].p == p) <==>
            Listed(ix.sessionPeers, p, s) && excluded != Some(p) && p in ix.peers)
      && (Listed(ix.sessionPeers, p, s) && excluded != Some(p) && p in ix.peers && ix.peers[p] in closed ==>
            exists i :: 0 <= i < |sent| && sent[i].p == p && !sent[i].delivered)
  {
    var targets := Targets(listed, excluded, ix.peers);
    var sent := Attempts(targets, closed);
    TargetsAre(listed, excluded, ix.peers);
    ListedAre(listed, PeersOf(ix, s), p);
    if Listed(ix.sessionPeers, p, s) && excluded != Some(p) && p in ix.peers {
      assert (p, ix.peers[p]) in targets;
      var i :| 0 <= i < |targets| && targets[i] == (p, ix.peers[p]);
      assert sent[i].p == p;
    }
    if i :| 0 <= i < |sent| && sent[i].p == p {
      assert (targets[i].0, targets[i].1) in targets;
    }
  }

  lemma {:induction false} FailedAre(sent: seq<Attempt>)
    ensures forall p :: p in Failed(sent) <==> exists i :: 0 <= i < |sent| && sent[i].p == p && !sent[i].delivered
  {
    if sent != [] {
      var init := sent[..|sent| - 1];
      FailedAre(init);
      forall p ensures p in Failed(sent) <==> exists i :: 0 <= i < |sent| && sent[i].p == p && !sent[i].delivered {
        if p in Failed(init) {
          var i :| 0 <= i < |init| && init[i].p == p && !init[i].delivered;
          assert sent[i] == init[i];
        }
        if i :| 0 <= i < |sent| && sent[i].p == p && !sent[i].delivered {
          assert i < |init| ==> init[i] == sent[i];
        }
      }
    }
  }

  lemma UnregisterParts(ix: Index, p: Peer)
    ensures Finish(ix, Unregister(p)).peers == ix.peers - {p}
    ensures Finish(ix, Unregister(p)).peerSessions == ix.peerSessions - {p}
  {
    var one := ix.(peers := ix.peers - {p});
    assert Finish(ix, Unregister(p)) == Finish(one, UnregisterIndex(p));
    if p in ix.peerSessions {
      var two := one.(peerSessions := one.peerSessions - {p});
      assert Finish(one, UnregisterIndex(p)) == Finish(two, UnregisterSession(p, ix.peerSessions[p]));
      assert Finish(two, UnregisterSession(p, ix.peerSessions[p])) == Leave(two, p, ix.peerSessions[p]);
    }
  }

  /** Unregistering removes every trace of one peer and touches no other. */
  lemma UnregisterGone(ix: Index, p: Peer)
    requires Inverse(ix)
    ensures var next := Finish(ix, Unregister(p));
      && Inverse(next) && Gone(next, p)
      && forall q :: q != p ==> SameRows(ix, next, q) && SameSink(ix, next, q)
  {
    hide Finish;
    UnregisterParts(ix, p);
    FinishKeepsInverse(ix, Unregister(p));
    forall q | q != p ensures SameRows(ix, Finish(ix, Unregister(p)), q) {
      FinishOthers(ix, Unregister(p), q);
    }
  }

  lemma {:induction false} UnregistersGone(ix: Index, stale: seq<Peer>)
    requires Inverse(ix)
    ensures var next := FinishAll(ix, Unregisters(stale));
      && Inverse(next)
      && (forall p :: p in stale ==> Gone(next, p))
      && (forall p :: p !in stale ==> SameRows(ix, next, p) && SameSink(ix, next, p))
    decreases |stale|
  {
    hide Finish, Inverse;
    if stale != [] {
      var one := Finish(ix, Unregister(stale[0]));
      UnregisterGone(ix, stale[0]);
      UnregistersGone(one, stale[1..]);
      assert Unregisters(stale)[1..] == Unregisters(stale[1..]);
      var next := FinishAll(one, Unregisters(stale[1..]));
      forall p ensures if p in stale then Gone(next, p) else SameRows(ix, next, p) && SameSink(ix, next, p) {
        assert p in stale <==> p == stale[0] || p in stale[1..];
        if p !in stale {
          SameTwice(ix, one, next, p);
        } else if p !in stale[1..] {
          GoneStays(one, next, p);
        }
      }
    }
  }

  lemma SameTwice(a: Index, b: Index, c: Index, p: Peer)
    requires SameRows(a, b, p) && SameSink(a, b, p) && SameRows(b, c, p) && SameSink(b, c, p)
    ensures SameRows(a, c, p) && SameSink(a, c, p)
  {
  }

  lemma GoneStays(a: Index, b: Index, p: Peer)
    requires Gone(a, p) && SameRows(a, b, p) && SameSink(a, b, p)
    ensures Gone(b, p)
  {
  }

  // ----- a call in flight that nothing interrupts is the method -----

  function Ticks(id: Id, n: nat): seq<Event> {
    seq(n, _ => Tick(id, [], true))
  }

  /** However many other calls are pending, the steps of one call taken in a row finish it. */
  lemma {:induction false} AloneFinishes(st: State, id: Id) returns (n: nat)
    requires id in st.tasks && st.tasks[id].Plain?
    ensures EnabledRun(st, Ticks(id, n))
    ensures Run(st, Ticks(id, n)) ==
      State(Finish(st.ix, st.tasks[id].op), st.tasks - {id}, st.used, st.log)
    decreases Rank(st.tasks[id].op)
  {
    hide StepOp;
    var op := st.tasks[id].op;
    var (next, rest) := StepOp(st.ix, op);
    var tick := Tick(id, [], true);
    var after := Apply(st, tick);
    if rest.None? {
      n := 1;
      assert Ticks(id, 1)[1..] == [];
    } else {
      StepRank(st.ix, op);
      var m := AloneFinishes(after, id);
      n := m + 1;
      assert Ticks(id, n)[1..] == Ticks(id, m);
      assert after.tasks - {id} == st.tasks - {id};
    }
  }

  lemma StepRank(ix: Index, op: Op)
    ensures var (_, rest) := StepOp(ix, op); rest.Some? ==> Rank(rest.value) < Rank(op)
  {
  }

  // ----- a broadcast in flight that nothing interrupts is the method -----

  lemma RunConcat(st: State, a: seq<Event>, b: seq<Event>)
    requires EnabledRun(st, a) && EnabledRun(Run(st, a), b)
    ensures EnabledRun(st, a + b) && Run(st, a + b) == Run(Run(st, a), b)
    decreases |a|
  {
    hide Apply, Enabled;
    if a == [] {
      assert a + b == b;
    } else {
      RunConcat(Apply(st, a[0]), a[1..], b);
      assert (a + b)[0] == a[0] && (a + b)[1..] == a[1..] + b;
    }
  }

  /** The clean-up: one `unregister` after the other. */
  lemma {:induction false} CleanupAlone(st: State, id: Id) returns (events: seq<Event>)
    requires id in st.tasks && st.tasks[id].Cleaning?
    ensures EnabledRun(st, events)
    ensures Run(st, events) ==
      State(FinishAll(Finish(st.ix, st.tasks[id].op), Unregisters(st.tasks[id].rest)), st.tasks - {id}, st.used, st.log)
    decreases |st.tasks[id].rest|, Rank(st.tasks[id].op)
  {
    hide StepOp;
    var Cleaning(op, rest) := st.tasks[id];
    var (next, more) := StepOp(st.ix, op);
    var tick := Tick(id, [], true);
    var after := Apply(st, tick);
    if more.Some? {
      StepRank(st.ix, op);
      var later := CleanupAlone(after, id);
      events := [tick] + later;
      assert events[1..] == later && after.tasks - {id} == st.tasks - {id};
    } else if rest == [] {
      events := [tick];
      assert events[1..] == [] && Unregisters([]) == [];
    } else {
      var later := CleanupAlone(after, id);
      events := [tick] + later;
      assert events[1..] == later && after.tasks - {id} == st.tasks - {id};
      assert Unregisters(rest)[1..] == Unregisters(rest[1..]);
    }
  }

  /** The state once these further attempts are made and the list of targets is done with. */
  function Sent(st: State, id: Id, more: seq<Attempt>): State
    requires id in st.tasks && st.tasks[id].Sending? && id in st.log
  {
    var Sending(targets, _, stale) := st.tasks[id];
    State(st.ix, st.tasks[id := Sending(targets, |targets|, stale + Failed(more))], st.used,
          st.log[id := st.log[id].(sent := st.log[id].sent + more)])
  }

  lemma OneSend(st: State, id: Id, delivered: bool)
    requires id in st.tasks && st.tasks[id].Sending? && id in st.log && st.tasks[id].next < |st.tasks[id].targets|
    ensures var Sending(targets, n, stale) := st.tasks[id];
      var a := Attempt(targets[n].0, targets[n].1, delivered);
      Apply(st, Tick(id, [], delivered))
      == State(st.ix, st.tasks[id := Sending(targets, n + 1, stale + Failed([a]))], st.used,
               st.log[id := st.log[id].(sent := st.log[id].sent + [a])])
  {
    hide StepOp, Failed;
    var Sending(targets, n, stale) := st.tasks[id];
    FailedOne(Attempt(targets[n].0, targets[n].1, delivered));
    assert stale + [] == stale;
  }

  lemma SentMore(st: State, id: Id, a: Attempt, rest: seq<Attempt>)
    requires id in st.tasks && st.tasks[id].Sending? && id in st.log && st.tasks[id].next < |st.tasks[id].targets|
    requires var Sending(targets, n, _) := st.tasks[id]; a == Attempt(targets[n].0, targets[n].1, a.delivered)
    ensures var after := Apply(st, Tick(id, [], a.delivered));
      && id in after.tasks && after.tasks[id].Sending? && id in after.log
      && Sent(after, id, rest) == Sent(st, id, [a] + rest)
  {
    hide StepOp, Failed, Apply;
    OneSend(st, id, a.delivered);
    FailedFirst(a, rest);
    var stale := st.tasks[id].stale;
    assert stale + (Failed([a]) + Failed(rest)) == stale + Failed([a]) + Failed(rest);
    assert st.log[id].sent + ([a] + rest) == st.log[id].sent + [a] + rest;
  }

  lemma SentNothing(st: State, id: Id)
    requires id in st.tasks && st.tasks[id].Sending? && id in st.log && st.tasks[id].next == |st.tasks[id].targets|
    ensures Sent(st, id, []) == st
  {
    NothingFailed();
    assert st.tasks[id].stale + [] == st.tasks[id].stale && st.log[id].sent + [] == st.log[id].sent;
    assert st.tasks[id := st.tasks[id]] == st.tasks && st.log[id := st.log[id]] == st.log;
  }

  /** The sends: each target in turn, with the outcome its sink has. */
  lemma {:induction false} SendsAlone(st: State, id: Id, closed: set<Sink>) returns (events: seq<Event>)
    requires id in st.tasks && st.tasks[id].Sending? && id in st.log && st.tasks[id].next <= |st.tasks[id].targets|
    ensures EnabledRun(st, events)
    ensures Run(st, events) == Sent(st, id, Attempts(st.tasks[id].targets[st.tasks[id].next..], closed))
    decreases |st.tasks[id].targets| - st.tasks[id].next
  {
    hide Failed, Apply, Sent;
    var Sending(targets, n, stale) := st.tasks[id];
    var more := Attempts(targets[n..], closed);
    if n == |targets| {
      events := [];
      assert more == [];
      SentNothing(st, id);
    } else {
      var a := Attempt(targets[n].0, targets[n].1, targets[n].1 !in closed);
      var tick := Tick(id, [], a.delivered);
      OneSend(st, id, a.delivered);
      var later := SendsAlone(Apply(st, tick), id, closed);
      events := [tick] + later;
      assert events[1..] == later;
      var rest := Attempts(targets[n + 1..], closed);
      assert targets[n..][1..] == targets[n + 1..] && more == [a] + rest;
      SentMore(st, id, a, rest);
    }
  }

  lemma FailedOne(a: Attempt)
    ensures Failed([a]) == if a.delivered then [] else [a.p]
  {
    assert [a][..0] == [] && Failed([]) == [];
  }

  lemma {:induction false} FailedFirst(a: Attempt, rest: seq<Attempt>)
    ensures Failed([a] + rest) == Failed([a]) + Failed(rest)
    decreases |rest|
  {
    hide Failed;
    if rest == [] {
      NothingFailed();
      assert [a] + rest == [a] && Failed([a]) + [] == Failed([a]);
    } else {
      var init, last := rest[..|rest| - 1], Last(rest);
      FailedFirst(a, init);
      FailedMore([a] + init, last);
      FailedMore(init, last);
      assert [a] + rest == [a] + init + [last] && rest == init + [last];
    }
  }

  /**
   A broadcast whose steps are taken in a row: it writes what the method writes and leaves the index the method leaves,
   for every order in which the peers can be listed.
   */
  lemma BroadcastAlone(st: State, id: Id, order: seq<Peer>, closed: set<Sink>) returns (events: seq<Event>)
    requires id in st.tasks && st.tasks[id].Announce? && ListsExactly(order, PeersOf(st.ix, st.tasks[id].s))
    ensures EnabledRun(st, events)
    ensures var sent := Attempts(Targets(order, st.tasks[id].excluded, st.ix.peers), closed);
      var last := Run(st, events);
      && last.ix == FinishAll(st.ix, Unregisters(Failed(sent)))
      && last.tasks == st.tasks - {id} && last.used == st.used
      && (order != [] ==> id in last.log && last.log[id].sent == sent)
  {
    hide Finish, Targets, Failed, ListsExactly;
    var excluded := st.tasks[id].excluded;
    var targets := Targets(order, excluded, st.ix.peers);
    var sent := Attempts(targets, closed);
    var announce := Tick(id, order, true);
    var one := Apply(st, announce);
    if order == [] {
      events := [announce];
      assert events[1..] == [];
      NothingToSend(st.ix, excluded, closed);
    } else {
      var collect := Tick(id, [], true);
      var two := Apply(one, collect);
      var sends := SendsAlone(two, id, closed);
      var three := Run(two, sends);
      assert targets[0..] == targets && [] + sent == sent && [] + Failed(sent) == Failed(sent);
      var four := Apply(three, collect);
      var head := [announce, collect];
      assert head[1..] == [collect] && [collect][1..] == [];
      assert EnabledRun(one, [collect]) && Run(one, [collect]) == two;
      var cleaning := [];
      if Failed(sent) != [] {
        cleaning := CleanupAlone(four, id);
        CleanupIs(st.ix, Failed(sent));
      } else {
        assert Unregisters([]) == [];
      }
      assert ([collect] + cleaning)[1..] == cleaning;
      var tail := [collect] + cleaning;
      assert EnabledRun(three, tail) && Run(three, tail) == Run(four, cleaning);
      RunConcat(two, sends, tail);
      RunConcat(st, head, sends + tail);
      events := head + (sends + tail);
      assert four.tasks - {id} == st.tasks - {id};
    }
  }

  lemma CleanupIs(ix: Index, stale: seq<Peer>)
    requires stale != []
    ensures FinishAll(ix, Unregisters(stale)) == FinishAll(Finish(ix, Unregister(stale[0])), Unregisters(stale[1..]))
  {
    hide Finish;
    assert Unregisters(stale)[1..] == Unregisters(stale[1..]);
  }
}
