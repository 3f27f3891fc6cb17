/**
 The three maps of `PushCenter` and the steps its methods take on them.

 Each map has its own lock, so a method is a chain of steps, one per lock held; between two steps
 anything else may run.  An `Op` is a call in flight, named after the step it takes next.
 */
module PushIndex {
  import opened Prelude

  type Peer = string
  type Session = string
  type Sink = nat

  datatype Index = Index(
    peers: map<Peer, Sink>, peerSessions: map<Peer, Session>, sessionPeers: map<Session, set<Peer>>)

  const EMPTY := Index(map[], map[], map[])

  datatype Op =
    | Register(p: Peer, sink: Sink)
    | Unregister(p: Peer)
    | UnregisterIndex(p: Peer)
    | UnregisterSession(p: Peer, s: Session)
    | Subscribe(p: Peer, s: Session)
    | Move(p: Peer, prev: Session, s: Session)
    | Join(p: Peer, s: Session)

  /** The peer's row in `session_peers[s]`. */
  predicate Listed(sessionPeers: map<Session, set<Peer>>, p: Peer, s: Session) {
    s in sessionPeers && p in sessionPeers[s]
  }

  /** `remove_peer_from_session`: drop the peer, and the session with its last peer. */
  function Leave(ix: Index, p: Peer, s: Session): Index {
    if s !in ix.sessionPeers then ix
    else
      var rest := ix.sessionPeers[s] - {p};
      ix.(sessionPeers := if rest == {} then ix.sessionPeers - {s} else ix.sessionPeers[s := rest])
  }

  function Enter(ix: Index, p: Peer, s: Session): Index {
    var others := if s in ix.sessionPeers then ix.sessionPeers[s] else {};
    ix.(sessionPeers := ix.sessionPeers[s := others + {p}])
  }

  /** One lock-sized step, and what is left of the call. */
  function StepOp(ix: Index, op: Op): (Index, Option<Op>) {
    match op
    case Register(p, sink) => (ix.(peers := ix.peers[p := sink]), None)
    case Unregister(p) => (ix.(peers := ix.peers - {p}), Some(UnregisterIndex(p)))
    case UnregisterIndex(p) =>
      (ix.(peerSessions := ix.peerSessions - {p}),
       if p in ix.peerSessions then Some(UnregisterSession(p, ix.peerSessions[p])) else None)
    case UnregisterSession(p, s) => (Leave(ix, p, s), None)
    case Subscribe(p, s) =>
      (ix.(peerSessions := ix.peerSessions[p := s]),
       if p !in ix.peerSessions then Some(Join(p, s))
       else if ix.peerSessions[p] == s then None
       else Some(Move(p, ix.peerSessions[p], s)))
    case Move(p, prev, s) => (Leave(ix, p, prev), Some(Join(p, s)))
    case Join(p, s) => (Enter(ix, p, s), None)
  }

  function Rank(op: Op): nat {
    match op
    case Unregister(_) => 3
    case UnregisterIndex(_) => 2
    case Subscribe(_, _) => 3
    case Move(_, _, _) => 2
    case _ => 1
  }

  /** A call that runs without interruption. */
  function Finish(ix: Index, op: Op): Index
    decreases Rank(op)
  {
    var (next, rest) := StepOp(ix, op);
    if rest.None? then next else Finish(next, rest.value)
  }

  /** Calls that run one after the other. */
  function FinishAll(ix: Index, ops: seq<Op>): Index
    decreases |ops|
  {
    if ops == [] then ix else FinishAll(Finish(ix, ops[0]), ops[1..])
  }

  // ----- what the index should say -----

  /** Both maps name the same session for the peer, or neither names one. */
  ghost predicate Agree(ix: Index, p: Peer) {
    forall s :: Listed(ix.sessionPeers, p, s) <==> p in ix.peerSessions && ix.peerSessions[p] == s
  }

  /** `session_peers` is exactly the inverse of `peer_sessions`. */
  ghost predicate Inverse(ix: Index) {
    forall p, s :: Listed(ix.sessionPeers, p, s) <==> p in ix.peerSessions && ix.peerSessions[p] == s
  }

  ghost predicate AtMostOneSession(ix: Index) {
    forall p, s, t :: Listed(ix.sessionPeers, p, s) && Listed(ix.sessionPeers, p, t) ==> s == t
  }

  predicate NoEmptySession(ix: Index) {
    forall s :: s in ix.sessionPeers ==> ix.sessionPeers[s] != {}
  }

  /** The peer whose rows the call still has to change. */
  function Busy(op: Op): Option<Peer> {
    if op.Register? then None else Some(op.p)
  }

  /** Where the peer stands in the middle of a call on it. */
  ghost predicate Stage(ix: Index, op: Op) {
    match op
    case Register(_, _) => true
    case UnregisterSession(p, s) => p !in ix.peerSessions && forall t :: Listed(ix.sessionPeers, p, t) <==> t == s
    case Move(p, prev, s) =>
      p in ix.peerSessions && ix.peerSessions[p] == s && forall t :: Listed(ix.sessionPeers, p, t) <==> t == prev
    case Join(p, s) => p in ix.peerSessions && ix.peerSessions[p] == s && forall t :: !Listed(ix.sessionPeers, p, t)
    case _ => Agree(ix, op.p)
  }

  lemma LeaveLists(ix: Index, p: Peer, s: Session)
    ensures forall q, t ::
      Listed(Leave(ix, p, s).sessionPeers, q, t) <==> Listed(ix.sessionPeers, q, t) && !(q == p && t == s)
  {
    if s in ix.sessionPeers {
      var rest := ix.sessionPeers[s] - {p};
      assert forall q :: q in ix.sessionPeers[s] <==> q in rest || (q == p && p in ix.sessionPeers[s]);
    }
  }

  lemma EnterLists(ix: Index, p: Peer, s: Session)
    ensures forall q, t ::
      Listed(Enter(ix, p, s).sessionPeers, q, t) <==> Listed(ix.sessionPeers, q, t) || (q == p && t == s)
  {
  }

  /** A step moves its own peer to the next stage, or back into agreement, and leaves the others alone. */
  lemma StepStage(ix: Index, op: Op)
    requires Stage(ix, op)
    ensures var (next, rest) := StepOp(ix, op);
      (rest.Some? ==> Stage(next, rest.value) && Busy(rest.value) == Busy(op))
      && (rest.None? && Busy(op).Some? ==> Agree(next, op.p))
  {
    match op
    case UnregisterSession(p, s) => LeaveLists(ix, p, s);
    case Move(p, prev, s) => LeaveLists(ix, p, prev);
    case Join(p, s) => EnterLists(ix, p, s);
    case _ =>
  }

  /** Rows of other peers are untouched. */
  ghost predicate SameRows(ix: Index, next: Index, q: Peer) {
    && (q in ix.peerSessions <==> q in next.peerSessions)
    && (q in ix.peerSessions ==> ix.peerSessions[q] == next.peerSessions[q])
    && forall t :: Listed(ix.sessionPeers, q, t) <==> Listed(next.sessionPeers, q, t)
  }

  lemma StepOthers(ix: Index, op: Op, q: Peer)
    requires Busy(op) != Some(q)
    ensures SameRows(ix, StepOp(ix, op).0, q)
  {
    match op
    case UnregisterSession(p, s) => LeaveLists(ix, p, s);
    case Move(p, prev, s) => LeaveLists(ix, p, prev);
    case Join(p, s) => EnterLists(ix, p, s);
    case _ =>
  }

  lemma StepKeepsNonEmpty(ix: Index, op: Op)
    requires NoEmptySession(ix)
    ensures NoEmptySession(StepOp(ix, op).0)
  {
  }

  lemma InverseIsAgree(ix: Index)
    ensures Inverse(ix) <==> forall p :: Agree(ix, p)
  {
    if forall p :: Agree(ix, p) {
      forall p, s ensures Listed(ix.sessionPeers, p, s) <==> p in ix.peerSessions && ix.peerSessions[p] == s {
        assert Agree(ix, p);
      }
    }
  }

  /** A call run alone keeps the two maps inverse to each other. */
  lemma {:induction false} FinishAgrees(ix: Index, op: Op, q: Peer)
    requires Stage(ix, op) && (Busy(op) != Some(q) ==> Agree(ix, q))
    ensures Agree(Finish(ix, op), q)
    decreases Rank(op)
  {
    var (next, rest) := StepOp(ix, op);
    StepStage(ix, op);
    if Busy(op) != Some(q) {
      StepOthers(ix, op, q);
      assert Agree(next, q);
    }
    if rest.Some? {
      FinishAgrees(next, rest.value, q);
    }
  }

  predicate Call(op: Op) {
    op.Register? || op.Unregister? || op.Subscribe?
  }

  lemma FinishKeepsInverse(ix: Index, op: Op)
    requires Inverse(ix) && Call(op)
    ensures Inverse(Finish(ix, op))
  {
    InverseIsAgree(ix);
    forall q ensures Agree(Finish(ix, op), q) { FinishAgrees(ix, op, q); }
    InverseIsAgree(Finish(ix, op));
  }

  /** `subscribe` replaces the binding: whatever session the peer was in, it is now in `s` alone. */
  lemma SubscribeRebinds(ix: Index, p: Peer, s: Session)
    requires Inverse(ix)
    ensures var next := Finish(ix, Subscribe(p, s));
      forall t :: Listed(next.sessionPeers, p, t) <==> t == s
    ensures var next := Finish(ix, Subscribe(p, s));
      forall q, t :: q != p ==> (Listed(next.sessionPeers, q, t) <==> Listed(ix.sessionPeers, q, t))
  {
    FinishKeepsInverse(ix, Subscribe(p, s));
    var next := Finish(ix, Subscribe(p, s));
    FinishBinds(ix, p, s);
    forall q, t | q != p ensures Listed(next.sessionPeers, q, t) <==> Listed(ix.sessionPeers, q, t) {
      FinishOthers(ix, Subscribe(p, s), q);
    }
  }

  /** Leaving and entering sessions never changes `peer_sessions`. */
  lemma FinishBinds(ix: Index, p: Peer, s: Session)
    ensures Finish(ix, Subscribe(p, s)).peerSessions == ix.peerSessions[p := s]
  {
    var (next, rest) := StepOp(ix, Subscribe(p, s));
    if rest.Some? && rest.value.Move? {
      assert Finish(next, rest.value) == Finish(Leave(next, p, rest.value.prev), Join(p, s));
    }
  }

  lemma {:induction false} FinishOthers(ix: Index, op: Op, q: Peer)
    requires Busy(op) != Some(q)
    ensures SameRows(ix, Finish(ix, op), q)
    decreases Rank(op)
  {
    StepOthers(ix, op, q);
    var (next, rest) := StepOp(ix, op);
    if rest.Some? {
      assert Busy(rest.value) == Busy(op);
      FinishOthers(next, rest.value, q);
    }
  }
}
