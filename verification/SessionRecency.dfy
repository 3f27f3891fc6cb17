/**
 The session cache against a least-recently-used one.  A tracked state carries the cached sessions in the order
 of their last applied write; the cache itself keeps the order of insertion.
 */
module SessionRecency {
  import opened Prelude
  import opened SessionCache

  datatype Tracked = Tracked(st: State, recent: seq<Id>)

  function IdSet(cache: seq<Entry>): set<Id> {
    set i | 0 <= i < |cache| :: cache[i].id
  }

  /** The members of a set, in the order of the sequence. */
  function Sift(s: seq<Id>, keep: set<Id>): seq<Id> {
    if s == [] then [] else (if s[0] in keep then [s[0]] else []) + Sift(s[1..], keep)
  }

  predicate Applied(st: State, e: Event) {
    e.Update? && !Stale(st.cache, e.id, e.update)
  }

  /** An applied write makes its session the most recent one; what is evicted is no longer tracked. */
  function Track(t: Tracked, e: Event): Tracked {
    var next := Apply(t.st, e);
    Tracked(next, if Applied(t.st, e) then Sift(t.recent, IdSet(next.cache) - {e.id}) + [e.id] else t.recent)
  }

  /** Nobody has been written again since a later session was: both orders are the same. */
  predicate InOrder(t: Tracked) {
    t.recent == Ids(t.st.cache)
  }

  ghost predicate Tracks(t: Tracked) {
    && Sound(t.st) && Distinct(t.recent) && |t.recent| == |t.st.cache|
    && forall x :: x in t.recent <==> x in IdSet(t.st.cache)
  }

  function Pos(s: seq<Id>, x: Id): (i: nat)
    ensures i <= |s| && (x in s <==> i < |s|) && (i < |s| ==> s[i] == x)
  {
    if s == [] || s[0] == x then 0 else 1 + Pos(s[1..], x)
  }

  predicate Before(s: seq<Id>, x: Id, y: Id) {
    Pos(s, x) < Pos(s, y) < |s|
  }

  predicate Evicted(st: State, next: State, x: Id) {
    x in IdSet(st.cache) && x !in IdSet(next.cache)
  }

  predicate KeptOther(st: State, next: State, e: Event, y: Id)
    requires e.Update?
  {
    y in IdSet(next.cache) && Other(y, st.current, e.id)
  }

  /** Of the sessions neither current nor written, those evicted were written before those kept. */
  ghost predicate EvictsLeastRecent(t: Tracked, e: Event) {
    Applied(t.st, e) ==>
      forall x, y ::
        Evicted(t.st, Apply(t.st, e), x) && KeptOther(t.st, Apply(t.st, e), e, y) ==> Before(t.recent, x, y)
  }

  // ----- identifiers -----

  lemma {:induction false} PosAt(s: seq<Id>, i: nat)
    requires Distinct(s) && i < |s|
    ensures Pos(s, s[i]) == i
  {
    if i > 0 {
      assert s[0] != s[i];
      PosAt(s[1..], i - 1);
    }
  }

  lemma FindSet(cache: seq<Entry>, id: Id)
    ensures Find(cache, id).Some? <==> id in IdSet(cache)
  {
    if id in IdSet(cache) {
      var i :| 0 <= i < |cache| && cache[i].id == id;
    }
  }

  lemma {:induction false} SiftHolds(s: seq<Id>, keep: set<Id>, x: Id)
    ensures x in Sift(s, keep) <==> x in s && x in keep
  {
    if s != [] {
      SiftHolds(s[1..], keep, x);
      assert s == [s[0]] + s[1..];
    }
  }

  lemma {:induction false} SiftDistinct(s: seq<Id>, keep: set<Id>)
    requires Distinct(s)
    ensures Distinct(Sift(s, keep))
  {
    if s != [] {
      SiftDistinct(s[1..], keep);
      SiftHolds(s[1..], keep, s[0]);
    }
  }

  lemma {:induction false} SiftConcat(a: seq<Id>, b: seq<Id>, keep: set<Id>)
    ensures Sift(a + b, keep) == Sift(a, keep) + Sift(b, keep)
  {
    if a == [] {
      assert a + b == b;
    } else {
      SiftConcat(a[1..], b, keep);
      assert (a + b)[1..] == a[1..] + b && (a + b)[0] == a[0];
    }
  }

  lemma {:induction false} SiftWithout(s: seq<Id>, keep: set<Id>, x: Id)
    requires x !in s
    ensures Sift(s, keep - {x}) == Sift(s, keep)
  {
    if s != [] {
      SiftWithout(s[1..], keep, x);
    }
  }

  lemma PosCons(a: Id, s: seq<Id>, x: Id)
    ensures Pos([a] + s, x) == if a == x then 0 else 1 + Pos(s, x)
  {
    assert ([a] + s)[1..] == s;
  }

  lemma SiftCons(a: Id, s: seq<Id>, keep: set<Id>)
    ensures Sift([a] + s, keep) == (if a in keep then [a] else []) + Sift(s, keep)
  {
    assert ([a] + s)[1..] == s;
  }

  lemma BeforeCons(a: Id, s: seq<Id>, x: Id, y: Id)
    ensures Before([a] + s, x, y) <==> if a == x then x != y && y in s else a != y && Before(s, x, y)
  {
    PosCons(a, s, x);
    PosCons(a, s, y);
    hide Pos;
  }

  lemma {:induction false} SiftBefore(s: seq<Id>, keep: set<Id>, x: Id, y: Id)
    requires x in keep && y in keep && Before(s, x, y)
    ensures Before(Sift(s, keep), x, y)
  {
    hide Sift, Before;
    assert s != [] by { BeforeSome(s, x, y); }
    var a, rest := s[0], s[1..];
    assert s == [a] + rest;
    BeforeCons(a, rest, x, y);
    SiftCons(a, rest, keep);
    SiftHolds(rest, keep, y);
    BeforeCons(a, Sift(rest, keep), x, y);
    if a != x {
      SiftBefore(rest, keep, x, y);
    }
    assert [] + Sift(rest, keep) == Sift(rest, keep);
  }

  lemma BeforeSome(s: seq<Id>, x: Id, y: Id)
    requires Before(s, x, y)
    ensures s != []
  {
  }

  lemma {:induction false} BeforeConcat(s: seq<Id>, x: Id, y: Id, z: Id)
    requires Before(s, x, y)
    ensures Before(s + [z], x, y)
  {
    assert (s + [z])[0] == s[0];
    if s[0] != x {
      assert (s + [z])[1..] == s[1..] + [z];
      BeforeConcat(s[1..], x, y, z);
    }
  }

  /** The identifiers that survive, in order. */
  lemma {:induction false} SurvivorIds(cache: seq<Entry>, current: Option<Id>, written: Id, keep: set<Id>)
    requires forall i :: 0 <= i < |cache| ==> (cache[i].id in keep <==> Kept(cache, i, current, written))
    ensures Ids(Survivors(cache, current, written)) == Sift(Ids(cache), keep)
  {
    hide Kept;
    if cache != [] {
      var rest := cache[1..];
      forall i | 0 <= i < |rest| ensures rest[i].id in keep <==> Kept(rest, i, current, written) {
        KeptTail(cache, i + 1, current, written);
      }
      SurvivorIds(rest, current, written, keep);
      assert cache == [cache[0]] + rest;
      IdsCons(cache[0], rest);
      IdsCons(cache[0], Survivors(rest, current, written));
    }
  }

  // ----- what an applied write does -----

  /** The cache after the write and before eviction. */
  function Written(st: State, e: Event): seq<Entry>
    requires e.Update?
  {
    Put(st.cache, e.id, Merged(st.cache, e.id, e.update))
  }

  /** Behind a kept entry that may be evicted fewer entries that may be stand than behind an evicted one. */
  lemma {:induction false} FewerBehind(cache: seq<Entry>, i: nat, j: nat, current: Option<Id>, written: Id)
    requires i <= j < |cache|
    ensures OthersBehind(cache, j, current, written) <= OthersBehind(cache, i, current, written)
    decreases j - i
  {
    if i < j {
      OthersFrom(cache, i + 1, current, written);
      FewerBehind(cache, i + 1, j, current, written);
    }
  }

  lemma SurvivesIff(st: State, e: Event, i: nat)
    requires Sound(st) && Applied(st, e) && i < |Written(st, e)|
    ensures Written(st, e)[i].id in IdSet(Apply(st, e).cache) <==> Kept(Written(st, e), i, st.current, e.id)
  {
    hide Kept, Survivors, Merged, Find, Others;
    var put, next := Written(st, e), Apply(st, e).cache;
    WriteKeeps(st.cache, st.current, e.id, e.update);
    PutDistinct(st.cache, e.id, Merged(st.cache, e.id, e.update));
    if Kept(put, i, st.current, e.id) {
      assert KeptIn(put, st.current, e.id, put[i]);
      var k :| 0 <= k < |next| && next[k] == put[i];
    }
    if put[i].id in IdSet(next) {
      var k :| 0 <= k < |next| && next[k].id == put[i].id;
      assert next[k] in next;
      var j :| 0 <= j < |put| && put[j] == next[k] && Kept(put, j, st.current, e.id);
    }
  }

  /** Both orders after an applied write: the survivors of the cache as it was written, and of the tracked order. */
  lemma NextIds(st: State, e: Event)
    requires Sound(st) && Applied(st, e)
    ensures Ids(Apply(st, e).cache) == Sift(Ids(Written(st, e)), IdSet(Apply(st, e).cache))
    ensures e.id in IdSet(Apply(st, e).cache)
  {
    hide Kept, Survivors, Put, Merged, Stale;
    var put, next := Written(st, e), Apply(st, e).cache;
    WriteKeeps(st.cache, st.current, e.id, e.update);
    FindSet(next, e.id);
    forall i | 0 <= i < |put| ensures put[i].id in IdSet(next) <==> Kept(put, i, st.current, e.id) {
      SurvivesIff(st, e, i);
    }
    SurvivorIds(put, st.current, e.id, IdSet(next));
  }

  lemma WrittenIds(st: State, e: Event)
    requires e.Update?
    ensures Ids(Written(st, e)) == if e.id in IdSet(st.cache) then Ids(st.cache) else Ids(st.cache) + [e.id]
  {
    hide Merged;
    FindSet(st.cache, e.id);
    PutKeepsPlace(st.cache, e.id, Merged(st.cache, e.id, e.update));
  }

  lemma IdsHold(cache: seq<Entry>, x: Id)
    ensures x in Ids(cache) <==> x in IdSet(cache)
  {
    if x in Ids(cache) {
      var i :| 0 <= i < |Ids(cache)| && Ids(cache)[i] == x;
      assert cache[i].id == x;
    }
    if x in IdSet(cache) {
      var i :| 0 <= i < |cache| && cache[i].id == x;
      assert Ids(cache)[i] == x;
    }
  }

  // ----- with both orders equal, eviction is by recency -----

  lemma InOrderEvicts(t: Tracked, e: Event)
    requires Tracks(t) && InOrder(t)
    ensures EvictsLeastRecent(t, e)
  {
    if Applied(t.st, e) {
      var next := Apply(t.st, e);
      forall x, y | Evicted(t.st, next, x) && KeptOther(t.st, next, e, y) ensures Before(t.recent, x, y) {
        OldestGo(t.st, e, x, y);
      }
    }
  }

  /** An evicted session was inserted before every other that is kept. */
  lemma OldestGo(st: State, e: Event, x: Id, y: Id)
    requires Sound(st) && Applied(st, e) && Evicted(st, Apply(st, e), x) && KeptOther(st, Apply(st, e), e, y)
    ensures Before(Ids(st.cache), x, y)
  {
    hide Kept, Stale, Merged, Put, Others, Write;
    var put, next := Written(st, e), Apply(st, e).cache;
    var before := Ids(st.cache);
    WrittenIds(st, e);
    NextIds(st, e);
    IdsHold(st.cache, x);
    IdsHold(next, y);
    SiftHolds(Ids(put), IdSet(next), y);
    var i, j := Pos(before, x), Pos(before, y);
    assert y in before;
    assert put[i].id == Ids(put)[i] == x && put[j].id == Ids(put)[j] == y;
    SurvivesIff(st, e, i);
    SurvivesIff(st, e, j);
    KeptMeans(put, i, st.current, e.id);
    KeptMeans(put, j, st.current, e.id);
    if j <= i {
      FewerBehind(put, j, i, st.current, e.id);
    }
  }

  lemma KeptMeans(cache: seq<Entry>, i: nat, current: Option<Id>, written: Id)
    requires i < |cache|
    ensures Kept(cache, i, current, written) <==>
      (Other(cache[i].id, current, written) ==> OthersBehind(cache, i, current, written) < MAX_NON_CURRENT)
  {
  }

  // ----- what keeps the orders equal -----

  lemma TrackTracks(t: Tracked, e: Event)
    requires Tracks(t)
    ensures Tracks(Track(t, e))
  {
    hide Stale, Write, Merged;
    ApplySound(t.st, e);
    if !Applied(t.st, e) {
      NotApplied(t.st, e);
    } else {
      var next := Track(t, e);
      var keep := IdSet(next.st.cache) - {e.id};
      NextIds(t.st, e);
      WrittenIds(t.st, e);
      SiftDistinct(t.recent, keep);
      SiftHolds(t.recent, keep, e.id);
      forall x ensures x in next.recent <==> x in IdSet(next.st.cache) {
        SiftHolds(t.recent, keep, x);
        SiftHolds(Ids(Written(t.st, e)), IdSet(next.st.cache), x);
        IdsHold(next.st.cache, x);
        IdsHold(t.st.cache, x);
      }
      SameSize(next.recent, next.st.cache);
    }
  }

  lemma NotApplied(st: State, e: Event)
    requires !Applied(st, e)
    ensures Apply(st, e).cache == st.cache
  {
  }

  lemma SameSize(recent: seq<Id>, cache: seq<Entry>)
    requires Distinct(recent) && DistinctIds(cache) && forall x :: x in recent <==> x in IdSet(cache)
    ensures |recent| == |cache|
  {
    SetOf(recent);
    SetOf(Ids(cache));
    forall x ensures x in Ids(cache) <==> x in IdSet(cache) { IdsHold(cache, x); }
    assert (set x | x in recent) == (set x | x in Ids(cache));
  }

  lemma {:induction false} SetOf(s: seq<Id>)
    requires Distinct(s)
    ensures |set x | x in s| == |s|
  {
    if s != [] {
      var init := s[..|s| - 1];
      SetOf(init);
      assert (set x | x in s) == (set x | x in init) + {Last(s)};
    }
  }

  lemma NewKeepsOrder(t: Tracked, e: Event)
    requires Tracks(t) && InOrder(t) && Applied(t.st, e) && e.id !in IdSet(t.st.cache)
    ensures InOrder(Track(t, e))
  {
    hide Sound, Stale, Write, Merged, Put, Sift, IdSet;
    assert Sound(t.st);
    var keep := IdSet(Apply(t.st, e).cache);
    NextIds(t.st, e);
    WrittenIds(t.st, e);
    IdsHold(t.st.cache, e.id);
    SiftConcat(t.recent, [e.id], keep);
    SiftWithout(t.recent, keep, e.id);
    LoneSift(e.id, keep);
  }

  lemma LastKeepsOrder(t: Tracked, e: Event)
    requires Tracks(t) && InOrder(t) && Applied(t.st, e) && e.id in IdSet(t.st.cache) && t.recent != []
    requires e.id == Last(t.recent)
    ensures InOrder(Track(t, e))
  {
    hide Sound, Stale, Write, Merged, Put, Sift, IdSet;
    assert Sound(t.st);
    var keep := IdSet(Apply(t.st, e).cache);
    NextIds(t.st, e);
    WrittenIds(t.st, e);
    var init := t.recent[..|t.recent| - 1];
    assert t.recent == init + [e.id];
    SiftConcat(init, [e.id], keep);
    SiftConcat(init, [e.id], keep - {e.id});
    SiftWithout(init, keep, e.id);
    LoneSift(e.id, keep);
    LoneSift(e.id, keep - {e.id});
    assert Sift(init, keep) + [] == Sift(init, keep);
  }

  lemma EarlierBreaksOrder(t: Tracked, e: Event)
    requires Tracks(t) && InOrder(t) && Applied(t.st, e) && e.id in IdSet(t.st.cache) && t.recent != []
    requires e.id != Last(t.recent)
    ensures !InOrder(Track(t, e))
  {
    hide Sound, Stale, Write, Merged, Put, Sift, IdSet;
    assert Sound(t.st);
    var next := Apply(t.st, e).cache;
    NextIds(t.st, e);
    WrittenIds(t.st, e);
    var init := t.recent[..|t.recent| - 1];
    assert t.recent == init + [Last(t.recent)];
    SiftConcat(init, [Last(t.recent)], IdSet(next));
    assert Last(t.recent) == Last(t.st.cache).id;
    LastStays(t.st, e);
    LoneSift(Last(t.recent), IdSet(next));
    assert Last(Ids(next)) == Last(t.recent) && Last(Track(t, e).recent) == e.id;
  }

  /** An applied write keeps the orders equal exactly when its session is new or was the last to be inserted. */
  lemma WriteKeepsOrderIff(t: Tracked, e: Event)
    requires Tracks(t) && InOrder(t) && Applied(t.st, e)
    ensures InOrder(Track(t, e)) <==> e.id !in IdSet(t.st.cache) || e.id == Last(t.recent)
  {
    hide Sound, Track, Stale, InOrder;
    if e.id !in IdSet(t.st.cache) {
      NewKeepsOrder(t, e);
    } else if e.id == Last(t.recent) {
      LastKeepsOrder(t, e);
    } else {
      EarlierBreaksOrder(t, e);
    }
  }

  lemma LoneSift(x: Id, keep: set<Id>)
    ensures Sift([x], keep) == if x in keep then [x] else []
  {
    assert [x][1..] == [];
  }

  /** The session inserted last is never evicted by a write to another cached one. */
  lemma LastStays(st: State, e: Event)
    requires Sound(st) && Applied(st, e) && st.cache != [] && e.id in IdSet(st.cache)
    ensures Last(st.cache).id in IdSet(Apply(st, e).cache)
  {
    hide Stale, Write, Merged, Put, Kept;
    var put := Written(st, e);
    WrittenIds(st, e);
    var i := |put| - 1;
    assert Ids(put)[i] == put[i].id && Ids(st.cache)[i] == Last(st.cache).id;
    SurvivesIff(st, e, i);
    KeptMeans(put, i, st.current, e.id);
    assert put[i + 1..] == [];
    NoOthers(st.current, e.id);
  }

  // ----- with the orders different, some eviction goes wrong -----

  /** Events that switch sessions or write to new ones. */
  predicate Fresh(st: State, events: seq<Event>)
    decreases |events|
  {
    events == [] ||
    ((events[0].Update? ==> events[0].id !in IdSet(st.cache)) && Fresh(Apply(st, events[0]), events[1..]))
  }

  /** Every eviction of the run goes by recency. */
  ghost predicate AllByRecency(t: Tracked, events: seq<Event>)
    decreases |events|
  {
    events == [] || (EvictsLeastRecent(t, events[0]) && AllByRecency(Track(t, events[0]), events[1..]))
  }

  lemma NewIsApplied(st: State, e: Event)
    requires e.Update? && e.id !in IdSet(st.cache)
    ensures Applied(st, e)
  {
    FindSet(st.cache, e.id);
  }

  lemma {:induction false} InOrderRuns(t: Tracked, events: seq<Event>)
    requires Tracks(t) && InOrder(t) && Fresh(t.st, events)
    ensures AllByRecency(t, events)
    decreases |events|
  {
    hide Tracks, EvictsLeastRecent, Apply;
    if events != [] {
      var e := events[0];
      InOrderEvicts(t, e);
      TrackTracks(t, e);
      FreshKeepsOrder(t, e);
      InOrderRuns(Track(t, e), events[1..]);
    }
  }

  lemma FreshKeepsOrder(t: Tracked, e: Event)
    requires Tracks(t) && InOrder(t) && (e.Update? ==> e.id !in IdSet(t.st.cache))
    ensures InOrder(Track(t, e))
  {
    hide Tracks, Stale, Write;
    if e.Update? {
      NewIsApplied(t.st, e);
      WriteKeepsOrderIff(t, e);
    }
  }

  lemma {:induction false} Climbs(recent: seq<Id>, ids: seq<Id>, i: nat)
    requires |ids| == |recent| && i < |ids| && forall x :: x in ids ==> x in recent
    requires forall k :: 0 <= k < |ids| - 1 ==> Before(recent, ids[k], ids[k + 1])
    ensures Pos(recent, ids[i]) >= i
  {
    assert ids[i] in recent;
    if i > 0 {
      Climbs(recent, ids, i - 1);
      assert Before(recent, ids[i - 1], ids[i - 1 + 1]);
    }
  }

  lemma {:induction false} ClimbsNoHigher(recent: seq<Id>, ids: seq<Id>, i: nat)
    requires |ids| == |recent| && i < |ids| && forall x :: x in ids ==> x in recent
    requires forall k :: 0 <= k < |ids| - 1 ==> Before(recent, ids[k], ids[k + 1])
    ensures Pos(recent, ids[i]) <= i
    decreases |ids| - i
  {
    assert ids[i] in recent;
    if i < |ids| - 1 {
      ClimbsNoHigher(recent, ids, i + 1);
      assert Before(recent, ids[i], ids[i + 1]);
    }
  }

  lemma SameOrder(recent: seq<Id>, ids: seq<Id>)
    requires |ids| == |recent| && forall x :: x in ids ==> x in recent
    requires forall k :: 0 <= k < |ids| - 1 ==> Before(recent, ids[k], ids[k + 1])
    ensures recent == ids
  {
    hide Before;
    forall k | 0 <= k < |ids| ensures recent[k] == ids[k] {
      Climbs(recent, ids, k);
      ClimbsNoHigher(recent, ids, k);
    }
  }

  /** If the orders differ, some session was written again after the one inserted next. */
  lemma Inversion(t: Tracked) returns (i: nat)
    requires Tracks(t) && !InOrder(t)
    ensures i + 1 < |t.st.cache| && Before(t.recent, t.st.cache[i + 1].id, t.st.cache[i].id)
  {
    hide Before, Pos;
    var ids := Ids(t.st.cache);
    forall x ensures x in ids <==> x in t.recent { IdsHold(t.st.cache, x); }
    if forall k :: 0 <= k < |ids| - 1 ==> Before(t.recent, ids[k], ids[k + 1]) {
      SameOrder(t.recent, ids);
    }
    i :| 0 <= i < |ids| - 1 && !Before(t.recent, ids[i], ids[i + 1]);
    OneWay(t.recent, ids[i], ids[i + 1]);
    assert ids[i] != ids[i + 1];
  }

  lemma OneWay(s: seq<Id>, x: Id, y: Id)
    ensures !(Before(s, x, y) && Before(s, y, x))
    ensures x in s && y in s && x != y ==> Before(s, x, y) || Before(s, y, x)
  {
  }

  /** A name longer than all cached ones. */
  function NewId(cache: seq<Entry>): (id: Id)
    ensures forall i :: 0 <= i < |cache| ==> |cache[i].id| < |id|
  {
    if cache == [] then "n"
    else
      var rest := NewId(cache[1..]);
      assert forall i :: 0 < i < |cache| ==> cache[i] == cache[1..][i - 1];
      rest + cache[0].id
  }

  lemma {:induction false} DropFirst(cache: seq<Entry>, m: nat)
    requires m <= |cache|
    ensures DeleteAll(cache, Ids(cache)[..m]) == cache[m..]
  {
    if m > 0 {
      var ids := Ids(cache)[..m];
      assert ids[0] == cache[0].id && ids[1..] == Ids(cache[1..])[..m - 1];
      DropFirst(cache[1..], m - 1);
    }
  }

  lemma {:induction false} OthersButLast(cache: seq<Entry>, e: Entry)
    requires DistinctIds(cache) && cache != [] && Find(cache, e.id).None?
    ensures Others(cache + [e], Some(Last(cache).id), e.id) == Ids(cache)[..|cache| - 1]
  {
    assert (cache + [e])[0] == cache[0] && (cache + [e])[1..] == cache[1..] + [e];
    if |cache| == 1 {
      assert cache[1..] == [] && [] + [e] == [e] && [e][1..] == [];
      assert Others([e], Some(Last(cache).id), e.id) == [];
    } else {
      DistinctTail(cache);
      assert Last(cache[1..]) == Last(cache) && cache[0].id != cache[|cache| - 1].id && cache[0].id != e.id;
      OthersButLast(cache[1..], e);
      assert Ids(cache)[..|cache| - 1] == [cache[0].id] + Ids(cache[1..])[..|cache| - 2];
    }
  }

  /** The write of a new session evicts the oldest entries that may go, here the first `m`. */
  lemma NewWrite(st: State, e: Event, m: nat)
    requires e.Update? && Find(st.cache, e.id).None? && m <= |st.cache|
    requires var entry := Entry(e.id, Merged(st.cache, e.id, e.update));
      var others := Others(st.cache + [entry], st.current, e.id);
      && m == (if |others| <= MAX_NON_CURRENT then 0 else |others| - MAX_NON_CURRENT)
      && others[..m] == Ids(st.cache)[..m]
    ensures Apply(st, e).cache == st.cache[m..] + [Entry(e.id, Merged(st.cache, e.id, e.update))]
  {
    hide Others, Merged, Evict, DeleteAll;
    var entry := Entry(e.id, Merged(st.cache, e.id, e.update));
    PutAppends(st.cache, e.id, entry.resource);
    var put := st.cache + [entry];
    EvictIs(put, st.current, e.id, m);
    assert Ids(put)[..m] == Ids(st.cache)[..m];
    DropFirst(put, m);
    assert put[m..] == st.cache[m..] + [entry];
  }

  /** With no current session. */
  lemma NewWriteNone(st: State, e: Event) returns (m: nat)
    requires e.Update? && Find(st.cache, e.id).None? && st.current == None && |st.cache| <= 5
    ensures m == if |st.cache| <= 3 then 0 else |st.cache| - 3
    ensures Apply(st, e).cache == st.cache[m..] + [Entry(e.id, Merged(st.cache, e.id, e.update))]
  {
    hide Others, Merged, Write;
    m := if |st.cache| <= 3 then 0 else |st.cache| - 3;
    AllOthers(st.cache, e.id, Entry(e.id, Merged(st.cache, e.id, e.update)));
    NewWrite(st, e, m);
  }

  /** With the last of five sessions current. */
  lemma NewWriteLast(st: State, e: Event)
    requires e.Update? && Find(st.cache, e.id).None? && |st.cache| == 5 && DistinctIds(st.cache)
    requires st.current == Some(Last(st.cache).id)
    ensures Apply(st, e).cache == st.cache[1..] + [Entry(e.id, Merged(st.cache, e.id, e.update))]
  {
    hide Others, Merged, Write;
    OthersButLast(st.cache, Entry(e.id, Merged(st.cache, e.id, e.update)));
    assert Ids(st.cache)[..4][..1] == Ids(st.cache)[..1];
    NewWrite(st, e, 1);
  }

  /** The one of two neighbours that was written last is evicted, the other kept. */
  lemma NeighboursPart(t: Tracked, e: Event, i: nat)
    requires Tracks(t) && e.Update? && e.id !in IdSet(t.st.cache) && i + 1 < |t.st.cache|
    requires Before(t.recent, t.st.cache[i + 1].id, t.st.cache[i].id) && t.st.current != Some(t.st.cache[i + 1].id)
    requires Apply(t.st, e).cache == t.st.cache[i + 1..] + [Entry(e.id, Merged(t.st.cache, e.id, e.update))]
    ensures !EvictsLeastRecent(t, e)
  {
    hide Before, Merged, Stale, Write;
    var cache, next := t.st.cache, Apply(t.st, e);
    var x, y := cache[i].id, cache[i + 1].id;
    NewIsApplied(t.st, e);
    assert x in IdSet(cache) && y in IdSet(cache);
    assert next.cache[0].id == y;
    forall k | 0 <= k < |next.cache| ensures next.cache[k].id != x {
      assert k < |next.cache| - 1 ==> next.cache[k] == cache[i + 1 + k];
    }
    assert Evicted(t.st, next, x) && KeptOther(t.st, next, e, y);
    OneWay(t.recent, x, y);
  }

  /** Two neighbours that are both kept stay neighbours, in both orders. */
  lemma NeighboursStay(t: Tracked, e: Event, i: nat, m: nat)
    requires Tracks(t) && e.Update? && e.id !in IdSet(t.st.cache) && m <= i && i + 1 < |t.st.cache|
    requires Before(t.recent, t.st.cache[i + 1].id, t.st.cache[i].id)
    requires Apply(t.st, e).cache == t.st.cache[m..] + [Entry(e.id, Merged(t.st.cache, e.id, e.update))]
    ensures var u := Track(t, e);
      && u.st.cache[i - m] == t.st.cache[i] && u.st.cache[i - m + 1] == t.st.cache[i + 1]
      && Before(u.recent, t.st.cache[i + 1].id, t.st.cache[i].id)
  {
    hide Before, Merged, Stale, Write;
    var cache, next := t.st.cache, Apply(t.st, e).cache;
    var x, y := cache[i].id, cache[i + 1].id;
    NewIsApplied(t.st, e);
    assert next[i - m] == cache[i] && next[i - m + 1] == cache[i + 1];
    assert x in IdSet(cache) && y in IdSet(cache) && x in IdSet(next) && y in IdSet(next);
    SiftBefore(t.recent, IdSet(next) - {e.id}, y, x);
    BeforeConcat(Sift(t.recent, IdSet(next) - {e.id}), y, x, e.id);
  }

  lemma NewEvent(t: Tracked) returns (e: Event)
    ensures e.Update? && e.id !in IdSet(t.st.cache) && Find(t.st.cache, e.id).None?
  {
    e := Update(NewId(t.st.cache), map[]);
    FindSet(t.st.cache, e.id);
  }

  lemma OneWrong(t: Tracked, e: Event)
    requires !EvictsLeastRecent(t, e) && (e.Update? ==> e.id !in IdSet(t.st.cache))
    ensures Fresh(t.st, [e]) && !AllByRecency(t, [e])
  {
    hide EvictsLeastRecent, Apply;
    assert [e][1..] == [];
  }

  lemma ThenWrong(t: Tracked, e: Event, events: seq<Event>)
    requires (e.Update? ==> e.id !in IdSet(t.st.cache)) && Track(t, e).st == Apply(t.st, e)
    requires Fresh(Apply(t.st, e), events) && !AllByRecency(Track(t, e), events)
    ensures Fresh(t.st, [e] + events) && !AllByRecency(t, [e] + events)
  {
    hide EvictsLeastRecent, Apply, Track;
    assert ([e] + events)[1..] == events;
  }

  /** New sessions come in until the first of two inverted neighbours has to go before the second. */
  lemma {:induction false} GoesWrong(t: Tracked, i: nat) returns (events: seq<Event>)
    requires Tracks(t) && t.st.current == None && |t.st.cache| <= 4 && i + 1 < |t.st.cache|
    requires Before(t.recent, t.st.cache[i + 1].id, t.st.cache[i].id)
    ensures Fresh(t.st, events) && !AllByRecency(t, events)
    decreases 4 - |t.st.cache| + i
  {
    hide Before, Merged, Write, AllByRecency, Fresh, EvictsLeastRecent, Tracks;
    var e := NewEvent(t);
    var m := NewWriteNone(t.st, e);
    if m == i + 1 {
      NeighboursPart(t, e, i);
      OneWrong(t, e);
      events := [e];
    } else {
      NeighboursStay(t, e, i, m);
      TrackTracks(t, e);
      var more := GoesWrong(Track(t, e), i - m);
      ThenWrong(t, e, more);
      events := [e] + more;
    }
  }

  lemma SwitchTracks(t: Tracked, current: Option<Id>)
    requires Tracks(t)
    ensures var u := Track(t, Switch(current));
      Tracks(u) && u.st.cache == t.st.cache && u.recent == t.recent && u.st.current == current
  {
  }

  lemma DifferentGoesWrong(t: Tracked) returns (events: seq<Event>)
    requires Tracks(t) && !InOrder(t)
    ensures Fresh(t.st, events) && !AllByRecency(t, events)
  {
    hide Before, Merged, Write, AllByRecency, Fresh, EvictsLeastRecent;
    var i := Inversion(t);
    var n := |t.st.cache|;
    var switch := Switch(if n == 5 && i == 0 then Some(Last(t.st.cache).id) else None);
    SwitchTracks(t, switch.current);
    var u := Track(t, switch);
    var more: seq<Event>;
    if n <= 4 {
      more := GoesWrong(u, i);
    } else {
      more := FiveGoWrong(u, i);
    }
    ThenWrong(t, switch, more);
    events := [switch] + more;
  }

  lemma FiveGoWrong(t: Tracked, i: nat) returns (events: seq<Event>)
    requires Tracks(t) && |t.st.cache| == 5 && i + 1 < 5
    requires t.st.current == if i == 0 then Some(Last(t.st.cache).id) else None
    requires Before(t.recent, t.st.cache[i + 1].id, t.st.cache[i].id)
    ensures Fresh(t.st, events) && !AllByRecency(t, events)
  {
    hide Before, Merged, Write, AllByRecency, Fresh, EvictsLeastRecent;
    var e := NewEvent(t);
    if i == 0 {
      NewWriteLast(t.st, e);
      NeighboursPart(t, e, 0);
      OneWrong(t, e);
      events := [e];
    } else {
      var m := NewWriteNone(t.st, e);
      if i == 1 {
        NeighboursPart(t, e, 1);
        OneWrong(t, e);
        events := [e];
      } else {
        NeighboursStay(t, e, i, m);
        TrackTracks(t, e);
        var more := GoesWrong(Track(t, e), i - m);
        ThenWrong(t, e, more);
        events := [e] + more;
      }
    }
  }

  /**
   Eviction goes by recency in every continuation that only writes to new sessions exactly when no cached session
   has been written again after one inserted later was.
   */
  lemma RecencyIff(t: Tracked)
    requires Tracks(t)
    ensures InOrder(t) <==> forall events :: Fresh(t.st, events) ==> AllByRecency(t, events)
  {
    hide Tracks, AllByRecency, Fresh, InOrder;
    if InOrder(t) {
      forall events | Fresh(t.st, events) ensures AllByRecency(t, events) { InOrderRuns(t, events); }
    } else {
      var events := DifferentGoesWrong(t);
    }
  }

  // ----- runs from an empty cache -----

  const NEW := Tracked(State(None, []), [])

  function TrackAll(t: Tracked, events: seq<Event>): Tracked
    decreases |events|
  {
    if events == [] then t else TrackAll(Track(t, events[0]), events[1..])
  }

  /** Every applied write is to a new session or to the one inserted last. */
  predicate NoReturns(t: Tracked, events: seq<Event>)
    decreases |events|
  {
    events == [] ||
    ((Applied(t.st, events[0]) ==> events[0].id !in IdSet(t.st.cache) || events[0].id == Last(t.st.cache).id)
     && NoReturns(Track(t, events[0]), events[1..]))
  }

  /** The orders are equal after every event of the run. */
  predicate AlwaysInOrder(t: Tracked, events: seq<Event>)
    decreases |events|
  {
    InOrder(t) && (events == [] || AlwaysInOrder(Track(t, events[0]), events[1..]))
  }

  lemma {:induction false} AlwaysInOrderIff(t: Tracked, events: seq<Event>)
    requires Tracks(t) && InOrder(t)
    ensures AlwaysInOrder(t, events) <==> NoReturns(t, events)
    decreases |events|
  {
    hide Tracks, Apply, Track, Applied;
    if events != [] {
      var e := events[0];
      TrackTracks(t, e);
      OrderStep(t, e);
      if InOrder(Track(t, e)) {
        AlwaysInOrderIff(Track(t, e), events[1..]);
      }
    }
  }

  lemma OrderStep(t: Tracked, e: Event)
    requires Tracks(t) && InOrder(t)
    ensures InOrder(Track(t, e)) <==>
      (Applied(t.st, e) ==> e.id !in IdSet(t.st.cache) || e.id == Last(t.st.cache).id)
  {
    hide Sound, Stale, Write;
    if Applied(t.st, e) {
      WriteKeepsOrderIff(t, e);
      if e.id in IdSet(t.st.cache) {
        assert Last(t.recent) == Last(t.st.cache).id;
      }
    } else {
      NotApplied(t.st, e);
    }
  }

  /**
   Over runs from an empty cache: as long as every applied write is to a new session or to the one inserted last, and
   exactly as long, the cache is in the order of recency, and whatever it evicts was written least recently.
   */
  lemma EvictsByRecencyWhile(events: seq<Event>)
    ensures AlwaysInOrder(NEW, events) <==> NoReturns(NEW, events)
    ensures NoReturns(NEW, events) ==> AllByRecency(NEW, events)
  {
    assert Tracks(NEW);
    AlwaysInOrderIff(NEW, events);
    if NoReturns(NEW, events) {
      InOrderThroughout(NEW, events);
    }
  }

  lemma {:induction false} InOrderThroughout(t: Tracked, events: seq<Event>)
    requires Tracks(t) && AlwaysInOrder(t, events)
    ensures AllByRecency(t, events)
    decreases |events|
  {
    hide Tracks, Apply, Track, EvictsLeastRecent;
    if events != [] {
      InOrderEvicts(t, events[0]);
      TrackTracks(t, events[0]);
      InOrderThroughout(Track(t, events[0]), events[1..]);
    }
  }
}
