/**
 One of the session resource caches of `AppState`: a JavaScript `Map`, kept in insertion order, written only
 through `updateSessionResourceState`.
 */
module SessionCache {
  import opened Prelude

  type Id = string

  /** A property of a resource; `Undefined` is a property that is there and undefined. */
  datatype Value = Undefined | Number(n: int) | Text(s: string) | Flag(b: bool) | Data(d: nat)

  type Resource = map<string, Value>

  datatype Entry = Entry(id: Id, resource: Resource)

  const EMPTY_RESOURCE: Resource :=
    map["status" := Text("idle"), "loaded" := Flag(false), "loading" := Flag(false), "unsupported" := Flag(false)]

  const MAX_NON_CURRENT: nat := 3

  function UpdatedAt(r: Resource): Option<int> {
    if "updatedAt" in r && r["updatedAt"].Number? then Some(r["updatedAt"].n) else None
  }

  /** `map.get`. */
  function Find(cache: seq<Entry>, id: Id): (r: Option<Resource>)
    ensures r.None? <==> forall i :: 0 <= i < |cache| ==> cache[i].id != id
  {
    if cache == [] then None
    else if cache[0].id == id then Some(cache[0].resource)
    else
      var r := Find(cache[1..], id);
      assert forall i :: 0 <= i < |cache| - 1 ==> cache[1..][i] == cache[i + 1];
      r
  }

  /** `map.set`: a key that is there keeps its place, a new one goes last. */
  function Put(cache: seq<Entry>, id: Id, resource: Resource): seq<Entry> {
    if cache == [] then [Entry(id, resource)]
    else if cache[0].id == id then [Entry(id, resource)] + cache[1..]
    else [cache[0]] + Put(cache[1..], id, resource)
  }

  /** `map.delete`. */
  function Delete(cache: seq<Entry>, id: Id): seq<Entry> {
    if cache == [] then []
    else if cache[0].id == id then cache[1..]
    else [cache[0]] + Delete(cache[1..], id)
  }

  predicate Other(id: Id, current: Option<Id>, written: Id) {
    current != Some(id) && id != written
  }

  /** The keys that may be evicted, oldest insertion first. */
  function Others(cache: seq<Entry>, current: Option<Id>, written: Id): seq<Id> {
    if cache == [] then []
    else (if Other(cache[0].id, current, written) then [cache[0].id] else []) + Others(cache[1..], current, written)
  }

  function DeleteAll(cache: seq<Entry>, ids: seq<Id>): seq<Entry>
    decreases |ids|
  {
    if ids == [] then cache else DeleteAll(Delete(cache, ids[0]), ids[1..])
  }

  function Evict(cache: seq<Entry>, current: Option<Id>, written: Id): seq<Entry> {
    var others := Others(cache, current, written);
    if |others| <= MAX_NON_CURRENT then cache else DeleteAll(cache, others[..|others| - MAX_NON_CURRENT])
  }

  /** An update that is older than what is cached. */
  predicate Stale(cache: seq<Entry>, id: Id, update: Resource) {
    var current := Find(cache, id);
    current.Some? && UpdatedAt(current.value).Some? && UpdatedAt(update).Some?
    && UpdatedAt(update).value < UpdatedAt(current.value).value
  }

  function Merged(cache: seq<Entry>, id: Id, update: Resource): Resource {
    (if Find(cache, id).Some? then Find(cache, id).value else EMPTY_RESOURCE) + update
  }

  function Write(cache: seq<Entry>, current: Option<Id>, id: Id, update: Resource): seq<Entry> {
    if Stale(cache, id, update) then cache else Evict(Put(cache, id, Merged(cache, id, update)), current, id)
  }

  class AppState {
    var currentSessionId: Option<Id>
    var cache: seq<Entry>

    constructor ()
      ensures cache == [] && currentSessionId == None
    {
      cache, currentSessionId := [], None;
    }

    method SetCurrentSession(id: Option<Id>)
      modifies this`currentSessionId
      ensures currentSessionId == id
    {
      currentSessionId := id;
    }

    method UpdateSessionResourceState(id: Id, update: Resource)
      modifies this`cache
      ensures cache == Write(old(cache), currentSessionId, id, update)
    {
      var found := Find(cache, id);
      var current := if found.Some? then found.value else EMPTY_RESOURCE;
      if UpdatedAt(update).Some? && UpdatedAt(current).Some? && UpdatedAt(update).value < UpdatedAt(current).value {
        assert found.None? ==> "updatedAt" !in current by { EmptyHasNoTime(); }
        return;
      }
      var next := current + update;
      cache := Put(cache, id, next);
      EvictOldSessionCache(id);
    }

    method EvictOldSessionCache(written: Id)
      modifies this`cache
      ensures cache == Evict(old(cache), currentSessionId, written)
    {
      hide Others, Delete, Evict;
      NoOthers(currentSessionId, written);
      var keys: seq<Id> := [];
      for i := 0 to |cache|
        invariant cache == old(cache)
        invariant keys + Others(cache[i..], currentSessionId, written) == Others(cache, currentSessionId, written)
      {
        OthersFrom(cache, i, currentSessionId, written);
        if currentSessionId != Some(cache[i].id) && cache[i].id != written {
          keys := keys + [cache[i].id];
        }
      }
      ghost var all, count: nat := keys, 0;
      assert all[..0] == [] && cache[|cache|..] == [];
      assert all == Others(old(cache), currentSessionId, written);
      while |keys| > MAX_NON_CURRENT
        invariant count <= |all| && (count > 0 ==> |keys| >= MAX_NON_CURRENT)
        invariant keys == all[count..]
        invariant DeleteAll(old(cache), all[..count]) == cache
      {
        cache := Delete(cache, keys[0]);
        DeleteMore(old(cache), all[..count], all[count]);
        assert all[..count] + [all[count]] == all[..count + 1];
        keys := keys[1..];
        count := count + 1;
      }
      EvictIs(old(cache), currentSessionId, written, count);
      assert cache == DeleteAll(old(cache), Others(old(cache), currentSessionId, written)[..count]);
    }
  }

  lemma NoOthers(current: Option<Id>, written: Id)
    ensures Others([], current, written) == []
  {
  }

  lemma OthersFrom(cache: seq<Entry>, i: nat, current: Option<Id>, written: Id)
    requires i < |cache|
    ensures Others(cache[i..], current, written) ==
      (if Other(cache[i].id, current, written) then [cache[i].id] else []) + Others(cache[i + 1..], current, written)
  {
    assert cache[i..][0] == cache[i] && cache[i..][1..] == cache[i + 1..];
  }

  /** Deleting the oldest until three are left, or nothing when there were no more. */
  lemma EvictIs(cache: seq<Entry>, current: Option<Id>, written: Id, count: nat)
    requires var others := Others(cache, current, written);
      count == if |others| <= MAX_NON_CURRENT then 0 else |others| - MAX_NON_CURRENT
    ensures Evict(cache, current, written) == DeleteAll(cache, Others(cache, current, written)[..count])
  {
    hide Others;
    assert Others(cache, current, written)[..0] == [];
  }

  lemma EmptyHasNoTime()
    ensures "updatedAt" !in EMPTY_RESOURCE
  {
    assert |"updatedAt"| == 9 && |"status"| == 6 && |"loaded"| == 6 && |"loading"| == 7 && |"unsupported"| == 11;
  }

  lemma {:induction false} DeleteMore(cache: seq<Entry>, ids: seq<Id>, id: Id)
    ensures DeleteAll(cache, ids + [id]) == Delete(DeleteAll(cache, ids), id)
    decreases |ids|
  {
    if ids == [] {
      assert [] + [id] == [id] && [id][1..] == [];
    } else {
      assert (ids + [id])[0] == ids[0] && (ids + [id])[1..] == ids[1..] + [id];
      DeleteMore(Delete(cache, ids[0]), ids[1..], id);
    }
  }

  // ----- what eviction keeps -----

  predicate DistinctIds(cache: seq<Entry>) {
    forall i, j :: 0 <= i < j < |cache| ==> cache[i].id != cache[j].id
  }

  /** How many entries that may be evicted stand behind an entry. */
  function OthersBehind(cache: seq<Entry>, i: nat, current: Option<Id>, written: Id): nat
    requires i < |cache|
  {
    |Others(cache[i + 1..], current, written)|
  }

  /** The current session, the written one, and the three others inserted last. */
  predicate Kept(cache: seq<Entry>, i: nat, current: Option<Id>, written: Id)
    requires i < |cache|
  {
    !Other(cache[i].id, current, written) || OthersBehind(cache, i, current, written) < MAX_NON_CURRENT
  }

  /** The entries to keep, in order. */
  function Survivors(cache: seq<Entry>, current: Option<Id>, written: Id): seq<Entry> {
    if cache == [] then []
    else
      var rest := Survivors(cache[1..], current, written);
      if Kept(cache, 0, current, written) then [cache[0]] + rest else rest
  }

  lemma {:induction false} FewSurvive(cache: seq<Entry>, current: Option<Id>, written: Id)
    requires |Others(cache, current, written)| <= MAX_NON_CURRENT
    ensures Survivors(cache, current, written) == cache
  {
    if cache != [] {
      FewSurvive(cache[1..], current, written);
      assert cache == [cache[0]] + cache[1..];
    }
  }

  lemma {:induction false} OthersAre(cache: seq<Entry>, current: Option<Id>, written: Id, id: Id)
    ensures id in Others(cache, current, written) <==> Other(id, current, written) && Find(cache, id).Some?
  {
    if cache != [] {
      OthersAre(cache[1..], current, written, id);
    }
  }

  lemma {:induction false} DeletePastKeeps(first: Entry, cache: seq<Entry>, ids: seq<Id>)
    requires first.id !in ids
    ensures DeleteAll([first] + cache, ids) == [first] + DeleteAll(cache, ids)
    decreases |ids|
  {
    if ids != [] {
      assert ([first] + cache)[1..] == cache;
      DeletePastKeeps(first, Delete(cache, ids[0]), ids[1..]);
    }
  }

  lemma DistinctTail(cache: seq<Entry>)
    requires DistinctIds(cache) && cache != []
    ensures DistinctIds(cache[1..]) && Find(cache[1..], cache[0].id) == None
  {
  }

  /** Deleting the oldest others leaves exactly the survivors, in their order. */
  lemma {:induction false} EvictIsSurvivors(cache: seq<Entry>, current: Option<Id>, written: Id)
    requires DistinctIds(cache)
    ensures Evict(cache, current, written) == Survivors(cache, current, written)
  {
    hide DistinctIds;
    var others := Others(cache, current, written);
    if |others| <= MAX_NON_CURRENT {
      FewSurvive(cache, current, written);
    } else {
      assert cache == [cache[0]] + cache[1..];
      DistinctTail(cache);
      EvictIsSurvivors(cache[1..], current, written);
      OthersAre(cache[1..], current, written, cache[0].id);
      EvictFirst(cache, current, written);
    }
  }

  lemma EvictFirst(cache: seq<Entry>, current: Option<Id>, written: Id)
    requires cache != [] && |Others(cache, current, written)| > MAX_NON_CURRENT
    requires cache[0].id !in Others(cache[1..], current, written)
    ensures Evict(cache, current, written) ==
      if Other(cache[0].id, current, written) then Evict(cache[1..], current, written)
      else [cache[0]] + Evict(cache[1..], current, written)
  {
    if Other(cache[0].id, current, written) {
      FirstGoes(cache, current, written);
    } else {
      FirstStays(cache, current, written);
    }
  }

  lemma FirstGoes(cache: seq<Entry>, current: Option<Id>, written: Id)
    requires cache != [] && |Others(cache, current, written)| > MAX_NON_CURRENT
    requires Other(cache[0].id, current, written)
    ensures Evict(cache, current, written) == Evict(cache[1..], current, written)
  {
    var id, rest := cache[0].id, Others(cache[1..], current, written);
    assert Others(cache, current, written) == [id] + rest;
    assert Delete(cache, id) == cache[1..];
    hide Others, Delete;
    var n := |rest| - MAX_NON_CURRENT;
    assert ([id] + rest)[..n + 1] == [id] + rest[..n];
    assert ([id] + rest[..n])[1..] == rest[..n];
    assert DeleteAll(cache, [id] + rest[..n]) == DeleteAll(cache[1..], rest[..n]);
    EvictIs(cache[1..], current, written, n);
  }

  lemma FirstStays(cache: seq<Entry>, current: Option<Id>, written: Id)
    requires cache != [] && |Others(cache, current, written)| > MAX_NON_CURRENT
    requires !Other(cache[0].id, current, written) && cache[0].id !in Others(cache[1..], current, written)
    ensures Evict(cache, current, written) == [cache[0]] + Evict(cache[1..], current, written)
  {
    hide Others, DeleteAll;
    OthersFrom(cache, 0, current, written);
    assert cache[0..] == cache;
    var others := Others(cache[1..], current, written);
    assert [] + others == others;
    assert cache == [cache[0]] + cache[1..];
    DeletePastKeeps(cache[0], cache[1..], others[..|others| - MAX_NON_CURRENT]);
  }

  lemma KeptTail(cache: seq<Entry>, i: nat, current: Option<Id>, written: Id)
    requires 0 < i < |cache|
    ensures Kept(cache, i, current, written) <==> Kept(cache[1..], i - 1, current, written)
  {
    hide Others;
    assert cache[1..][i..] == cache[i + 1..];
  }

  /** The entry stands in the cache and is to be kept there. */
  ghost predicate KeptIn(cache: seq<Entry>, current: Option<Id>, written: Id, e: Entry) {
    exists i :: 0 <= i < |cache| && cache[i] == e && Kept(cache, i, current, written)
  }

  lemma KeptInTail(cache: seq<Entry>, current: Option<Id>, written: Id, e: Entry)
    requires cache != []
    ensures KeptIn(cache, current, written, e) <==>
      (cache[0] == e && Kept(cache, 0, current, written)) || KeptIn(cache[1..], current, written, e)
  {
    hide Kept;
    var rest := cache[1..];
    if KeptIn(cache, current, written, e) {
      var i :| 0 <= i < |cache| && cache[i] == e && Kept(cache, i, current, written);
      if i > 0 {
        KeptTail(cache, i, current, written);
        assert rest[i - 1] == e;
      }
    }
    if KeptIn(rest, current, written, e) {
      var i :| 0 <= i < |rest| && rest[i] == e && Kept(rest, i, current, written);
      KeptTail(cache, i + 1, current, written);
      assert cache[i + 1] == e;
    }
  }

  lemma {:induction false} SurvivorsAre(cache: seq<Entry>, current: Option<Id>, written: Id, e: Entry)
    ensures e in Survivors(cache, current, written) <==> KeptIn(cache, current, written, e)
  {
    hide Kept;
    if cache != [] {
      KeptInTail(cache, current, written, e);
      hide KeptIn;
      SurvivorsAre(cache[1..], current, written, e);
    }
  }

  /** At most three others survive. */
  lemma {:induction false} SurvivorsFew(cache: seq<Entry>, current: Option<Id>, written: Id)
    ensures |Others(Survivors(cache, current, written), current, written)| ==
      if |Others(cache, current, written)| <= MAX_NON_CURRENT then |Others(cache, current, written)|
      else MAX_NON_CURRENT
  {
    if cache != [] {
      SurvivorsFew(cache[1..], current, written);
      var rest := Survivors(cache[1..], current, written);
      assert ([cache[0]] + rest)[1..] == rest;
    }
  }

  lemma {:induction false} SurvivorsDistinct(cache: seq<Entry>, current: Option<Id>, written: Id)
    requires DistinctIds(cache)
    ensures DistinctIds(Survivors(cache, current, written))
    ensures forall id :: Find(cache, id).None? ==> Find(Survivors(cache, current, written), id).None?
    ensures forall id :: Find(Survivors(cache, current, written), id).Some? ==>
      Find(Survivors(cache, current, written), id) == Find(cache, id)
  {
    if cache != [] {
      DistinctTail(cache);
      SurvivorsDistinct(cache[1..], current, written);
      var rest := Survivors(cache[1..], current, written);
      assert ([cache[0]] + rest)[1..] == rest;
      assert Find(rest, cache[0].id) == None;
    }
  }

  lemma {:induction false} PutFinds(cache: seq<Entry>, id: Id, resource: Resource, k: Id)
    ensures Find(Put(cache, id, resource), k) == if k == id then Some(resource) else Find(cache, k)
  {
    if cache != [] {
      PutFinds(cache[1..], id, resource, k);
      var rest := Put(cache[1..], id, resource);
      assert ([cache[0]] + rest)[1..] == rest;
      assert ([Entry(id, resource)] + cache[1..])[1..] == cache[1..];
    } else {
      assert [Entry(id, resource)][1..] == [];
    }
  }

  lemma {:induction false} PutDistinct(cache: seq<Entry>, id: Id, resource: Resource)
    requires DistinctIds(cache)
    ensures DistinctIds(Put(cache, id, resource))
  {
    if cache != [] {
      PutDistinct(cache[1..], id, resource);
      if cache[0].id != id {
        PutFinds(cache[1..], id, resource, cache[0].id);
        DistinctTail(cache);
      }
    }
  }

  function Ids(cache: seq<Entry>): (r: seq<Id>)
    ensures |r| == |cache| && forall i :: 0 <= i < |cache| ==> r[i] == cache[i].id
  {
    seq(|cache|, i requires 0 <= i < |cache| => cache[i].id)
  }

  lemma IdsCons(e: Entry, cache: seq<Entry>)
    ensures Ids([e] + cache) == [e.id] + Ids(cache)
  {
  }

  /** Writing to a cached session does not renew its place: eviction goes by insertion, not by use. */
  lemma {:induction false} PutKeepsPlace(cache: seq<Entry>, id: Id, resource: Resource)
    ensures Ids(Put(cache, id, resource)) == if Find(cache, id).Some? then Ids(cache) else Ids(cache) + [id]
  {
    hide Ids;
    if cache == [] {
      assert Ids([]) == [];
      IdsCons(Entry(id, resource), []);
    } else {
      var rest := cache[1..];
      assert cache == [cache[0]] + rest;
      IdsCons(cache[0], rest);
      if cache[0].id == id {
        IdsCons(Entry(id, resource), rest);
      } else {
        PutKeepsPlace(rest, id, resource);
        IdsCons(cache[0], Put(rest, id, resource));
      }
    }
  }

  /** The written and the current session, and three others. */
  lemma {:induction false} SizeOf(cache: seq<Entry>, current: Option<Id>, written: Id)
    requires DistinctIds(cache)
    ensures |cache| == |Others(cache, current, written)|
      + (if Find(cache, written).Some? then 1 else 0)
      + (if current.Some? && current.value != written && Find(cache, current.value).Some? then 1 else 0)
  {
    if cache != [] {
      DistinctTail(cache);
      SizeOf(cache[1..], current, written);
    }
  }

  /**
   An applied write stores the merged resource, keeps the current and the written session, and of the other entries
   exactly the three inserted last, each with its resource unchanged and all in their order.
   */
  lemma WriteKeeps(cache: seq<Entry>, current: Option<Id>, id: Id, update: Resource)
    requires DistinctIds(cache) && !Stale(cache, id, update)
    ensures var put := Put(cache, id, Merged(cache, id, update));
      var next := Write(cache, current, id, update);
      && next == Survivors(put, current, id)
      && (forall e :: e in next <==> KeptIn(put, current, id, e))
      && DistinctIds(next) && |next| <= 5
      && Find(next, id) == Some(Merged(cache, id, update))
      && (current.Some? && current.value != id ==> Find(next, current.value) == Find(cache, current.value))
      && (forall k :: k != id && Find(next, k).Some? ==> Find(next, k) == Find(cache, k))
  {
    var put := Put(cache, id, Merged(cache, id, update));
    PutDistinct(cache, id, Merged(cache, id, update));
    EvictIsSurvivors(put, current, id);
    var next := Survivors(put, current, id);
    forall e ensures e in next <==> KeptIn(put, current, id, e) {
      SurvivorsAre(put, current, id, e);
    }
    hide Survivors, KeptIn, Put, Merged, Find, Others, Evict, DistinctIds, Stale;
    SurvivorsDistinct(put, current, id);
    SurvivorsFew(put, current, id);
    SizeOf(next, current, id);
    PutFinds(cache, id, Merged(cache, id, update), id);
    ProtectedSurvives(put, current, id, id);
    if current.Some? && current.value != id {
      PutFinds(cache, id, Merged(cache, id, update), current.value);
      ProtectedSurvives(put, current, id, current.value);
    }
    forall k | k != id && Find(next, k).Some? ensures Find(next, k) == Find(cache, k) {
      PutFinds(cache, id, Merged(cache, id, update), k);
    }
  }

  lemma {:induction false} ProtectedSurvives(cache: seq<Entry>, current: Option<Id>, written: Id, id: Id)
    requires !Other(id, current, written)
    ensures Find(Survivors(cache, current, written), id) == Find(cache, id)
  {
    if cache != [] {
      ProtectedSurvives(cache[1..], current, written, id);
      var rest := Survivors(cache[1..], current, written);
      assert ([cache[0]] + rest)[1..] == rest;
    }
  }

  // ----- runs -----

  datatype Event = Switch(current: Option<Id>) | Update(id: Id, update: Resource)

  datatype State = State(current: Option<Id>, cache: seq<Entry>)

  function Apply(st: State, e: Event): State {
    match e
    case Switch(current) => st.(current := current)
    case Update(id, update) => st.(cache := Write(st.cache, st.current, id, update))
  }

  function Run(st: State, events: seq<Event>): State
    decreases |events|
  {
    if events == [] then st else Run(Apply(st, events[0]), events[1..])
  }

  predicate Sound(st: State) {
    DistinctIds(st.cache) && |st.cache| <= 5
  }

  lemma ApplySound(st: State, e: Event)
    requires Sound(st)
    ensures Sound(Apply(st, e))
  {
    hide DistinctIds;
    if e.Update? && !Stale(st.cache, e.id, e.update) {
      WriteKeeps(st.cache, st.current, e.id, e.update);
    }
  }

  /** Over every run the cache holds at most five sessions, each once. */
  lemma {:induction false} RunSound(st: State, events: seq<Event>)
    requires Sound(st)
    ensures Sound(Run(st, events))
    decreases |events|
  {
    hide Sound, Apply;
    if events != [] {
      ApplySound(st, events[0]);
      RunSound(Apply(st, events[0]), events[1..]);
    }
  }

  lemma CacheBounded(events: seq<Event>)
    ensures var st := Run(State(None, []), events); DistinctIds(st.cache) && |st.cache| <= 5
  {
    RunSound(State(None, []), events);
  }

  // ----- time never runs backwards, unless an update says so -----

  /** The update takes the time away: the property is there without being a number. */
  predicate Untimed(update: Resource) {
    "updatedAt" in update && !update["updatedAt"].Number?
  }

  /** The time of `later` is known and not before that of `earlier`, if `earlier` has one. */
  predicate NotBefore(earlier: Resource, later: Resource) {
    UpdatedAt(earlier).Some? ==> UpdatedAt(later).Some? && UpdatedAt(earlier).value <= UpdatedAt(later).value
  }

  /** For a session with a time, a write preserves the order of time exactly when the update does not take it away. */
  lemma WriteNotBeforeIff(cache: seq<Entry>, current: Option<Id>, id: Id, update: Resource)
    requires DistinctIds(cache) && Find(cache, id).Some? && UpdatedAt(Find(cache, id).value).Some?
    ensures var next := Write(cache, current, id, update);
      Find(next, id).Some? && (NotBefore(Find(cache, id).value, Find(next, id).value) <==> !Untimed(update))
  {
    if !Stale(cache, id, update) {
      WriteKeeps(cache, current, id, update);
    }
    hide Write, DistinctIds, Find;
  }

  lemma ApplyNotBefore(st: State, e: Event, id: Id)
    requires Sound(st) && (e.Update? ==> !Untimed(e.update))
    requires Find(st.cache, id).Some? && Find(Apply(st, e).cache, id).Some?
    ensures NotBefore(Find(st.cache, id).value, Find(Apply(st, e).cache, id).value)
  {
    hide DistinctIds, Find;
    if e.Update? && !Stale(st.cache, e.id, e.update) {
      WriteKeeps(st.cache, st.current, e.id, e.update);
      if e.id == id && UpdatedAt(Find(st.cache, id).value).Some? {
        WriteNotBeforeIff(st.cache, st.current, id, e.update);
      }
    }
  }

  /** The session is in the cache before and after every event. */
  predicate Retained(st: State, events: seq<Event>, id: Id)
    decreases |events|
  {
    Find(st.cache, id).Some? && (events == [] || Retained(Apply(st, events[0]), events[1..], id))
  }

  lemma {:induction false} TimeMonotone(st: State, events: seq<Event>, id: Id)
    requires Sound(st) && Retained(st, events, id)
    requires forall e :: e in events && e.Update? ==> !Untimed(e.update)
    ensures Find(Run(st, events).cache, id).Some?
    ensures NotBefore(Find(st.cache, id).value, Find(Run(st, events).cache, id).value)
    decreases |events|
  {
    hide Sound, Apply, Find;
    if events != [] {
      ApplySound(st, events[0]);
      TimeMonotone(Apply(st, events[0]), events[1..], id);
      ApplyNotBefore(st, events[0], id);
    }
  }

  lemma {:induction false} PutAppends(cache: seq<Entry>, id: Id, resource: Resource)
    requires Find(cache, id).None?
    ensures Put(cache, id, resource) == cache + [Entry(id, resource)]
  {
    if cache != [] {
      PutAppends(cache[1..], id, resource);
      assert cache == [cache[0]] + cache[1..];
    }
  }

  lemma {:induction false} AllOthers(cache: seq<Entry>, written: Id, e: Entry)
    requires Find(cache, written).None? && e.id == written
    ensures Others(cache, None, written) == Ids(cache) && Others(cache + [e], None, written) == Ids(cache)
  {
    if cache == [] {
      assert [] + [e] == [e] && [e][1..] == [];
    } else {
      AllOthers(cache[1..], written, e);
      assert (cache + [e])[1..] == cache[1..] + [e] && (cache + [e])[0] == cache[0];
      assert Ids(cache) == [cache[0].id] + Ids(cache[1..]);
    }
  }

  /** With four other sessions cached, a new one drives out the one inserted first. */
  lemma NewSessionEvictsFirst(cache: seq<Entry>, e: Id, update: Resource)
    requires |cache| == 4 && Find(cache, e).None?
    ensures Write(cache, None, e, update) == cache[1..] + [Entry(e, Merged(cache, e, update))]
  {
    var entry := Entry(e, Merged(cache, e, update));
    assert !Stale(cache, e, update);
    PutAppends(cache, e, entry.resource);
    AllOthers(cache, e, entry);
    hide Others, Put, Merged, Find, Stale;
    var put := cache + [entry];
    EvictIs(put, None, e, 1);
    var oldest := Ids(cache)[..1];
    assert oldest == [cache[0].id] && oldest[1..] == [];
    assert DeleteAll(put, oldest) == Delete(put, cache[0].id);
    assert put[1..] == cache[1..] + [entry];
  }

  lemma FirstRewritten(cache: seq<Entry>, update: Resource)
    requires |cache| == 4 && DistinctIds(cache) && !Stale(cache, cache[0].id, update)
    ensures var put := [Entry(cache[0].id, Merged(cache, cache[0].id, update))] + cache[1..];
      Write(cache, None, cache[0].id, update) == put
  {
    var id := cache[0].id;
    var put := [Entry(id, Merged(cache, id, update))] + cache[1..];
    PutDistinct(cache, id, Merged(cache, id, update));
    PutFinds(cache, id, Merged(cache, id, update), id);
    assert Put(cache, id, Merged(cache, id, update)) == put;
    SizeOf(put, None, id);
    hide Others, Put, Find, Stale, DistinctIds, Merged;
  }

  /**
   Four sessions in order of insertion, the first one just written again: the next new session evicts just that one,
   which a least-recently-used cache would keep.
   */
  lemma NotLeastRecentlyUsed(cache: seq<Entry>, first: Resource, e: Id, update: Resource)
    requires |cache| == 4 && DistinctIds(cache) && Find(cache, e).None? && !Stale(cache, cache[0].id, first)
    ensures var used := Write(cache, None, cache[0].id, first);
      var next := Write(used, None, e, update);
      Ids(used) == Ids(cache) && Ids(next) == Ids(cache)[1..] + [e]
  {
    FirstRewritten(cache, first);
    var used := Write(cache, None, cache[0].id, first);
    PutFinds(cache, cache[0].id, Merged(cache, cache[0].id, first), e);
    assert used == Put(cache, cache[0].id, Merged(cache, cache[0].id, first));
    hide Write, Put, Find, Merged, Stale, DistinctIds;
    NewSessionEvictsFirst(used, e, update);
  }

  // ----- what an update leaves behind -----

  /** Older than what is cached: both carry a time, and the update's is smaller. */
  predicate Older(cached: Resource, update: Resource) {
    && "updatedAt" in cached && cached["updatedAt"].Number? && "updatedAt" in update && update["updatedAt"].Number?
    && update["updatedAt"].n < cached["updatedAt"].n
  }

  /**
   An update that is older than what is cached changes nothing.  Any other arrives: every property it has stands in the
   cached resource as it is in the update, and every other as it was, or as in an idle resource for a new session.
   */
  lemma WriteArrives(cache: seq<Entry>, current: Option<Id>, id: Id, update: Resource)
    requires DistinctIds(cache)
    ensures var found := Find(cache, id);
      var before := if found.Some? then found.value
        else map["status" := Text("idle"), "loaded" := Flag(false), "loading" := Flag(false),
                 "unsupported" := Flag(false)];
      var next := Write(cache, current, id, update);
      if found.Some? && Older(found.value, update) then next == cache
      else
        var r := Find(next, id);
        && r.Some? && r.value.Keys == before.Keys + update.Keys
        && (forall k :: k in update ==> r.value[k] == update[k])
        && (forall k :: k in before && k !in update ==> r.value[k] == before[k])
  {
    hide Write, DistinctIds, Find;
    var found := Find(cache, id);
    assert Stale(cache, id, update) <==> found.Some? && Older(found.value, update);
    if Stale(cache, id, update) {
      StaleIgnored(cache, current, id, update);
    } else {
      WriteKeeps(cache, current, id, update);
    }
  }

  lemma StaleIgnored(cache: seq<Entry>, current: Option<Id>, id: Id, update: Resource)
    requires Stale(cache, id, update)
    ensures Write(cache, current, id, update) == cache
  {
  }

  // ----- the resources the application writes -----

  /** `{ ...state, status: 'loading', ... }`: the time of the state it starts from is kept. */
  function LoadingResource(state: Resource): Resource {
    state
    + map["status" := Text("loading"), "loading" := Flag(true), "error" := Undefined, "unsupported" := Flag(false)]
  }

  function LoadedResource(data: Value, now: int): Resource {
    map["status" := Text("ready"), "loaded" := Flag(true), "loading" := Flag(false), "data" := data,
        "unsupported" := Flag(false), "updatedAt" := Number(now)]
  }

  function ErrorResource(error: string, unsupported: bool, now: int): Resource {
    map["status" := Text("error"), "loaded" := Flag(true), "loading" := Flag(false), "error" := Text(error),
        "unsupported" := Flag(unsupported), "updatedAt" := Number(now)]
  }

  lemma KeysDiffer()
    ensures "updatedAt" !in {"status", "loaded", "loading", "error", "unsupported", "data"}
    ensures "error" !in {"status", "loaded", "loading", "unsupported", "updatedAt", "data"}
    ensures "status" !in {"loaded", "loading", "unsupported", "updatedAt", "data"}
    ensures "loaded" != "loading" && "loaded" != "unsupported" && "loading" != "unsupported"
    ensures "data" !in {"status", "loaded", "loading", "error", "unsupported", "updatedAt"}
  {
    assert |"updatedAt"| == 9 && |"status"| == 6 && |"loaded"| == 6 && |"loading"| == 7;
    assert |"unsupported"| == 11 && |"error"| == 5 && |"data"| == 4;
    assert "status"[0] == 's' && "loaded"[0] == 'l';
    assert "data" !in {"status", "loaded", "loading", "error", "unsupported", "updatedAt"};
  }

  lemma LoadingMerges(r: Resource)
    ensures var m := r + LoadingResource(r);
      && UpdatedAt(m) == UpdatedAt(r) == UpdatedAt(LoadingResource(r)) && "error" in m && m["error"] == Undefined
      && "status" in m && m["status"] == Text("loading") && "loading" in m && m["loading"] == Flag(true)
      && "unsupported" in m && m["unsupported"] == Flag(false)
      && forall k :: k in r && k !in {"status", "loading", "error", "unsupported"} ==> k in m && m[k] == r[k]
  {
    KeysDiffer();
  }

  lemma LoadedMerges(r: Resource, data: Value, now: int)
    ensures var m := r + LoadedResource(data, now);
      && UpdatedAt(m) == Some(now) == UpdatedAt(LoadedResource(data, now))
      && "status" in m && m["status"] == Text("ready") && "data" in m && m["data"] == data
      && "loaded" in m && m["loaded"] == Flag(true) && "loading" in m && m["loading"] == Flag(false)
      && "unsupported" in m && m["unsupported"] == Flag(false)
      && ("error" in m <==> "error" in r) && ("error" in r ==> m["error"] == r["error"])
  {
    KeysDiffer();
  }

  /** A failure keeps the data and says what went wrong. */
  lemma ErrorMerges(r: Resource, error: string, unsupported: bool, now: int)
    ensures var m := r + ErrorResource(error, unsupported, now);
      && UpdatedAt(m) == Some(now) && "error" in m && m["error"] == Text(error)
      && "status" in m && m["status"] == Text("error") && "loading" in m && m["loading"] == Flag(false)
      && "loaded" in m && m["loaded"] == Flag(true) && "unsupported" in m && m["unsupported"] == Flag(unsupported)
      && ("data" in m <==> "data" in r) && ("data" in r ==> m["data"] == r["data"])
  {
    KeysDiffer();
    assert |"data"| == 4;
  }

  /** No constructor takes the time away, so the writes of the application satisfy `TimeMonotone`'s hypothesis. */
  lemma ConstructorsKeepTime(state: Resource, data: Value, error: string, unsupported: bool, now: int)
    requires !Untimed(state)
    ensures !Untimed(EMPTY_RESOURCE) && !Untimed(LoadedResource(data, now))
    ensures !Untimed(ErrorResource(error, unsupported, now))
    ensures !Untimed(LoadingResource(state)) && UpdatedAt(LoadingResource(state)) == UpdatedAt(state)
  {
    KeysDiffer();
  }

  /** Marking what is cached as loading is never refused as stale, and a later success is then free of old errors. */
  lemma LoadingThenLoaded(cache: seq<Entry>, current: Option<Id>, id: Id, data: Value, now: int)
    requires DistinctIds(cache) && Find(cache, id).Some?
    requires UpdatedAt(Find(cache, id).value).Some? ==> UpdatedAt(Find(cache, id).value).value <= now
    ensures var loading := Write(cache, current, id, LoadingResource(Find(cache, id).value));
      var next := Find(Write(loading, current, id, LoadedResource(data, now)), id);
      next.Some? && "error" in next.value && next.value["error"] == Undefined && UpdatedAt(next.value) == Some(now)
  {
    hide Write, DistinctIds, Find, LoadingResource, LoadedResource;
    var r := Find(cache, id).value;
    LoadingMerges(r);
    WriteKeeps(cache, current, id, LoadingResource(r));
    LoadedMerges(r + LoadingResource(r), data, now);
    WriteKeeps(Write(cache, current, id, LoadingResource(r)), current, id, LoadedResource(data, now));
  }

  /** Without that step the old error outlives the success: `setLoadedResource` does not mention it. */
  lemma ErrorOutlivesSuccess(cache: seq<Entry>, current: Option<Id>, id: Id, data: Value, now: int)
    requires DistinctIds(cache) && Find(cache, id).Some? && "error" in Find(cache, id).value
    requires UpdatedAt(Find(cache, id).value).Some? ==> UpdatedAt(Find(cache, id).value).value <= now
    ensures var next := Find(Write(cache, current, id, LoadedResource(data, now)), id);
      && next.Some? && "status" in next.value && next.value["status"] == Text("ready")
      && "error" in next.value && next.value["error"] == Find(cache, id).value["error"]
  {
    hide Write, DistinctIds, Find, LoadedResource;
    LoadedMerges(Find(cache, id).value, data, now);
    WriteKeeps(cache, current, id, LoadedResource(data, now));
  }
}
