/**
 Filtering of watch events with an expiring cache. An update passes if the object is missing in the
 cache, or if a relevant part of it differs from the old object or from the cached one; what passes is
 cached. `same(p, q)` says that the projections p and q agree on what is relevant.
 */
module EventFilters {
  import opened Wrappers

  /** Events of objects of type I, as projections P; cache entries expire at any time. */
  datatype Event<I, P> =
    | Create(id: I, after: P)
    | Update(id: I, before: P, after: P)
    | Delete(id: I)
    | Expire(entry: string)

  /** The cache; and of every object that exists, the last seen and the last delivered projection. */
  datatype State<I(==), P> = State(cache: map<string, P>, seen: map<I, P>, delivered: map<I, P>)

  predicate Passes<P>(same: (P, P) -> bool, cached: Option<P>, before: P, after: P) {
    cached.None? || !same(after, before) || !same(after, cached.value)
  }

  function Lookup<P>(cache: map<string, P>, key: string): Option<P> {
    if key in cache then Some(cache[key]) else None
  }

  function Next<I(==), P>(key: I -> string, same: (P, P) -> bool, s: State<I, P>, e: Event<I, P>): State<I, P> {
    match e
    case Create(id, p) =>
      State(s.cache[key(id) := p], s.seen[id := p], s.delivered[id := p])
    case Update(id, before, p) =>
      if Passes(same, Lookup(s.cache, key(id)), before, p)
      then State(s.cache[key(id) := p], s.seen[id := p], s.delivered[id := p])
      else s.(seen := s.seen[id := p])
    case Delete(id) =>
      State(s.cache - {key(id)}, s.seen - {id}, s.delivered - {id})
    case Expire(entry) =>
      s.(cache := s.cache - {entry})
  }

  /** The cache part of a step; it does not depend on what was seen or delivered. */
  function CacheAfter<I(==), P>(key: I -> string, same: (P, P) -> bool, cache: map<string, P>, e: Event<I, P>)
    : map<string, P>
  {
    Next(key, same, State(cache, map[], map[]), e).cache
  }

  function Run<I(==), P>(key: I -> string, same: (P, P) -> bool, s: State<I, P>, events: seq<Event<I, P>>): State<I, P> {
    if events == [] then s
    else Next(key, same, Run(key, same, s, events[..|events| - 1]), events[|events| - 1])
  }

  ghost predicate Equivalence<P(!new)>(same: (P, P) -> bool) {
    && (forall p :: same(p, p))
    && (forall p, q :: same(p, q) ==> same(q, p))
    && (forall p, q, r :: same(p, q) && same(q, r) ==> same(p, r))
  }

  /** No relevant change is lost: what was last delivered of an object agrees with what was last seen. */
  ghost predicate UpToDate<I(!new), P(!new)>(same: (P, P) -> bool, s: State<I, P>) {
    forall id :: id in s.seen ==> id in s.delivered && same(s.delivered[id], s.seen[id])
  }

  // ----- One object per cache key -----

  ghost predicate OwnKeys<I(!new), P(!new)>(key: I -> string, events: seq<Event<I, P>>) {
    forall e, f :: e in events && f in events && !e.Expire? && !f.Expire? && key(e.id) == key(f.id) ==> e.id == f.id
  }

  /** A cache entry is the last delivered projection of an object that the events are about. */
  ghost predicate CacheIsDelivered<I(!new), P(!new)>(key: I -> string, s: State<I, P>, events: seq<Event<I, P>>) {
    forall k :: k in s.cache ==>
      exists e :: e in events && !e.Expire? && key(e.id) == k && e.id in s.delivered && s.delivered[e.id] == s.cache[k]
  }

  /** If every cache key belongs to one object, no relevant change is lost, whatever expires. */
  lemma {:induction false} NothingLostWithOwnKeys<I(!new), P(!new)>(
    key: I -> string, same: (P, P) -> bool, events: seq<Event<I, P>>)
    requires Equivalence(same) && OwnKeys(key, events)
    ensures UpToDate(same, Run(key, same, State(map[], map[], map[]), events))
    ensures CacheIsDelivered(key, Run(key, same, State(map[], map[], map[]), events), events)
  {
    if events != [] {
      var before, last := events[..|events| - 1], events[|events| - 1];
      NothingLostWithOwnKeys(key, same, before);
      OwnKeysStep(key, same, Run(key, same, State(map[], map[], map[]), before), events);
    }
  }

  lemma {:induction false} OwnKeysStep<I(!new), P(!new)>(
    key: I -> string, same: (P, P) -> bool, s: State<I, P>, events: seq<Event<I, P>>)
    requires Equivalence(same) && events != [] && OwnKeys(key, events)
    requires UpToDate(same, s) && CacheIsDelivered(key, s, events[..|events| - 1])
    ensures UpToDate(same, Next(key, same, s, events[|events| - 1]))
    ensures CacheIsDelivered(key, Next(key, same, s, events[|events| - 1]), events)
  {
  }

  // ----- Old objects that are the last seen ones -----

  predicate OldIsLastSeen<I(==), P(==)>(s: State<I, P>, e: Event<I, P>) {
    e.Update? ==> e.id in s.seen && s.seen[e.id] == e.before
  }

  predicate OldAlwaysLastSeen<I(==), P(==)>(key: I -> string, same: (P, P) -> bool, s: State<I, P>, events: seq<Event<I, P>>) {
    events == []
    || (OldAlwaysLastSeen(key, same, s, events[..|events| - 1])
        && OldIsLastSeen(Run(key, same, s, events[..|events| - 1]), events[|events| - 1]))
  }

  /** If the old object of every update is the one last seen, no relevant change is lost either, whatever
      the cache contains: entries of other objects with the same key, or none. */
  lemma {:induction false} NothingLostWithTrueOld<I(!new), P(!new)>(
    key: I -> string, same: (P, P) -> bool, s: State<I, P>, events: seq<Event<I, P>>)
    requires Equivalence(same) && UpToDate(same, s) && OldAlwaysLastSeen(key, same, s, events)
    ensures UpToDate(same, Run(key, same, s, events))
  {
    if events != [] {
      NothingLostWithTrueOld(key, same, s, events[..|events| - 1]);
    }
  }

  // ----- Old objects that may be any -----

  /** A step that appends to a run. */
  lemma RunOf<I, P>(key: I -> string, same: (P, P) -> bool, start: State<I, P>, before: seq<Event<I, P>>, e: Event<I, P>)
    ensures Run(key, same, start, before + [e]) == Next(key, same, Run(key, same, start, before), e)
  {
    assert (before + [e])[..|before|] == before;
  }

  /** Two objects of one key: the second is created as q, and then the first changes from p to q, which the
      cache hides if the old object of that update is not the last seen one. */
  function Hidden<I, P>(i: I, j: I, p: P, q: P): seq<Event<I, P>> {
    [Create(i, p), Create(j, q), Update(i, q, q)]
  }

  lemma HiddenIsLost<I, P>(key: I -> string, same: (P, P) -> bool, i: I, j: I, p: P, q: P)
    requires key(i) == key(j) && i != j
    requires same(q, q) && !same(p, q)
    ensures var s := Run(key, same, State(map[], map[], map[]), Hidden(i, j, p, q));
      i in s.seen && i in s.delivered && s.seen[i] == q && s.delivered[i] == p
  {
    var start: State<I, P> := State(map[], map[], map[]);
    var e1, e2, e3: Event<I, P> := Create(i, p), Create(j, q), Update(i, q, q);
    RunOf(key, same, start, [], e1);
    RunOf(key, same, start, [e1], e2);
    RunOf(key, same, start, [e1, e2], e3);
    assert [] + [e1] == [e1] && [e1] + [e2] == [e1, e2] && [e1, e2] + [e3] == Hidden(i, j, p, q);
    assert Run(key, same, start, []) == start;
  }

  /** With any old objects in the updates, no relevant change is ever lost exactly if no two objects share
      a cache key. */
  lemma NothingLostIff<I(!new), P(!new)>(key: I -> string, same: (P, P) -> bool, p: P, q: P)
    requires Equivalence(same) && !same(p, q)
    ensures (forall events: seq<Event<I, P>> :: UpToDate(same, Run(key, same, State(map[], map[], map[]), events)))
      <==> (forall i, j :: key(i) == key(j) ==> i == j)
  {
    if i, j :| key(i) == key(j) && i != j {
      HiddenIsLost(key, same, i, j, p, q);
      assert !UpToDate(same, Run(key, same, State(map[], map[], map[]), Hidden(i, j, p, q)));
    } else {
      forall events: seq<Event<I, P>>
        ensures UpToDate(same, Run(key, same, State(map[], map[], map[]), events))
      {
        NothingLostWithOwnKeys(key, same, events);
      }
    }
  }

  // ----- Filtering by projections -----

  function Projected<I, P, Q>(project: P -> Q, e: Event<I, P>): Event<I, Q> {
    match e
    case Create(id, p) => Create(id, project(p))
    case Update(id, before, p) => Update(id, project(before), project(p))
    case Delete(id) => Delete(id)
    case Expire(entry) => Expire(entry)
  }

  function AllProjected<I, P, Q>(project: P -> Q, events: seq<Event<I, P>>): seq<Event<I, Q>> {
    if events == [] then [] else AllProjected(project, events[..|events| - 1]) + [Projected(project, events[|events| - 1])]
  }

  function ProjectedMap<K(==), P, Q>(project: P -> Q, m: map<K, P>): map<K, Q> {
    map k | k in m :: project(m[k])
  }

  function ProjectedState<I(==), P, Q>(project: P -> Q, s: State<I, P>): State<I, Q> {
    State(ProjectedMap(project, s.cache), ProjectedMap(project, s.seen), ProjectedMap(project, s.delivered))
  }

  ghost predicate Reflects<P(!new), Q>(project: P -> Q, same: (P, P) -> bool, same': (Q, Q) -> bool) {
    forall p, q :: same(p, q) <==> same'(project(p), project(q))
  }

  /** A filter that caches and compares projections passes the same events as one that does so with whole
      objects, if the projections are the same whenever the objects agree. */
  lemma {:induction false} RunProjected<I(!new), P(!new), Q>(
    key: I -> string, project: P -> Q, same: (P, P) -> bool, same': (Q, Q) -> bool, s: State<I, P>, events: seq<Event<I, P>>)
    requires Reflects(project, same, same')
    ensures Run(key, same', ProjectedState(project, s), AllProjected(project, events))
      == ProjectedState(project, Run(key, same, s, events))
  {
    if events != [] {
      var before, last := events[..|events| - 1], events[|events| - 1];
      RunProjected(key, project, same, same', s, before);
      RunOf(key, same', ProjectedState(project, s), AllProjected(project, before), Projected(project, last));
      NextProjected(key, project, same, same', Run(key, same, s, before), last);
    }
  }

  lemma NextProjected<I(!new), P(!new), Q>(
    key: I -> string, project: P -> Q, same: (P, P) -> bool, same': (Q, Q) -> bool, s: State<I, P>, e: Event<I, P>)
    requires Reflects(project, same, same')
    ensures Next(key, same', ProjectedState(project, s), Projected(project, e)) == ProjectedState(project, Next(key, same, s, e))
  {
    match e
    case Create(id, p) =>
      PutProjected(key, project, s, id, p);
    case Update(id, before, p) =>
      PutProjected(key, project, s, id, p);
    case Delete(id) =>
      RemoveProjected(project, s.cache, key(id));
      RemoveProjected(project, s.seen, id);
      RemoveProjected(project, s.delivered, id);
    case Expire(entry) =>
      RemoveProjected(project, s.cache, entry);
  }

  lemma PutProjected<I(!new), P(!new), Q>(key: I -> string, project: P -> Q, s: State<I, P>, id: I, p: P)
    ensures ProjectedMap(project, s.cache[key(id) := p]) == ProjectedMap(project, s.cache)[key(id) := project(p)]
    ensures ProjectedMap(project, s.seen[id := p]) == ProjectedMap(project, s.seen)[id := project(p)]
    ensures ProjectedMap(project, s.delivered[id := p]) == ProjectedMap(project, s.delivered)[id := project(p)]
  {
  }

  lemma RemoveProjected<K, P, Q>(project: P -> Q, m: map<K, P>, k: K)
    ensures ProjectedMap(project, m - {k}) == ProjectedMap(project, m) - {k}
  {
  }
}
