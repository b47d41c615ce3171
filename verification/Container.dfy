/**
  The service container. A factory is modelled by what it does to the container: it asks the
  resolver it is handed for some services in order, and builds a new object holding what it got.
 */
module Container {
  import opened Common

  type Service = string

  datatype Lifetime = Singleton | Scoped | Transient

  datatype Descriptor = Descriptor(lifetime: Lifetime, deps: seq<Service>)

  type Registry = map<Service, Descriptor>

  datatype ResolveError = NotRegistered(service: Service) | NeedsScope(service: Service) | ScopeClosed

  /** An object built by a factory; objects are numbered in the order in which they are built. */
  datatype Obj = Obj(service: Service, lifetime: Lifetime, owner: Option<nat>, deps: seq<nat>)

  datatype Cached = Cached(service: Service, obj: nat)

  /** The root provider: every object built so far, and its cache in insertion order. */
  datatype Root = Root(objects: seq<Obj>, singletons: seq<Cached>)

  datatype Scope = Scope(id: nat, cache: seq<Cached>, closed: bool, disposed: seq<nat>)

  /** Every service ranks above those its factory asks for. */
  ghost predicate Acyclic(reg: Registry, rank: Service -> nat) {
    forall t, d | t in reg && d in reg[t].deps :: rank(d) < rank(t)
  }

  function Find(cache: seq<Cached>, t: Service): Option<nat> {
    if cache == [] then None
    else if cache[0].service == t then Some(cache[0].obj) else Find(cache[1..], t)
  }

  function Build(r: Root, t: Service, lifetime: Lifetime, owner: Option<nat>, ids: seq<nat>): Root {
    r.(objects := r.objects + [Obj(t, lifetime, owner, ids)])
  }

  // ---------------------------------------------------------------- resolution

  /** `ServiceProvider.get`: its factories are handed the root itself. */
  function RootGet(reg: Registry, ghost rank: Service -> nat, r: Root, t: Service)
    : (Root, Result<nat, ResolveError>)
    requires Acyclic(reg, rank)
    decreases rank(t), 1, 0
  {
    if t !in reg then (r, Err(NotRegistered(t)))
    else if reg[t].lifetime.Scoped? then (r, Err(NeedsScope(t)))
    else if reg[t].lifetime.Singleton? && Find(r.singletons, t).Some? then
      (r, Ok(Find(r.singletons, t).value))
    else
      var (r1, got) := RootGetAll(reg, rank, r, reg[t].deps, rank(t));
      match got
      case Err(e) => (r1, Err(e))
      case Ok(ids) =>
        var r2 := Build(r1, t, reg[t].lifetime, None, ids);
        var id := |r1.objects|;
        if reg[t].lifetime.Transient? then (r2, Ok(id))
        else (r2.(singletons := r2.singletons + [Cached(t, id)]), Ok(id))
  }

  function RootGetAll(
    reg: Registry, ghost rank: Service -> nat, r: Root, deps: seq<Service>, ghost bound: nat)
    : (Root, Result<seq<nat>, ResolveError>)
    requires Acyclic(reg, rank) && forall d | d in deps :: rank(d) < bound
    decreases bound, 0, |deps|
  {
    if deps == [] then (r, Ok([]))
    else
      var (r1, first) := RootGet(reg, rank, r, deps[0]);
      match first
      case Err(e) => (r1, Err(e))
      case Ok(id) =>
        var (r2, rest) := RootGetAll(reg, rank, r1, deps[1..], bound);
        match rest
        case Err(e) => (r2, Err(e))
        case Ok(ids) => (r2, Ok([id] + ids))
  }

  /** `ServiceScope.get`: scoped factories are handed the scope, everything else goes to the root. */
  function ScopeGet(reg: Registry, ghost rank: Service -> nat, r: Root, s: Scope, t: Service)
    : (Root, Scope, Result<nat, ResolveError>)
    requires Acyclic(reg, rank)
    decreases rank(t), 1, 0
  {
    if s.closed then (r, s, Err(ScopeClosed))
    else if t !in reg then (r, s, Err(NotRegistered(t)))
    else if !reg[t].lifetime.Scoped? then
      var (r1, got) := RootGet(reg, rank, r, t);
      (r1, s, got)
    else if Find(s.cache, t).Some? then (r, s, Ok(Find(s.cache, t).value))
    else
      var (r1, s1, got) := ScopeGetAll(reg, rank, r, s, reg[t].deps, rank(t));
      match got
      case Err(e) => (r1, s1, Err(e))
      case Ok(ids) =>
        var id := |r1.objects|;
        (Build(r1, t, Scoped, Some(s.id), ids), s1.(cache := s1.cache + [Cached(t, id)]), Ok(id))
  }

  function ScopeGetAll(
    reg: Registry, ghost rank: Service -> nat, r: Root, s: Scope, deps: seq<Service>, ghost bound: nat)
    : (Root, Scope, Result<seq<nat>, ResolveError>)
    requires Acyclic(reg, rank) && forall d | d in deps :: rank(d) < bound
    decreases bound, 0, |deps|
  {
    if deps == [] then (r, s, Ok([]))
    else
      var (r1, s1, first) := ScopeGet(reg, rank, r, s, deps[0]);
      match first
      case Err(e) => (r1, s1, Err(e))
      case Ok(id) =>
        var (r2, s2, rest) := ScopeGetAll(reg, rank, r1, s1, deps[1..], bound);
        match rest
        case Err(e) => (r2, s2, Err(e))
        case Ok(ids) => (r2, s2, Ok([id] + ids))
  }

  // ---------------------------------------------------------------- disposal

  /** The last cached first; an instance whose disposal raises ends the sequence. */
  function Disposals(cache: seq<Cached>, faulty: set<nat>): seq<nat> {
    if cache == [] then []
    else
      var last := cache[|cache| - 1].obj;
      [last] + if last in faulty then [] else Disposals(cache[..|cache| - 1], faulty)
  }

  predicate Raises(cache: seq<Cached>, faulty: set<nat>) {
    exists k | 0 <= k < |cache| :: cache[k].obj in faulty
  }

  /** `close`: a second call does nothing; a failed disposal leaves the cache uncleared. */
  function Close(s: Scope, faulty: set<nat>): Scope {
    if s.closed then s
    else
      Scope(s.id, if Raises(s.cache, faulty) then s.cache else [], true, s.disposed + Disposals(s.cache, faulty))
  }

  // ---------------------------------------------------------------- what resolution maintains

  /**
    An object holds only older objects. One that is not scoped holds no scoped object; a scoped one
    holds scoped objects of its own scope only.
   */
  predicate ObjOk(objects: seq<Obj>, i: nat)
    requires i < |objects|
  {
    var o := objects[i];
    && (o.lifetime.Scoped? <==> o.owner.Some?)
    && (forall d | d in o.deps :: d < i && (objects[d].lifetime.Scoped? ==> objects[d].owner == o.owner))
  }

  /** A cache lists objects of its kind, each service once, in the order they were built. */
  predicate CacheOk(objects: seq<Obj>, cache: seq<Cached>, lifetime: Lifetime, owner: Option<nat>) {
    && (forall k | 0 <= k < |cache| ::
          && cache[k].obj < |objects|
          && objects[cache[k].obj].service == cache[k].service
          && objects[cache[k].obj].lifetime == lifetime
          && objects[cache[k].obj].owner == owner)
    && (forall k, l | 0 <= k < l < |cache| ::
          cache[k].service != cache[l].service && cache[k].obj < cache[l].obj)
  }

  predicate RootInv(r: Root) {
    (forall i | 0 <= i < |r.objects| :: ObjOk(r.objects, i)) &&
    CacheOk(r.objects, r.singletons, Singleton, None)
  }

  predicate ScopeInv(r: Root, s: Scope) {
    CacheOk(r.objects, s.cache, Scoped, Some(s.id))
  }

  /** What was asked for is there. */
  predicate Serves(r: Root, id: nat, t: Service, lifetime: Lifetime, owner: Option<nat>) {
    id < |r.objects| && r.objects[id].service == t && r.objects[id].lifetime == lifetime &&
    r.objects[id].owner == owner
  }

  lemma {:induction false} FindIs(cache: seq<Cached>, t: Service)
    ensures match Find(cache, t)
            case Some(id) => exists k :: 0 <= k < |cache| && cache[k] == Cached(t, id)
            case None => forall k | 0 <= k < |cache| :: cache[k].service != t
  {
    if cache != [] {
      FindIs(cache[1..], t);
      match Find(cache[1..], t)
      case Some(id) =>
        var k :| 0 <= k < |cache[1..]| && cache[1..][k] == Cached(t, id);
        assert cache[0].service != t ==> cache[k + 1] == Cached(t, id);
      case None =>
        assert forall k | 1 <= k < |cache| :: cache[k] == cache[1..][k - 1];
    }
  }

  /** New objects come after the old ones and are not scoped; new cache entries rank below `bound`. */
  ghost predicate RootGrows(rank: Service -> nat, r: Root, r': Root, bound: nat) {
    && r.objects <= r'.objects && r.singletons <= r'.singletons
    && (forall i | |r.objects| <= i < |r'.objects| :: !r'.objects[i].lifetime.Scoped?)
    && (forall k | |r.singletons| <= k < |r'.singletons| :: rank(r'.singletons[k].service) < bound)
  }

  lemma BuildKeepsRoot(r: Root, t: Service, lifetime: Lifetime, owner: Option<nat>, ids: seq<nat>)
    requires RootInv(r) && (lifetime.Scoped? <==> owner.Some?)
    requires forall d | d in ids ::
               d < |r.objects| && (r.objects[d].lifetime.Scoped? ==> r.objects[d].owner == owner)
    ensures RootInv(Build(r, t, lifetime, owner, ids))
  {
    var objects := Build(r, t, lifetime, owner, ids).objects;
    forall i | 0 <= i < |objects| ensures ObjOk(objects, i) {
      if i < |r.objects| {
        assert ObjOk(r.objects, i);
      }
    }
  }

  lemma {:induction false} RootGetKeeps(reg: Registry, rank: Service -> nat, r: Root, t: Service)
    requires Acyclic(reg, rank) && RootInv(r)
    ensures var (r', got) := RootGet(reg, rank, r, t);
            && RootInv(r') && RootGrows(rank, r, r', rank(t) + 1)
            && (got.Ok? ==> t in reg && !reg[t].lifetime.Scoped? && Serves(r', got.value, t, reg[t].lifetime, None))
    decreases rank(t), 1, 0
  {
    if t in reg && !reg[t].lifetime.Scoped? {
      FindIs(r.singletons, t);
      if !(reg[t].lifetime.Singleton? && Find(r.singletons, t).Some?) {
        RootGetAllKeeps(reg, rank, r, reg[t].deps, rank(t));
        var (r1, got) := RootGetAll(reg, rank, r, reg[t].deps, rank(t));
        if got.Ok? {
          BuildKeepsRoot(r1, t, reg[t].lifetime, None, got.value);
          if reg[t].lifetime.Singleton? {
            SingletonNew(rank, r, r1, t, got.value);
          }
        }
      }
    }
  }

  /** Caching the singleton just built, after its dependencies. */
  lemma SingletonNew(rank: Service -> nat, r: Root, r1: Root, t: Service, ids: seq<nat>)
    requires RootInv(r1) && RootInv(Build(r1, t, Singleton, None, ids)) && RootGrows(rank, r, r1, rank(t))
    requires forall k | 0 <= k < |r.singletons| :: r.singletons[k].service != t
    ensures var r2 := Build(r1, t, Singleton, None, ids);
            var r' := r2.(singletons := r2.singletons + [Cached(t, |r1.objects|)]);
            RootInv(r') && RootGrows(rank, r, r', rank(t) + 1)
  {
    assert forall k | 0 <= k < |r1.singletons| :: r1.singletons[k].service != t;
  }

  lemma {:induction false} RootGetAllKeeps(
    reg: Registry, rank: Service -> nat, r: Root, deps: seq<Service>, bound: nat)
    requires Acyclic(reg, rank) && RootInv(r) && forall d | d in deps :: rank(d) < bound
    ensures var (r', got) := RootGetAll(reg, rank, r, deps, bound);
            && RootInv(r') && RootGrows(rank, r, r', bound)
            && (got.Ok? ==> forall id | id in got.value :: id < |r'.objects| && !r'.objects[id].lifetime.Scoped?)
    decreases bound, 0, |deps|
  {
    if deps != [] {
      RootGetKeeps(reg, rank, r, deps[0]);
      var (r1, first) := RootGet(reg, rank, r, deps[0]);
      if first.Ok? {
        RootGetAllKeeps(reg, rank, r1, deps[1..], bound);
      }
    }
  }

  /** As for the root; besides, new scoped objects belong to the scope and are in its cache. */
  ghost predicate ScopeGrows(rank: Service -> nat, r: Root, s: Scope, r': Root, s': Scope, bound: nat) {
    && r.objects <= r'.objects && r.singletons <= r'.singletons
    && s' == s.(cache := s'.cache) && s.cache <= s'.cache
    && (forall i | |r.objects| <= i < |r'.objects| && r'.objects[i].lifetime.Scoped? ::
          r'.objects[i].owner == Some(s.id) && Cached(r'.objects[i].service, i) in s'.cache)
    && (forall k | |s.cache| <= k < |s'.cache| ::
          |r.objects| <= s'.cache[k].obj && rank(s'.cache[k].service) < bound)
  }

  lemma ScopeGrowsOn(
    rank: Service -> nat, r: Root, s: Scope, r1: Root, s1: Scope, r2: Root, s2: Scope, b1: nat, b2: nat)
    requires ScopeGrows(rank, r, s, r1, s1, b1) && ScopeGrows(rank, r1, s1, r2, s2, b2) && b1 <= b2
    ensures ScopeGrows(rank, r, s, r2, s2, b2)
  {}

  lemma {:induction false} ScopeGetKeeps(
    reg: Registry, rank: Service -> nat, r: Root, s: Scope, t: Service)
    requires Acyclic(reg, rank) && RootInv(r) && ScopeInv(r, s)
    ensures var (r', s', got) := ScopeGet(reg, rank, r, s, t);
            && RootInv(r') && ScopeInv(r', s') && ScopeGrows(rank, r, s, r', s', rank(t) + 1)
            && (got.Ok? ==>
                  t in reg && Serves(r', got.value, t, reg[t].lifetime,
                                     if reg[t].lifetime.Scoped? then Some(s.id) else None))
    decreases rank(t), 1, 0
  {
    if !s.closed && t in reg {
      if !reg[t].lifetime.Scoped? {
        RootGetKeeps(reg, rank, r, t);
      } else {
        FindIs(s.cache, t);
        if Find(s.cache, t).None? {
          ScopeGetAllKeeps(reg, rank, r, s, reg[t].deps, rank(t));
          var (r1, s1, got) := ScopeGetAll(reg, rank, r, s, reg[t].deps, rank(t));
          if got.Ok? {
            BuildKeepsRoot(r1, t, Scoped, Some(s.id), got.value);
            CacheNew(rank, r, s, r1, s1, t, got.value);
          }
        }
      }
    }
  }

  /** Caching the scoped object just built, after its dependencies. */
  lemma CacheNew(
    rank: Service -> nat, r: Root, s: Scope, r1: Root, s1: Scope, t: Service, ids: seq<nat>)
    requires ScopeInv(r1, s1) && ScopeGrows(rank, r, s, r1, s1, rank(t))
    requires forall k | 0 <= k < |s.cache| :: s.cache[k].service != t
    ensures var r2 := Build(r1, t, Scoped, Some(s.id), ids);
            var s2 := s1.(cache := s1.cache + [Cached(t, |r1.objects|)]);
            ScopeInv(r2, s2) && ScopeGrows(rank, r, s, r2, s2, rank(t) + 1)
  {
    assert forall k | 0 <= k < |s1.cache| :: s1.cache[k].service != t;
  }

  lemma {:induction false} ScopeGetAllKeeps(
    reg: Registry, rank: Service -> nat, r: Root, s: Scope, deps: seq<Service>, bound: nat)
    requires Acyclic(reg, rank) && RootInv(r) && ScopeInv(r, s) && forall d | d in deps :: rank(d) < bound
    ensures var (r', s', got) := ScopeGetAll(reg, rank, r, s, deps, bound);
            && RootInv(r') && ScopeInv(r', s') && ScopeGrows(rank, r, s, r', s', bound)
            && (got.Ok? ==> forall id | id in got.value ::
                  id < |r'.objects| && (r'.objects[id].lifetime.Scoped? ==> r'.objects[id].owner == Some(s.id)))
    decreases bound, 0, |deps|
  {
    if deps != [] {
      ScopeGetKeeps(reg, rank, r, s, deps[0]);
      var (r1, s1, first) := ScopeGet(reg, rank, r, s, deps[0]);
      if first.Ok? {
        ScopeGetAllKeeps(reg, rank, r1, s1, deps[1..], bound);
        var (r2, s2, rest) := ScopeGetAll(reg, rank, r1, s1, deps[1..], bound);
        ScopeGrowsOn(rank, r, s, r1, s1, r2, s2, rank(deps[0]) + 1, bound);
      }
    }
  }
}
