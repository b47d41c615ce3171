/** The provider and scope objects: their dictionaries change as the functions of Container say. */
module ServiceProviders {
  import opened Common
  import opened Container

  /** A result list with what was obtained earlier put in front. */
  function Prepend(ids: seq<nat>, got: Result<seq<nat>, ResolveError>): Result<seq<nat>, ResolveError> {
    match got
    case Ok(rest) => Ok(ids + rest)
    case Err(e) => Err(e)
  }

  class ServiceProvider {
    const registry: Registry
    ghost const rank: Service -> nat
    var objects: seq<Obj>
    var singletons: seq<Cached>

    constructor (registry: Registry, ghost rank: Service -> nat)
      requires Acyclic(registry, rank)
      ensures this.registry == registry && this.rank == rank && Contents() == Root([], [])
    {
      this.registry, this.rank := registry, rank;
      objects, singletons := [], [];
    }

    function Contents(): Root
      reads this
    {
      Root(objects, singletons)
    }

    /** Appends the object that a factory builds. */
    method Construct(t: Service, lifetime: Lifetime, owner: Option<nat>, ids: seq<nat>) returns (id: nat)
      modifies this`objects
      ensures id == |old(objects)|
      ensures Contents() == Build(old(Contents()), t, lifetime, owner, ids)
    {
      id := |objects|;
      objects := objects + [Obj(t, lifetime, owner, ids)];
    }

    method Get(t: Service) returns (r: Result<nat, ResolveError>)
      requires Acyclic(registry, rank)
      modifies this
      ensures (Contents(), r) == RootGet(registry, rank, old(Contents()), t)
      decreases rank(t), 1, 0
    {
      if t !in registry {
        return Err(NotRegistered(t));
      }
      var descriptor := registry[t];
      if descriptor.lifetime.Scoped? {
        return Err(NeedsScope(t));
      }
      if descriptor.lifetime.Singleton? {
        var cached := Find(singletons, t);
        if cached.Some? {
          return Ok(cached.value);
        }
      }
      var got := Dependencies(descriptor.deps, rank(t));
      if got.Err? {
        return Err(got.error);
      }
      var id := Construct(t, descriptor.lifetime, None, got.value);
      if descriptor.lifetime.Singleton? {
        singletons := singletons + [Cached(t, id)];
      }
      r := Ok(id);
    }

    /** What a factory handed the root obtains from it. */
    method Dependencies(deps: seq<Service>, ghost bound: nat) returns (r: Result<seq<nat>, ResolveError>)
      requires Acyclic(registry, rank) && forall d | d in deps :: rank(d) < bound
      modifies this
      ensures (Contents(), r) == RootGetAll(registry, rank, old(Contents()), deps, bound)
      decreases bound, 0, |deps|
    {
      var ids: seq<nat> := [];
      ghost var goal := RootGetAll(registry, rank, Contents(), deps, bound);
      assert deps[0..] == deps && (goal.1.Ok? ==> ids + goal.1.value == goal.1.value);
      for i := 0 to |deps|
        invariant var (r1, got) := RootGetAll(registry, rank, Contents(), deps[i..], bound);
                  goal == (r1, Prepend(ids, got))
      {
        assert deps[i] in deps && deps[i..][1..] == deps[i + 1..];
        var one := Get(deps[i]);
        if one.Err? {
          return Err(one.error);
        }
        ghost var rest := RootGetAll(registry, rank, Contents(), deps[i + 1..], bound).1;
        assert rest.Ok? ==> ids + ([one.value] + rest.value) == ids + [one.value] + rest.value;
        ids := ids + [one.value];
      }
      assert deps[|deps|..] == [] && ids + [] == ids;
      r := Ok(ids);
    }
  }

  class ServiceScope {
    const root: ServiceProvider
    const id: nat
    var cache: seq<Cached>
    var closed: bool
    var disposed: seq<nat>

    constructor (root: ServiceProvider, id: nat)
      ensures this.root == root && this.id == id && Contents() == Scope(id, [], false, [])
    {
      this.root, this.id := root, id;
      cache, closed, disposed := [], false, [];
    }

    function Contents(): Scope
      reads this
    {
      Scope(id, cache, closed, disposed)
    }

    method Get(t: Service) returns (r: Result<nat, ResolveError>)
      requires Acyclic(root.registry, root.rank)
      modifies this, root
      ensures (root.Contents(), Contents(), r) ==
              ScopeGet(root.registry, root.rank, old(root.Contents()), old(Contents()), t)
      decreases root.rank(t), 1, 0
    {
      if closed {
        return Err(ScopeClosed);
      }
      if t !in root.registry {
        return Err(NotRegistered(t));
      }
      var descriptor := root.registry[t];
      if !descriptor.lifetime.Scoped? {
        r := root.Get(t);
        return;
      }
      var cached := Find(cache, t);
      if cached.Some? {
        return Ok(cached.value);
      }
      var got := Dependencies(descriptor.deps, root.rank(t));
      if got.Err? {
        return Err(got.error);
      }
      var obj := root.Construct(t, Scoped, Some(id), got.value);
      cache := cache + [Cached(t, obj)];
      r := Ok(obj);
    }

    /** What a factory handed the scope obtains from it. */
    method Dependencies(deps: seq<Service>, ghost bound: nat) returns (r: Result<seq<nat>, ResolveError>)
      requires Acyclic(root.registry, root.rank) && forall d | d in deps :: root.rank(d) < bound
      modifies this, root
      ensures (root.Contents(), Contents(), r) ==
              ScopeGetAll(root.registry, root.rank, old(root.Contents()), old(Contents()), deps, bound)
      decreases bound, 0, |deps|
    {
      var ids: seq<nat> := [];
      ghost var goal := ScopeGetAll(root.registry, root.rank, root.Contents(), Contents(), deps, bound);
      assert deps[0..] == deps && (goal.2.Ok? ==> ids + goal.2.value == goal.2.value);
      for i := 0 to |deps|
        invariant var (r1, s1, got) :=
                    ScopeGetAll(root.registry, root.rank, root.Contents(), Contents(), deps[i..], bound);
                  goal == (r1, s1, Prepend(ids, got))
      {
        assert deps[i] in deps && deps[i..][1..] == deps[i + 1..];
        var one := Get(deps[i]);
        if one.Err? {
          return Err(one.error);
        }
        ghost var rest :=
          ScopeGetAll(root.registry, root.rank, root.Contents(), Contents(), deps[i + 1..], bound).2;
        assert rest.Ok? ==> ids + ([one.value] + rest.value) == ids + [one.value] + rest.value;
        ids := ids + [one.value];
      }
      assert deps[|deps|..] == [] && ids + [] == ids;
      r := Ok(ids);
    }

    /** `faulty`: the instances whose disposal raises. The scope counts as closed from the start. */
    method Close(faulty: set<nat>) returns (raised: bool)
      modifies this
      ensures Contents() == Container.Close(old(Contents()), faulty)
      ensures raised <==> !old(closed) && Raises(old(cache), faulty)
    {
      if closed {
        return false;
      }
      closed := true;
      var gone;
      gone, raised := DisposeAll(cache, faulty);
      disposed := disposed + gone;
      if !raised {
        cache := [];
      }
    }
  }

  /** Disposes instances from the last one back, until one raises. */
  method DisposeAll(cache: seq<Cached>, faulty: set<nat>) returns (gone: seq<nat>, raised: bool)
    ensures gone == Disposals(cache, faulty)
    ensures raised <==> Raises(cache, faulty)
  {
    gone := [];
    var left := cache;
    while left != []
      invariant left <= cache
      invariant Raises(cache, faulty) <==> Raises(left, faulty)
      invariant Disposals(cache, faulty) == gone + Disposals(left, faulty)
      decreases |left|
    {
      var front, obj := left[..|left| - 1], left[|left| - 1].obj;
      ghost var rest := if obj in faulty then [] else Disposals(front, faulty);
      assert Disposals(left, faulty) == [obj] + rest;
      assert gone + ([obj] + rest) == (gone + [obj]) + rest;
      gone := gone + [obj];
      if obj in faulty {
        return gone, true;
      }
      RaisesInFront(left, faulty);
      left := front;
    }
    raised := false;
  }

  lemma RaisesInFront(cache: seq<Cached>, faulty: set<nat>)
    requires cache != [] && cache[|cache| - 1].obj !in faulty
    ensures Raises(cache, faulty) <==> Raises(cache[..|cache| - 1], faulty)
  {
    assert forall k | 0 <= k < |cache| - 1 :: cache[..|cache| - 1][k] == cache[k];
  }
}
