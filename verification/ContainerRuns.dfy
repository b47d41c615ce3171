/** Runs of the container: any number of scopes, opened, asked and closed in any order. */
module ContainerRuns {
  import opened Common
  import opened Container

  datatype System = System(root: Root, scopes: map<nat, Scope>)

  datatype Call =
    | CreateScope(id: nat)
    | AskRoot(service: Service)
    | AskScope(id: nat, service: Service)
    | CloseScope(id: nat, faulty: set<nat>)

  const EMPTY := System(Root([], []), map[])

  predicate Enabled(y: System, c: Call) {
    match c
    case CreateScope(id) => id !in y.scopes
    case AskRoot(_) => true
    case AskScope(id, _) => id in y.scopes
    case CloseScope(id, _) => id in y.scopes
  }

  function Step(reg: Registry, ghost rank: Service -> nat, y: System, c: Call): System
    requires Acyclic(reg, rank) && Enabled(y, c)
  {
    match c
    case CreateScope(id) => y.(scopes := y.scopes[id := Scope(id, [], false, [])])
    case AskRoot(t) => y.(root := RootGet(reg, rank, y.root, t).0)
    case AskScope(id, t) =>
      var (r, s, _) := ScopeGet(reg, rank, y.root, y.scopes[id], t);
      System(r, y.scopes[id := s])
    case CloseScope(id, faulty) => y.(scopes := y.scopes[id := Close(y.scopes[id], faulty)])
  }

  ghost predicate Valid(reg: Registry, rank: Service -> nat, y: System, cs: seq<Call>)
    requires Acyclic(reg, rank)
    decreases |cs|
  {
    cs == [] || (Enabled(y, cs[0]) && Valid(reg, rank, Step(reg, rank, y, cs[0]), cs[1..]))
  }

  ghost function Exec(reg: Registry, rank: Service -> nat, y: System, cs: seq<Call>): System
    requires Acyclic(reg, rank) && Valid(reg, rank, y, cs)
    decreases |cs|
  {
    if cs == [] then y else Exec(reg, rank, Step(reg, rank, y, cs[0]), cs[1..])
  }

  // ---------------------------------------------------------------- what every run maintains

  /** The scope disposed only its own objects, younger ones first, and none while open. */
  ghost predicate DisposalOk(r: Root, s: Scope) {
    && (s.disposed != [] ==> s.closed)
    && (forall x | x in s.disposed :: x < |r.objects| && r.objects[x].owner == Some(s.id))
    && (forall k, l | 0 <= k < l < |s.disposed| :: s.disposed[l] < s.disposed[k])
  }

  /** The object is in its scope's cache, or was disposed. */
  ghost predicate Listed(y: System, i: nat)
    requires i < |y.root.objects| && y.root.objects[i].owner.Some?
  {
    var o := y.root.objects[i];
    o.owner.value in y.scopes &&
    (Cached(o.service, i) in y.scopes[o.owner.value].cache || i in y.scopes[o.owner.value].disposed)
  }

  ghost predicate Inv(y: System) {
    && RootInv(y.root)
    && ScopesOk(y)
    && AllListed(y)
    && OnePerScope(y.root.objects)
  }

  ghost predicate ScopesOk(y: System) {
    forall id | id in y.scopes :: ScopeOk(y.root, id, y.scopes[id])
  }

  ghost predicate ScopeOk(r: Root, id: nat, s: Scope) {
    s.id == id && ScopeInv(r, s) && DisposalOk(r, s)
  }

  ghost predicate AllListed(y: System) {
    forall i | 0 <= i < |y.root.objects| && y.root.objects[i].owner.Some? :: Listed(y, i)
  }

  /** No scope ever got two objects of one service. */
  ghost predicate OnePerScope(objects: seq<Obj>) {
    forall i, j | 0 <= i < j < |objects| && objects[i].owner.Some? && objects[i].owner == objects[j].owner ::
      objects[i].service != objects[j].service
  }

  lemma ScopeStaysOk(r: Root, r': Root, id: nat, s: Scope)
    requires ScopeOk(r, id, s) && r.objects <= r'.objects
    ensures ScopeOk(r', id, s)
  {}

  lemma AskRootKeepsInv(reg: Registry, rank: Service -> nat, y: System, t: Service)
    requires Acyclic(reg, rank) && Inv(y)
    ensures Inv(Step(reg, rank, y, AskRoot(t)))
  {
    RootGetKeeps(reg, rank, y.root, t);
    var y' := Step(reg, rank, y, AskRoot(t));
    forall id | id in y'.scopes ensures ScopeOk(y'.root, id, y'.scopes[id]) {
      ScopeStaysOk(y.root, y'.root, id, y.scopes[id]);
    }
    forall i | |y.root.objects| <= i < |y'.root.objects| ensures y'.root.objects[i].owner.None? {
      assert ObjOk(y'.root.objects, i);
    }
    forall i | 0 <= i < |y'.root.objects| && y'.root.objects[i].owner.Some? ensures Listed(y', i) {
      assert Listed(y, i);
    }
  }

  lemma AskScopeKeepsScopes(reg: Registry, rank: Service -> nat, y: System, id: nat, t: Service)
    requires Acyclic(reg, rank) && Inv(y) && id in y.scopes
    ensures var y' := Step(reg, rank, y, AskScope(id, t));
            forall k | k in y'.scopes :: ScopeOk(y'.root, k, y'.scopes[k])
  {
    ScopeGetKeeps(reg, rank, y.root, y.scopes[id], t);
    var y' := Step(reg, rank, y, AskScope(id, t));
    forall k | k in y'.scopes && k != id ensures ScopeOk(y'.root, k, y'.scopes[k]) {
      ScopeStaysOk(y.root, y'.root, k, y.scopes[k]);
    }
    ScopeStaysOk(y.root, y'.root, id, y.scopes[id]);
  }

  lemma AskScopeLists(reg: Registry, rank: Service -> nat, y: System, id: nat, t: Service)
    requires Acyclic(reg, rank) && Inv(y) && id in y.scopes
    ensures AllListed(Step(reg, rank, y, AskScope(id, t)))
  {
    ScopeGetKeeps(reg, rank, y.root, y.scopes[id], t);
    var y' := Step(reg, rank, y, AskScope(id, t));
    forall i | 0 <= i < |y'.root.objects| && y'.root.objects[i].owner.Some? ensures Listed(y', i) {
      if i < |y.root.objects| {
        assert Listed(y, i);
      } else {
        assert ObjOk(y'.root.objects, i);
      }
    }
  }

  /** Objects of an open scope are told apart by the scope's cache. */
  lemma CacheTellsApart(y: System, i: nat, j: nat)
    requires AllListed(y) && i < j < |y.root.objects|
    requires y.root.objects[i].owner.Some? && y.root.objects[i].owner == y.root.objects[j].owner
    requires var id := y.root.objects[i].owner.value;
             id in y.scopes && ScopeOk(y.root, id, y.scopes[id]) && !y.scopes[id].closed
    ensures y.root.objects[i].service != y.root.objects[j].service
  {
    var cache := y.scopes[y.root.objects[i].owner.value].cache;
    assert Listed(y, i) && Listed(y, j);
    var k :| 0 <= k < |cache| && cache[k] == Cached(y.root.objects[i].service, i);
    var l :| 0 <= l < |cache| && cache[l] == Cached(y.root.objects[j].service, j);
  }

  lemma AskScopeKeepsInv(reg: Registry, rank: Service -> nat, y: System, id: nat, t: Service)
    requires Acyclic(reg, rank) && Inv(y) && id in y.scopes
    ensures Inv(Step(reg, rank, y, AskScope(id, t)))
  {
    var y' := Step(reg, rank, y, AskScope(id, t));
    ScopeGetKeeps(reg, rank, y.root, y.scopes[id], t);
    AskScopeKeepsScopes(reg, rank, y, id, t);
    AskScopeLists(reg, rank, y, id, t);
    var objects := y'.root.objects;
    if !y.scopes[id].closed {
      forall i, j | 0 <= i < j < |objects| && objects[i].owner.Some? && objects[i].owner == objects[j].owner
        ensures objects[i].service != objects[j].service
      {
        if j >= |y.root.objects| {
          assert ObjOk(objects, j);
          CacheTellsApart(y', i, j);
        }
      }
    }
  }

  /** Disposal runs backwards through the cache, and through all of it if nothing raises. */
  lemma {:induction false} DisposalsAt(cache: seq<Cached>, faulty: set<nat>)
    ensures |Disposals(cache, faulty)| <= |cache|
    ensures forall k | 0 <= k < |Disposals(cache, faulty)| ::
              Disposals(cache, faulty)[k] == cache[|cache| - 1 - k].obj
    ensures !Raises(cache, faulty) ==> |Disposals(cache, faulty)| == |cache|
    decreases |cache|
  {
    if cache != [] {
      var front := cache[..|cache| - 1];
      DisposalsAt(front, faulty);
      assert cache[|cache| - 1].obj !in faulty ==> (Raises(front, faulty) ==> Raises(cache, faulty)) by {
        assert forall k | 0 <= k < |front| :: front[k] == cache[k];
      }
    }
  }

  /** If something raises, disposal ends with the first instance that does. */
  lemma {:induction false} DisposalsStop(cache: seq<Cached>, faulty: set<nat>)
    requires Raises(cache, faulty)
    ensures var gone := Disposals(cache, faulty);
            gone != [] && gone[|gone| - 1] in faulty && forall k | 0 <= k < |gone| - 1 :: gone[k] !in faulty
    decreases |cache|
  {
    var n := |cache| - 1;
    if cache[n].obj !in faulty {
      assert Raises(cache[..n], faulty) by {
        var k :| 0 <= k < |cache| && cache[k].obj in faulty;
        assert cache[..n][k] == cache[k];
      }
      DisposalsStop(cache[..n], faulty);
    }
  }

  lemma DisposalsAreReversed(objects: seq<Obj>, cache: seq<Cached>, owner: nat, faulty: set<nat>)
    requires CacheOk(objects, cache, Scoped, Some(owner))
    ensures forall x | x in Disposals(cache, faulty) :: exists k :: 0 <= k < |cache| && cache[k].obj == x
    ensures forall k, l | 0 <= k < l < |Disposals(cache, faulty)| ::
              Disposals(cache, faulty)[l] < Disposals(cache, faulty)[k]
    ensures !Raises(cache, faulty) ==> forall k | 0 <= k < |cache| :: cache[k].obj in Disposals(cache, faulty)
  {
    DisposalsAt(cache, faulty);
    var all := Disposals(cache, faulty);
    if !Raises(cache, faulty) {
      forall k | 0 <= k < |cache| ensures cache[k].obj in all {
        assert all[|cache| - 1 - k] == cache[k].obj;
      }
    }
  }

  lemma CloseKeepsScopeOk(r: Root, id: nat, s: Scope, faulty: set<nat>)
    requires ScopeOk(r, id, s)
    ensures ScopeOk(r, id, Close(s, faulty))
  {
    if !s.closed {
      DisposalsAreReversed(r.objects, s.cache, id, faulty);
    }
  }

  /** Closing a scope disposes what its cache listed, or leaves it listed if a disposal raised. */
  lemma CloseKeepsListed(y: System, id: nat, faulty: set<nat>, i: nat)
    requires id in y.scopes && ScopeInv(y.root, y.scopes[id]) && y.scopes[id].id == id
    requires i < |y.root.objects| && y.root.objects[i].owner.Some? && Listed(y, i)
    ensures Listed(y.(scopes := y.scopes[id := Close(y.scopes[id], faulty)]), i)
  {
    var s := y.scopes[id];
    if y.root.objects[i].owner == Some(id) && !s.closed && i !in s.disposed {
      DisposalsAreReversed(y.root.objects, s.cache, id, faulty);
      var k :| 0 <= k < |s.cache| && s.cache[k] == Cached(y.root.objects[i].service, i);
      assert !Raises(s.cache, faulty) ==> s.cache[k].obj in Disposals(s.cache, faulty);
    }
  }

  lemma CloseScopeKeepsInv(y: System, id: nat, faulty: set<nat>)
    requires Inv(y) && id in y.scopes
    ensures Inv(y.(scopes := y.scopes[id := Close(y.scopes[id], faulty)]))
  {
    var y' := y.(scopes := y.scopes[id := Close(y.scopes[id], faulty)]);
    assert ScopeOk(y.root, id, y.scopes[id]);
    CloseKeepsScopeOk(y.root, id, y.scopes[id], faulty);
    CloseKeepsAllListed(y, id, faulty);
    assert ScopesOk(y');
  }

  lemma CloseKeepsAllListed(y: System, id: nat, faulty: set<nat>)
    requires AllListed(y) && id in y.scopes && ScopeInv(y.root, y.scopes[id]) && y.scopes[id].id == id
    ensures AllListed(y.(scopes := y.scopes[id := Close(y.scopes[id], faulty)]))
  {
    forall i | 0 <= i < |y.root.objects| && y.root.objects[i].owner.Some?
      ensures Listed(y.(scopes := y.scopes[id := Close(y.scopes[id], faulty)]), i)
    {
      assert Listed(y, i);
      CloseKeepsListed(y, id, faulty, i);
    }
  }

  lemma StepKeepsInv(reg: Registry, rank: Service -> nat, y: System, c: Call)
    requires Acyclic(reg, rank) && Inv(y) && Enabled(y, c)
    ensures Inv(Step(reg, rank, y, c))
  {
    match c
    case CreateScope(id) =>
      var y' := Step(reg, rank, y, c);
      forall i | 0 <= i < |y'.root.objects| && y'.root.objects[i].owner.Some? ensures Listed(y', i) {
        assert Listed(y, i);
      }
    case AskRoot(t) => AskRootKeepsInv(reg, rank, y, t);
    case AskScope(id, t) => AskScopeKeepsInv(reg, rank, y, id, t);
    case CloseScope(id, faulty) => CloseScopeKeepsInv(y, id, faulty);
  }

  lemma {:induction false} RunsKeepInv(reg: Registry, rank: Service -> nat, y: System, cs: seq<Call>)
    requires Acyclic(reg, rank) && Inv(y) && Valid(reg, rank, y, cs)
    ensures Inv(Exec(reg, rank, y, cs))
    decreases |cs|
  {
    if cs != [] {
      StepKeepsInv(reg, rank, y, cs[0]);
      RunsKeepInv(reg, rank, Step(reg, rank, y, cs[0]), cs[1..]);
    }
  }

  // ---------------------------------------------------------------- the container's promises

  /** Object `i` holds object `j`, directly or through other objects. */
  ghost predicate Holds(objects: seq<Obj>, i: nat, j: nat)
    decreases i
  {
    i < |objects| &&
    (j in objects[i].deps || exists d | d in objects[i].deps && d < i :: Holds(objects, d, j))
  }

  lemma {:induction false} HoldsNoScoped(r: Root, i: nat, j: nat)
    requires RootInv(r) && i < |r.objects| && !r.objects[i].lifetime.Scoped? && Holds(r.objects, i, j)
    ensures j < |r.objects| && !r.objects[j].lifetime.Scoped?
    decreases i
  {
    assert ObjOk(r.objects, i);
    if j in r.objects[i].deps {
      assert ObjOk(r.objects, j);
    } else {
      var d :| d in r.objects[i].deps && d < i && Holds(r.objects, d, j);
      assert ObjOk(r.objects, d);
      HoldsNoScoped(r, d, j);
    }
  }

  /** No singleton or transient object ever holds, at any depth, an object of a scope. */
  lemma NoCaptiveScoped(reg: Registry, rank: Service -> nat, cs: seq<Call>, i: nat, j: nat)
    requires Acyclic(reg, rank) && Valid(reg, rank, EMPTY, cs)
    requires var objects := Exec(reg, rank, EMPTY, cs).root.objects;
             i < |objects| && !objects[i].lifetime.Scoped? && Holds(objects, i, j)
    ensures var objects := Exec(reg, rank, EMPTY, cs).root.objects;
            j < |objects| && !objects[j].lifetime.Scoped?
  {
    RunsKeepInv(reg, rank, EMPTY, cs);
    HoldsNoScoped(Exec(reg, rank, EMPTY, cs).root, i, j);
  }

  /** A scoped factory runs to completion at most once per scope, over the whole run. */
  lemma OncePerScope(reg: Registry, rank: Service -> nat, cs: seq<Call>)
    requires Acyclic(reg, rank) && Valid(reg, rank, EMPTY, cs)
    ensures OnePerScope(Exec(reg, rank, EMPTY, cs).root.objects)
  {
    RunsKeepInv(reg, rank, EMPTY, cs);
  }

  /** The object holds one object of every service its factory asks for, in that order. */
  predicate Wired(reg: Registry, objects: seq<Obj>, i: nat)
    requires i < |objects|
  {
    var o := objects[i];
    && o.service in reg && o.lifetime == reg[o.service].lifetime
    && Obtained(objects, o.deps, reg[o.service].deps)
  }

  predicate Obtained(objects: seq<Obj>, ids: seq<nat>, deps: seq<Service>) {
    && |ids| == |deps|
    && forall k | 0 <= k < |ids| :: ids[k] < |objects| && objects[ids[k]].service == deps[k]
  }

  ghost predicate AllWired(reg: Registry, objects: seq<Obj>) {
    forall i {:trigger Wired(reg, objects, i)} | 0 <= i < |objects| :: Wired(reg, objects, i)
  }

  lemma ObtainedFirst(objects: seq<Obj>, objects': seq<Obj>, id: nat, ids: seq<nat>, deps: seq<Service>)
    requires deps != [] && objects <= objects' && id < |objects| && objects[id].service == deps[0]
    requires Obtained(objects', ids, deps[1..])
    ensures Obtained(objects', [id] + ids, deps)
  {
    forall k | 0 <= k < |[id] + ids|
      ensures ([id] + ids)[k] < |objects'| && objects'[([id] + ids)[k]].service == deps[k]
    {
      if k > 0 {
        assert ([id] + ids)[k] == ids[k - 1] && deps[1..][k - 1] == deps[k];
      }
    }
  }

  lemma BuildKeepsWired(
    reg: Registry, r: Root, t: Service, lifetime: Lifetime, owner: Option<nat>, ids: seq<nat>)
    requires AllWired(reg, r.objects) && t in reg && reg[t].lifetime == lifetime
    requires Obtained(r.objects, ids, reg[t].deps)
    ensures AllWired(reg, Build(r, t, lifetime, owner, ids).objects)
  {
    var objects := Build(r, t, lifetime, owner, ids).objects;
    forall i | 0 <= i < |objects| ensures Wired(reg, objects, i) {
      if i < |r.objects| {
        assert Wired(reg, r.objects, i) && objects[i] == r.objects[i];
        assert forall k | 0 <= k < |objects[i].deps| :: objects[objects[i].deps[k]] == r.objects[objects[i].deps[k]];
      }
    }
  }

  lemma {:induction false} RootGetWires(reg: Registry, rank: Service -> nat, r: Root, t: Service)
    requires Acyclic(reg, rank) && RootInv(r) && AllWired(reg, r.objects)
    ensures AllWired(reg, RootGet(reg, rank, r, t).0.objects)
    decreases rank(t), 1, 0
  {
    if t in reg && !reg[t].lifetime.Scoped? {
      if !(reg[t].lifetime.Singleton? && Find(r.singletons, t).Some?) {
        RootGetAllWires(reg, rank, r, reg[t].deps, rank(t));
        var (r1, got) := RootGetAll(reg, rank, r, reg[t].deps, rank(t));
        if got.Ok? {
          BuildKeepsWired(reg, r1, t, reg[t].lifetime, None, got.value);
        }
      }
    }
  }

  lemma {:induction false} RootGetAllWires(
    reg: Registry, rank: Service -> nat, r: Root, deps: seq<Service>, bound: nat)
    requires Acyclic(reg, rank) && RootInv(r) && AllWired(reg, r.objects)
    requires forall d | d in deps :: rank(d) < bound
    ensures var (r', got) := RootGetAll(reg, rank, r, deps, bound);
            AllWired(reg, r'.objects) && (got.Ok? ==> Obtained(r'.objects, got.value, deps))
    decreases bound, 0, |deps|
  {
    if deps != [] {
      RootGetWires(reg, rank, r, deps[0]);
      RootGetKeeps(reg, rank, r, deps[0]);
      var (r1, first) := RootGet(reg, rank, r, deps[0]);
      if first.Ok? {
        RootGetAllWires(reg, rank, r1, deps[1..], bound);
        RootGetAllKeeps(reg, rank, r1, deps[1..], bound);
        var (r2, rest) := RootGetAll(reg, rank, r1, deps[1..], bound);
        if rest.Ok? {
          ObtainedFirst(r1.objects, r2.objects, first.value, rest.value, deps);
        }
      }
    }
  }

  lemma {:induction false} ScopeGetWires(reg: Registry, rank: Service -> nat, r: Root, s: Scope, t: Service)
    requires Acyclic(reg, rank) && RootInv(r) && ScopeInv(r, s) && AllWired(reg, r.objects)
    ensures AllWired(reg, ScopeGet(reg, rank, r, s, t).0.objects)
    decreases rank(t), 1, 0
  {
    if !s.closed && t in reg {
      if !reg[t].lifetime.Scoped? {
        RootGetWires(reg, rank, r, t);
      } else if Find(s.cache, t).None? {
        ScopeGetAllWires(reg, rank, r, s, reg[t].deps, rank(t));
        var (r1, s1, got) := ScopeGetAll(reg, rank, r, s, reg[t].deps, rank(t));
        if got.Ok? {
          BuildKeepsWired(reg, r1, t, Scoped, Some(s.id), got.value);
        }
      }
    }
  }

  lemma {:induction false} ScopeGetAllWires(
    reg: Registry, rank: Service -> nat, r: Root, s: Scope, deps: seq<Service>, bound: nat)
    requires Acyclic(reg, rank) && RootInv(r) && ScopeInv(r, s) && AllWired(reg, r.objects)
    requires forall d | d in deps :: rank(d) < bound
    ensures var (r', _, got) := ScopeGetAll(reg, rank, r, s, deps, bound);
            AllWired(reg, r'.objects) && (got.Ok? ==> Obtained(r'.objects, got.value, deps))
    decreases bound, 0, |deps|
  {
    if deps != [] {
      ScopeGetWires(reg, rank, r, s, deps[0]);
      ScopeGetKeeps(reg, rank, r, s, deps[0]);
      var (r1, s1, first) := ScopeGet(reg, rank, r, s, deps[0]);
      if first.Ok? {
        ScopeGetAllWires(reg, rank, r1, s1, deps[1..], bound);
        ScopeGetAllKeeps(reg, rank, r1, s1, deps[1..], bound);
        var (r2, _, rest) := ScopeGetAll(reg, rank, r1, s1, deps[1..], bound);
        if rest.Ok? {
          ObtainedFirst(r1.objects, r2.objects, first.value, rest.value, deps);
        }
      }
    }
  }

  lemma {:induction false} RunsWire(reg: Registry, rank: Service -> nat, y: System, cs: seq<Call>)
    requires Acyclic(reg, rank) && Inv(y) && AllWired(reg, y.root.objects) && Valid(reg, rank, y, cs)
    ensures AllWired(reg, Exec(reg, rank, y, cs).root.objects)
    decreases |cs|
  {
    if cs != [] {
      StepKeepsInv(reg, rank, y, cs[0]);
      match cs[0] {
        case AskRoot(t) => RootGetWires(reg, rank, y.root, t);
        case AskScope(id, t) =>
          assert ScopeOk(y.root, id, y.scopes[id]);
          ScopeGetWires(reg, rank, y.root, y.scopes[id], t);
        case _ =>
      }
      RunsWire(reg, rank, Step(reg, rank, y, cs[0]), cs[1..]);
    }
  }

  /** What object `i` holds for the `k`-th service its factory asks for. */
  ghost predicate HoldsAsked(reg: Registry, y: System, i: nat, k: nat)
    requires i < |y.root.objects| && y.root.objects[i].service in reg
    requires k < |reg[y.root.objects[i].service].deps|
  {
    var o := y.root.objects[i];
    && k < |o.deps| && o.deps[k] < i
    && var held := y.root.objects[o.deps[k]];
       && held.service == reg[o.service].deps[k] && held.service in reg
       && held.lifetime == reg[held.service].lifetime
       && (held.lifetime.Singleton? ==> Cached(held.service, o.deps[k]) in y.root.singletons)
       && (held.lifetime.Scoped? ==> held.owner == o.owner && o.owner.Some? && Listed(y, o.deps[k]))
  }

  /**
    After every run, each object holds, in order, one object of every service its factory asks for and
    nothing else: the one singleton, the object that the factory's own scope cached, or a transient.
   */
  lemma ObjectsHoldWhatTheyAsked(reg: Registry, rank: Service -> nat, cs: seq<Call>, i: nat)
    requires Acyclic(reg, rank) && Valid(reg, rank, EMPTY, cs)
    requires i < |Exec(reg, rank, EMPTY, cs).root.objects|
    ensures var y := Exec(reg, rank, EMPTY, cs);
            var o := y.root.objects[i];
            && o.service in reg && o.lifetime == reg[o.service].lifetime
            && |o.deps| == |reg[o.service].deps|
            && forall k | 0 <= k < |o.deps| :: HoldsAsked(reg, y, i, k)
  {
    RunsKeepInv(reg, rank, EMPTY, cs);
    RunsListSingletons(reg, rank, EMPTY, cs);
    RunsWire(reg, rank, EMPTY, cs);
    var y := Exec(reg, rank, EMPTY, cs);
    var o := y.root.objects[i];
    assert Wired(reg, y.root.objects, i) && ObjOk(y.root.objects, i);
    forall k | 0 <= k < |o.deps| ensures HoldsAsked(reg, y, i, k) {
      assert o.deps[k] in o.deps;
      WiredHolds(reg, y, i, k);
    }
  }

  lemma WiredHolds(reg: Registry, y: System, i: nat, k: nat)
    requires RootInv(y.root) && AllListed(y) && SingletonsListed(y.root) && AllWired(reg, y.root.objects)
    requires i < |y.root.objects| && k < |y.root.objects[i].deps| && y.root.objects[i].deps[k] < i
    requires Wired(reg, y.root.objects, i) && ObjOk(y.root.objects, i)
    ensures HoldsAsked(reg, y, i, k)
  {
    var d := y.root.objects[i].deps[k];
    assert d in y.root.objects[i].deps;
    assert Wired(reg, y.root.objects, d) && ObjOk(y.root.objects, d);
    if y.root.objects[d].lifetime.Scoped? {
      assert Listed(y, d);
    }
  }

  // ---------------------------------------------------------------- errors, transients, closed scopes

  /** An error names the service at fault: one not registered, or a scoped one asked of the root. */
  predicate RootErrorOk(reg: Registry, e: ResolveError) {
    match e
    case NotRegistered(t) => t !in reg
    case NeedsScope(t) => t in reg && reg[t].lifetime.Scoped?
    case ScopeClosed => false
  }

  lemma {:induction false} RootErrors(reg: Registry, rank: Service -> nat, r: Root, t: Service)
    requires Acyclic(reg, rank)
    ensures var got := RootGet(reg, rank, r, t).1;
            && (got.Err? ==> RootErrorOk(reg, got.error))
            && (t !in reg ==> got == Err(NotRegistered(t)))
            && (t in reg && reg[t].lifetime.Scoped? ==> got == Err(NeedsScope(t)))
    decreases rank(t), 1, 0
  {
    if t in reg && !reg[t].lifetime.Scoped? {
      if !(reg[t].lifetime.Singleton? && Find(r.singletons, t).Some?) {
        RootAllErrors(reg, rank, r, reg[t].deps, rank(t));
      }
    }
  }

  lemma {:induction false} RootAllErrors(
    reg: Registry, rank: Service -> nat, r: Root, deps: seq<Service>, bound: nat)
    requires Acyclic(reg, rank) && forall d | d in deps :: rank(d) < bound
    ensures var got := RootGetAll(reg, rank, r, deps, bound).1;
            got.Err? ==> RootErrorOk(reg, got.error)
    decreases bound, 0, |deps|
  {
    if deps != [] {
      RootErrors(reg, rank, r, deps[0]);
      var (r1, first) := RootGet(reg, rank, r, deps[0]);
      if first.Ok? {
        RootAllErrors(reg, rank, r1, deps[1..], bound);
      }
    }
  }

  lemma {:induction false} ScopeErrors(reg: Registry, rank: Service -> nat, r: Root, s: Scope, t: Service)
    requires Acyclic(reg, rank)
    ensures var got := ScopeGet(reg, rank, r, s, t).2;
            && (got == Err(ScopeClosed) <==> s.closed)
            && (got.Err? && !s.closed ==> RootErrorOk(reg, got.error))
            && (!s.closed && t !in reg ==> got == Err(NotRegistered(t)))
    decreases rank(t), 1, 0
  {
    if !s.closed && t in reg {
      if !reg[t].lifetime.Scoped? {
        RootErrors(reg, rank, r, t);
      } else if Find(s.cache, t).None? {
        ScopeAllErrors(reg, rank, r, s, reg[t].deps, rank(t));
      }
    }
  }

  lemma {:induction false} ScopeAllErrors(
    reg: Registry, rank: Service -> nat, r: Root, s: Scope, deps: seq<Service>, bound: nat)
    requires Acyclic(reg, rank) && !s.closed && forall d | d in deps :: rank(d) < bound
    ensures var (_, s', got) := ScopeGetAll(reg, rank, r, s, deps, bound);
            !s'.closed && (got.Err? ==> RootErrorOk(reg, got.error))
    decreases bound, 0, |deps|
  {
    if deps != [] {
      ScopeErrors(reg, rank, r, s, deps[0]);
      ScopeStaysOpen(reg, rank, r, s, deps[0]);
      var (r1, s1, first) := ScopeGet(reg, rank, r, s, deps[0]);
      if first.Ok? {
        ScopeAllErrors(reg, rank, r1, s1, deps[1..], bound);
      }
    }
  }

  lemma {:induction false} ScopeStaysOpen(reg: Registry, rank: Service -> nat, r: Root, s: Scope, t: Service)
    requires Acyclic(reg, rank)
    ensures ScopeGet(reg, rank, r, s, t).1.closed == s.closed
    decreases rank(t), 1, 0
  {
    if !s.closed && t in reg && reg[t].lifetime.Scoped? && Find(s.cache, t).None? {
      ScopeAllStaysOpen(reg, rank, r, s, reg[t].deps, rank(t));
    }
  }

  lemma {:induction false} ScopeAllStaysOpen(
    reg: Registry, rank: Service -> nat, r: Root, s: Scope, deps: seq<Service>, bound: nat)
    requires Acyclic(reg, rank) && forall d | d in deps :: rank(d) < bound
    ensures ScopeGetAll(reg, rank, r, s, deps, bound).1.closed == s.closed
    decreases bound, 0, |deps|
  {
    if deps != [] {
      ScopeStaysOpen(reg, rank, r, s, deps[0]);
      var (r1, s1, first) := ScopeGet(reg, rank, r, s, deps[0]);
      if first.Ok? {
        ScopeAllStaysOpen(reg, rank, r1, s1, deps[1..], bound);
      }
    }
  }

  /** Each request for a transient service builds an object that was not there before. */
  lemma TransientsAreNew(reg: Registry, rank: Service -> nat, r: Root, t: Service)
    requires Acyclic(reg, rank) && RootInv(r) && t in reg && reg[t].lifetime.Transient?
    ensures var (r', got) := RootGet(reg, rank, r, t);
            got.Ok? ==> got.value == |r'.objects| - 1 >= |r.objects|
  {
    RootGetAllKeeps(reg, rank, r, reg[t].deps, rank(t));
  }

  /** A closed scope serves and disposes nothing more, whatever is called later. */
  lemma {:induction false} ClosedForGood(reg: Registry, rank: Service -> nat, y: System, cs: seq<Call>, id: nat)
    requires Acyclic(reg, rank) && Valid(reg, rank, y, cs) && id in y.scopes && y.scopes[id].closed
    ensures var y' := Exec(reg, rank, y, cs);
            && id in y'.scopes && y'.scopes[id] == y.scopes[id]
            && forall t :: ScopeGet(reg, rank, y'.root, y'.scopes[id], t).2 == Err(ScopeClosed)
    decreases |cs|
  {
    if cs != [] {
      ClosedForGood(reg, rank, Step(reg, rank, y, cs[0]), cs[1..], id);
    }
  }

  /** Closing closes, whether or not a disposal raises; the cache is cleared only if none does. */
  lemma ClosingCloses(reg: Registry, rank: Service -> nat, y: System, id: nat, faulty: set<nat>)
    requires Acyclic(reg, rank) && id in y.scopes
    ensures var s := y.scopes[id];
            var s' := Step(reg, rank, y, CloseScope(id, faulty)).scopes[id];
            && s'.closed && s.disposed <= s'.disposed
            && (!s.closed ==> (s'.cache == s.cache <==> s.cache == [] || exists c | c in s.cache :: c.obj in faulty))
  {
    var s := y.scopes[id];
    assert Raises(s.cache, faulty) <==> exists c | c in s.cache :: c.obj in faulty;
  }

  ghost predicate SingletonsListed(r: Root) {
    forall i | 0 <= i < |r.objects| && r.objects[i].lifetime.Singleton? ::
      Cached(r.objects[i].service, i) in r.singletons
  }

  lemma {:induction false} RootGetLists(reg: Registry, rank: Service -> nat, r: Root, t: Service)
    requires Acyclic(reg, rank) && SingletonsListed(r)
    ensures SingletonsListed(RootGet(reg, rank, r, t).0)
    decreases rank(t), 1, 0
  {
    if t in reg && !reg[t].lifetime.Scoped? {
      if !(reg[t].lifetime.Singleton? && Find(r.singletons, t).Some?) {
        RootGetAllLists(reg, rank, r, reg[t].deps, rank(t));
      }
    }
  }

  lemma {:induction false} RootGetAllLists(
    reg: Registry, rank: Service -> nat, r: Root, deps: seq<Service>, bound: nat)
    requires Acyclic(reg, rank) && SingletonsListed(r) && forall d | d in deps :: rank(d) < bound
    ensures SingletonsListed(RootGetAll(reg, rank, r, deps, bound).0)
    decreases bound, 0, |deps|
  {
    if deps != [] {
      RootGetLists(reg, rank, r, deps[0]);
      var (r1, first) := RootGet(reg, rank, r, deps[0]);
      if first.Ok? {
        RootGetAllLists(reg, rank, r1, deps[1..], bound);
      }
    }
  }

  lemma {:induction false} ScopeGetLists(reg: Registry, rank: Service -> nat, r: Root, s: Scope, t: Service)
    requires Acyclic(reg, rank) && SingletonsListed(r)
    ensures SingletonsListed(ScopeGet(reg, rank, r, s, t).0)
    decreases rank(t), 1, 0
  {
    if !s.closed && t in reg {
      if !reg[t].lifetime.Scoped? {
        RootGetLists(reg, rank, r, t);
      } else if Find(s.cache, t).None? {
        ScopeGetAllLists(reg, rank, r, s, reg[t].deps, rank(t));
      }
    }
  }

  lemma {:induction false} ScopeGetAllLists(
    reg: Registry, rank: Service -> nat, r: Root, s: Scope, deps: seq<Service>, bound: nat)
    requires Acyclic(reg, rank) && SingletonsListed(r) && forall d | d in deps :: rank(d) < bound
    ensures SingletonsListed(ScopeGetAll(reg, rank, r, s, deps, bound).0)
    decreases bound, 0, |deps|
  {
    if deps != [] {
      ScopeGetLists(reg, rank, r, s, deps[0]);
      var (r1, s1, first) := ScopeGet(reg, rank, r, s, deps[0]);
      if first.Ok? {
        ScopeGetAllLists(reg, rank, r1, s1, deps[1..], bound);
      }
    }
  }

  lemma {:induction false} RunsListSingletons(reg: Registry, rank: Service -> nat, y: System, cs: seq<Call>)
    requires Acyclic(reg, rank) && SingletonsListed(y.root) && Valid(reg, rank, y, cs)
    ensures SingletonsListed(Exec(reg, rank, y, cs).root)
    decreases |cs|
  {
    if cs != [] {
      match cs[0] {
        case AskRoot(t) => RootGetLists(reg, rank, y.root, t);
        case AskScope(id, t) => ScopeGetLists(reg, rank, y.root, y.scopes[id], t);
        case _ =>
      }
      RunsListSingletons(reg, rank, Step(reg, rank, y, cs[0]), cs[1..]);
    }
  }

  /** No run builds two objects of one singleton, however many scopes ask for it. */
  lemma OncePerContainer(reg: Registry, rank: Service -> nat, cs: seq<Call>, i: nat, j: nat)
    requires Acyclic(reg, rank) && Valid(reg, rank, EMPTY, cs)
    requires var objects := Exec(reg, rank, EMPTY, cs).root.objects;
             i < j < |objects| && objects[i].lifetime.Singleton? && objects[j].lifetime.Singleton?
    ensures var objects := Exec(reg, rank, EMPTY, cs).root.objects;
            objects[i].service != objects[j].service
  {
    RunsKeepInv(reg, rank, EMPTY, cs);
    RunsListSingletons(reg, rank, EMPTY, cs);
    SingletonsToldApart(Exec(reg, rank, EMPTY, cs).root, i, j);
  }

  lemma SingletonsToldApart(r: Root, i: nat, j: nat)
    requires RootInv(r) && SingletonsListed(r) && i < j < |r.objects|
    requires r.objects[i].lifetime.Singleton? && r.objects[j].lifetime.Singleton?
    ensures r.objects[i].service != r.objects[j].service
  {
    var cache := r.singletons;
    var k :| 0 <= k < |cache| && cache[k] == Cached(r.objects[i].service, i);
    var l :| 0 <= l < |cache| && cache[l] == Cached(r.objects[j].service, j);
  }

  /** The scope disposed only objects of its own, each at most once, a dependent before its own. */
  ghost predicate DisposesInOrder(objects: seq<Obj>, id: nat, disposed: seq<nat>) {
    && (forall k | 0 <= k < |disposed| :: disposed[k] < |objects| && objects[disposed[k]].owner == Some(id))
    && (forall k, l | 0 <= k < l < |disposed| :: disposed[k] != disposed[l])
    && (forall k, l | 0 <= k < |disposed| && 0 <= l < |disposed| && disposed[k] < |objects| &&
                      disposed[l] in objects[disposed[k]].deps :: k < l)
  }

  ghost predicate DisposesAll(objects: seq<Obj>, id: nat, disposed: seq<nat>) {
    forall i | 0 <= i < |objects| && objects[i].owner == Some(id) :: i in disposed
  }

  lemma InvOrdersDisposal(r: Root, id: nat, s: Scope)
    requires RootInv(r) && s.id == id && DisposalOk(r, s)
    ensures DisposesInOrder(r.objects, id, s.disposed)
  {
    var disposed := s.disposed;
    assert forall k | 0 <= k < |disposed| :: disposed[k] in disposed;
    forall k, l | 0 <= k < |disposed| && 0 <= l < |disposed| && disposed[k] < |r.objects| &&
                  disposed[l] in r.objects[disposed[k]].deps
      ensures k < l
    {
      assert ObjOk(r.objects, disposed[k]);
      assert disposed[l] < disposed[k];
    }
  }

  lemma CloseDisposesAll(y: System, id: nat, faulty: set<nat>)
    requires AllListed(y) && id in y.scopes && ScopeOk(y.root, id, y.scopes[id])
    requires !y.scopes[id].closed && !Raises(y.scopes[id].cache, faulty)
    ensures DisposesAll(y.root.objects, id, Close(y.scopes[id], faulty).disposed)
  {
    var s := y.scopes[id];
    DisposalsAreReversed(y.root.objects, s.cache, id, faulty);
    forall i | 0 <= i < |y.root.objects| && y.root.objects[i].owner == Some(id)
      ensures i in Close(s, faulty).disposed
    {
      assert Listed(y, i);
      var k :| 0 <= k < |s.cache| && s.cache[k] == Cached(y.root.objects[i].service, i);
      assert s.cache[k].obj in Disposals(s.cache, faulty);
    }
  }

  /**
    A scope disposes only objects of its own, each at most once, and a dependent before anything it
    holds. If no disposal raises, closing an open scope disposes every object of the scope.
   */
  lemma DisposalOrder(reg: Registry, rank: Service -> nat, cs: seq<Call>, id: nat)
    requires Acyclic(reg, rank) && Valid(reg, rank, EMPTY, cs)
    requires id in Exec(reg, rank, EMPTY, cs).scopes
    ensures var y := Exec(reg, rank, EMPTY, cs);
            DisposesInOrder(y.root.objects, id, y.scopes[id].disposed)
    ensures var y := Exec(reg, rank, EMPTY, cs);
            forall faulty | !y.scopes[id].closed && !Raises(y.scopes[id].cache, faulty) ::
              DisposesAll(y.root.objects, id, Close(y.scopes[id], faulty).disposed)
  {
    RunsKeepInv(reg, rank, EMPTY, cs);
    var y := Exec(reg, rank, EMPTY, cs);
    assert ScopeOk(y.root, id, y.scopes[id]);
    InvOrdersDisposal(y.root, id, y.scopes[id]);
    forall faulty | !y.scopes[id].closed && !Raises(y.scopes[id].cache, faulty)
      ensures DisposesAll(y.root.objects, id, Close(y.scopes[id], faulty).disposed)
    {
      CloseDisposesAll(y, id, faulty);
    }
  }

  lemma {:induction false} FindAppended(cache: seq<Cached>, t: Service, id: nat)
    requires forall k | 0 <= k < |cache| :: cache[k].service != t
    ensures Find(cache + [Cached(t, id)], t) == Some(id)
  {
    if cache != [] {
      assert (cache + [Cached(t, id)])[1..] == cache[1..] + [Cached(t, id)];
      FindAppended(cache[1..], t, id);
    }
  }

  /** Asking the root again for a singleton gives the same object and builds nothing. */
  lemma AskingRootTwice(reg: Registry, rank: Service -> nat, r: Root, t: Service)
    requires Acyclic(reg, rank) && RootInv(r) && t in reg && reg[t].lifetime.Singleton?
    ensures var (r', got) := RootGet(reg, rank, r, t);
            got.Ok? ==> RootGet(reg, rank, r', t) == (r', got)
  {
    FindIs(r.singletons, t);
    if Find(r.singletons, t).None? {
      RootGetAllKeeps(reg, rank, r, reg[t].deps, rank(t));
      var (r1, got) := RootGetAll(reg, rank, r, reg[t].deps, rank(t));
      FindAppended(r1.singletons, t, |r1.objects|);
    }
  }

  /** So does asking an open scope again for a scoped service or a singleton. */
  lemma AskingTwiceIsAskingOnce(reg: Registry, rank: Service -> nat, y: System, id: nat, t: Service)
    requires Acyclic(reg, rank) && Inv(y) && id in y.scopes && t in reg && !reg[t].lifetime.Transient?
    ensures var (r, s, got) := ScopeGet(reg, rank, y.root, y.scopes[id], t);
            got.Ok? ==> ScopeGet(reg, rank, r, s, t) == (r, s, got)
  {
    var s := y.scopes[id];
    if reg[t].lifetime.Singleton? {
      AskingRootTwice(reg, rank, y.root, t);
    } else if !s.closed {
      FindIs(s.cache, t);
      if Find(s.cache, t).None? {
        ScopeGetAllKeeps(reg, rank, y.root, s, reg[t].deps, rank(t));
        var (r1, s1, got) := ScopeGetAll(reg, rank, y.root, s, reg[t].deps, rank(t));
        FindAppended(s1.cache, t, |r1.objects|);
      }
    }
  }

  // ---------------------------------------------------------------- when resolution succeeds

  /** Everything the root's factories would ask for is registered, and none of it is scoped. */
  ghost predicate RootResolvable(reg: Registry, rank: Service -> nat, t: Service)
    requires Acyclic(reg, rank)
    decreases rank(t)
  {
    t in reg && !reg[t].lifetime.Scoped? && forall d | d in reg[t].deps :: RootResolvable(reg, rank, d)
  }

  /** From a scope, scoped services may ask for scoped services; all others are the root's affair. */
  ghost predicate ScopeResolvable(reg: Registry, rank: Service -> nat, t: Service)
    requires Acyclic(reg, rank)
    decreases rank(t)
  {
    t in reg &&
    if reg[t].lifetime.Scoped? then forall d | d in reg[t].deps :: ScopeResolvable(reg, rank, d)
    else RootResolvable(reg, rank, t)
  }

  ghost predicate RootCacheSound(reg: Registry, rank: Service -> nat, cache: seq<Cached>)
    requires Acyclic(reg, rank)
  {
    forall k | 0 <= k < |cache| :: RootResolvable(reg, rank, cache[k].service)
  }

  ghost predicate ScopeCacheSound(reg: Registry, rank: Service -> nat, cache: seq<Cached>)
    requires Acyclic(reg, rank)
  {
    forall k | 0 <= k < |cache| :: ScopeResolvable(reg, rank, cache[k].service)
  }

  lemma {:induction false} RootGetIff(reg: Registry, rank: Service -> nat, r: Root, t: Service)
    requires Acyclic(reg, rank) && RootCacheSound(reg, rank, r.singletons)
    ensures RootGet(reg, rank, r, t).1.Ok? <==> RootResolvable(reg, rank, t)
    ensures RootCacheSound(reg, rank, RootGet(reg, rank, r, t).0.singletons)
    decreases rank(t), 1, 0
  {
    if t in reg && !reg[t].lifetime.Scoped? {
      FindIs(r.singletons, t);
      if !(reg[t].lifetime.Singleton? && Find(r.singletons, t).Some?) {
        RootGetAllIff(reg, rank, r, reg[t].deps, rank(t));
      }
    }
  }

  lemma {:induction false} RootGetAllIff(
    reg: Registry, rank: Service -> nat, r: Root, deps: seq<Service>, bound: nat)
    requires Acyclic(reg, rank) && RootCacheSound(reg, rank, r.singletons)
    requires forall d | d in deps :: rank(d) < bound
    ensures RootGetAll(reg, rank, r, deps, bound).1.Ok? <==>
            forall d | d in deps :: RootResolvable(reg, rank, d)
    ensures RootCacheSound(reg, rank, RootGetAll(reg, rank, r, deps, bound).0.singletons)
    decreases bound, 0, |deps|
  {
    if deps != [] {
      RootGetIff(reg, rank, r, deps[0]);
      var (r1, first) := RootGet(reg, rank, r, deps[0]);
      if first.Ok? {
        RootGetAllIff(reg, rank, r1, deps[1..], bound);
      }
      assert deps == [deps[0]] + deps[1..];
    }
  }

  lemma {:induction false} ScopeGetIff(
    reg: Registry, rank: Service -> nat, r: Root, s: Scope, t: Service)
    requires Acyclic(reg, rank) && !s.closed
    requires RootCacheSound(reg, rank, r.singletons) && ScopeCacheSound(reg, rank, s.cache)
    ensures var (r', s', got) := ScopeGet(reg, rank, r, s, t);
            && (got.Ok? <==> ScopeResolvable(reg, rank, t)) && !s'.closed
            && RootCacheSound(reg, rank, r'.singletons) && ScopeCacheSound(reg, rank, s'.cache)
    decreases rank(t), 1, 0
  {
    if t in reg {
      if !reg[t].lifetime.Scoped? {
        RootGetIff(reg, rank, r, t);
      } else {
        FindIs(s.cache, t);
        if Find(s.cache, t).None? {
          ScopeGetAllIff(reg, rank, r, s, reg[t].deps, rank(t));
        }
      }
    }
  }

  lemma {:induction false} ScopeGetAllIff(
    reg: Registry, rank: Service -> nat, r: Root, s: Scope, deps: seq<Service>, bound: nat)
    requires Acyclic(reg, rank) && !s.closed
    requires RootCacheSound(reg, rank, r.singletons) && ScopeCacheSound(reg, rank, s.cache)
    requires forall d | d in deps :: rank(d) < bound
    ensures var (r', s', got) := ScopeGetAll(reg, rank, r, s, deps, bound);
            && (got.Ok? <==> forall d | d in deps :: ScopeResolvable(reg, rank, d)) && !s'.closed
            && RootCacheSound(reg, rank, r'.singletons) && ScopeCacheSound(reg, rank, s'.cache)
    decreases bound, 0, |deps|
  {
    if deps != [] {
      ScopeGetIff(reg, rank, r, s, deps[0]);
      var (r1, s1, first) := ScopeGet(reg, rank, r, s, deps[0]);
      if first.Ok? {
        ScopeGetAllIff(reg, rank, r1, s1, deps[1..], bound);
      }
      assert deps == [deps[0]] + deps[1..];
    }
  }

  ghost predicate CachesSound(reg: Registry, rank: Service -> nat, y: System)
    requires Acyclic(reg, rank)
  {
    RootCacheSound(reg, rank, y.root.singletons) &&
    forall id | id in y.scopes :: ScopeCacheSound(reg, rank, y.scopes[id].cache)
  }

  lemma {:induction false} RunsKeepCachesSound(reg: Registry, rank: Service -> nat, y: System, cs: seq<Call>)
    requires Acyclic(reg, rank) && CachesSound(reg, rank, y) && Valid(reg, rank, y, cs)
    ensures CachesSound(reg, rank, Exec(reg, rank, y, cs))
    decreases |cs|
  {
    if cs != [] {
      match cs[0] {
        case AskRoot(t) => RootGetIff(reg, rank, y.root, t);
        case AskScope(id, t) =>
          if !y.scopes[id].closed {
            ScopeGetIff(reg, rank, y.root, y.scopes[id], t);
          }
        case _ =>
      }
      RunsKeepCachesSound(reg, rank, Step(reg, rank, y, cs[0]), cs[1..]);
    }
  }

  /**
    At any point of any run, resolution succeeds exactly when the registrations allow it, whatever
    the caches hold: from the root no scoped service may be reachable, and from an open scope none
    behind a singleton or transient one.
   */
  lemma ResolutionIff(reg: Registry, rank: Service -> nat, cs: seq<Call>, t: Service)
    requires Acyclic(reg, rank) && Valid(reg, rank, EMPTY, cs)
    ensures var y := Exec(reg, rank, EMPTY, cs);
            && (RootGet(reg, rank, y.root, t).1.Ok? <==> RootResolvable(reg, rank, t))
            && forall id | id in y.scopes ::
                 ScopeGet(reg, rank, y.root, y.scopes[id], t).2.Ok? <==>
                 !y.scopes[id].closed && ScopeResolvable(reg, rank, t)
  {
    RunsKeepCachesSound(reg, rank, EMPTY, cs);
    var y := Exec(reg, rank, EMPTY, cs);
    RootGetIff(reg, rank, y.root, t);
    forall id | id in y.scopes
      ensures ScopeGet(reg, rank, y.root, y.scopes[id], t).2.Ok? <==>
              !y.scopes[id].closed && ScopeResolvable(reg, rank, t)
    {
      if !y.scopes[id].closed {
        ScopeGetIff(reg, rank, y.root, y.scopes[id], t);
      }
    }
  }
}
