/** The module loader: a depth-first walk that parses each file once, drops the imports that
    close a cycle, and then lists the units with dependencies first. */
module ModuleLoader {
  import opened Wrappers
  import opened ImportGraph

  /** `visited` and `units` are inverse to each other. */
  ghost predicate Indexed(units: seq<Key>, visited: map<Key, nat>) {
    && (forall k | k in visited :: visited[k] < |units| && units[visited[k]] == k)
    && (forall i | 0 <= i < |units| :: units[i] in visited && visited[units[i]] == i)
  }

  /** Everything visited is readable and reachable. */
  ghost predicate Found(w: World, entry: Key, visited: map<Key, nat>) {
    forall k | k in visited :: Readable(w, k) && Reaches(w, entry, k)
  }

  /** `order` lists what is visited and no longer on the stack, once each. */
  ghost predicate Finished(visited: map<Key, nat>, onStack: set<Key>, order: seq<Key>) {
    && onStack <= visited.Keys
    && (forall k :: k in order <==> k in visited && k !in onStack)
    && forall i, j | 0 <= i < j < |order| :: order[i] != order[j]
  }

  /** What a finished file imports was visited, and is recorded unless it closed a cycle. */
  ghost predicate Explored(w: World, visited: map<Key, nat>, deps: seq<seq<nat>>, order: seq<Key>, cycles: nat)
    requires forall k | k in order :: k in visited && visited[k] < |deps|
  {
    forall k, t | k in order && Edge(w, k, t) && Readable(w, t) ::
      t in visited && (cycles == 0 ==> visited[t] in deps[visited[k]])
  }

  /** Recorded dependencies are imports, and were finished before their importer. */
  ghost predicate Recorded(w: World, units: seq<Key>, deps: seq<seq<nat>>, order: seq<Key>) {
    && |deps| == |units|
    && (forall i, d | 0 <= i < |deps| && d in deps[i] :: IsDep(w, units, order, i, d))
    && (forall p, i, d | 0 <= p < |order| && 0 <= i < |deps| && units[i] == order[p] && d in deps[i] ::
          d < |units| && units[d] in order[..p])
  }

  ghost predicate IsDep(w: World, units: seq<Key>, order: seq<Key>, i: nat, d: nat)
    requires i < |units|
  {
    d < |units| && Edge(w, units[i], units[d]) && units[d] in order
  }

  /** Errors mean a cycle, and no error so far means none among the finished files. */
  ghost predicate Judged(w: World, entry: Key, order: seq<Key>, cycles: nat) {
    && (cycles > 0 ==> HasCycle(w, entry))
    && (cycles == 0 ==> ImportsFirst(w, order))
  }

  lemma NewUnit(w: World, units: seq<Key>, deps: seq<seq<nat>>, order: seq<Key>, key: Key)
    requires Recorded(w, units, deps, order)
    ensures Recorded(w, units + [key], deps + [[]], order)
  {
    forall i, d | 0 <= i < |deps| + 1 && d in (deps + [[]])[i]
      ensures IsDep(w, units + [key], order, i, d)
    {
      assert IsDep(w, units, order, i, d);
    }
  }

  lemma LeaveRecorded(w: World, units: seq<Key>, deps: seq<seq<nat>>, order: seq<Key>, key: Key)
    requires Recorded(w, units, deps, order)
    ensures Recorded(w, units, deps, order + [key])
  {
    forall i, d | 0 <= i < |deps| && d in deps[i]
      ensures IsDep(w, units, order + [key], i, d) && units[d] in order
    {
      assert IsDep(w, units, order, i, d);
    }
    forall p | 0 <= p <= |order|
      ensures (order + [key])[..p] == order[..p]
    {
    }
  }

  lemma LeaveFirst(w: World, order: seq<Key>, key: Key)
    requires ImportsFirst(w, order) && key !in order
    requires forall t | Edge(w, key, t) && Readable(w, t) :: t in order
    ensures ImportsFirst(w, order + [key])
  {
    forall p | 0 <= p <= |order|
      ensures (order + [key])[..p] == order[..p]
    {
    }
  }

  class Loader {
    const world: World
    ghost const entry: Key
    var units: seq<Key>            // one per parsed file
    var deps: seq<seq<nat>>        // direct imports of each unit, as indices into `units`
    var visited: map<Key, nat>
    var onStack: set<Key>
    var cyclicErrors: nat
    var missingErrors: nat
    ghost var order: seq<Key>      // the files, in the order in which they were finished

    ghost predicate Valid()
      reads this
    {
      && Indexed(units, visited) && Found(world, entry, visited) && Finished(visited, onStack, order)
      && Recorded(world, units, deps, order)
      && Explored(world, visited, deps, order, cyclicErrors)
      && Judged(world, entry, order, cyclicErrors)
    }

    constructor (world: World, entry: Key)
      ensures Valid() && this.world == world && this.entry == entry && onStack == {} && visited == map[]
    {
      this.world, this.entry := world, entry;
      units, deps, visited, onStack, cyclicErrors, missingErrors := [], [], map[], {}, 0, 0;
      order := [];
    }

    /** Load one file and, through its imports, everything below it.  The caller has made sure
        that the file is not being loaded already. */
    method Load(key: Key) returns (idx: int)
      requires Valid() && key !in onStack
      requires Reaches(world, entry, key) && forall s | s in onStack :: Reaches(world, s, key)
      modifies this
      ensures Valid() && onStack == old(onStack) && old(order) <= order
      ensures old(units) <= units && old(cyclicErrors) <= cyclicErrors
      ensures forall i | 0 <= i < |old(units)| :: deps[i] == old(deps)[i]
      ensures if Readable(world, key) then key in visited && idx == visited[key] && key in order else idx == -1
      decreases world.Keys - visited.Keys, 1
    {
      if key in visited { return visited[key]; }
      if key !in world || world[key].None? { return -1; }
      var i := |units|;
      Enter(key);
      LoadImports(key);
      Leave(key);
      idx := i;
    }

    /** Parse the file: a new unit, visited and on the stack. */
    method Enter(key: Key)
      requires Valid() && Readable(world, key) && key !in visited && Reaches(world, entry, key)
      modifies this
      ensures Valid() && onStack == old(onStack) + {key} && order == old(order)
      ensures units == old(units) + [key] && deps == old(deps) + [[]] && visited == old(visited)[key := |old(units)|]
      ensures cyclicErrors == old(cyclicErrors)
    {
      NewUnit(world, units, deps, order, key);
      visited := visited[key := |units|];
      units := units + [key];
      deps := deps + [[]];
      onStack := onStack + {key};
    }

    /** Follow the imports of the file on top of the stack. */
    method LoadImports(key: Key)
      requires Valid() && key in onStack && deps[visited[key]] == []
      requires forall s | s in onStack :: Reaches(world, s, key)
      modifies this
      ensures Valid() && onStack == old(onStack) && old(order) <= order
      ensures old(units) <= units && old(cyclicErrors) <= cyclicErrors
      ensures forall i | 0 <= i < |old(units)| && i != visited[key] :: deps[i] == old(deps)[i]
      ensures Followed(key, |world[key].value|)
      decreases world.Keys - visited.Keys, 4
    {
      var imports := world[key].value;
      for i := 0 to |imports|
        invariant Valid() && onStack == old(onStack) && old(order) <= order
        invariant old(units) <= units && old(cyclicErrors) <= cyclicErrors
        invariant forall j | 0 <= j < |old(units)| && j != visited[key] :: deps[j] == old(deps)[j]
        invariant Followed(key, i)
      {
        assert world.Keys - visited.Keys <= old(world.Keys - visited.Keys);
        LoadImport(key, i);
      }
    }

    method LoadImport(key: Key, i: nat)
      requires Valid() && key in onStack
      requires forall s | s in onStack :: Reaches(world, s, key)
      requires i < |world[key].value| && Followed(key, i)
      modifies this
      ensures Valid() && onStack == old(onStack) && old(order) <= order
      ensures old(units) <= units && old(cyclicErrors) <= cyclicErrors
      ensures forall j | 0 <= j < |old(units)| && j != visited[key] :: deps[j] == old(deps)[j]
      ensures Followed(key, i + 1)
      decreases world.Keys - visited.Keys, 3
    {
      match world[key].value[i]
      case Header =>
      case Missing => missingErrors := missingErrors + 1;
      case Of(target) => FollowImport(key, i, target);
    }

    /** The first `n` imports of `key` have been dealt with. */
    ghost predicate Followed(key: Key, n: nat)
      requires Readable(world, key) && n <= |world[key].value|
      reads this
    {
      && key in visited && visited[key] < |deps|
      && forall t | Of(t) in world[key].value[..n] && Readable(world, t) ::
        t in visited && (cyclicErrors == 0 ==> t in order && visited[t] in deps[visited[key]])
    }

    method FollowImport(key: Key, i: nat, target: Key)
      requires Valid() && key in onStack
      requires forall s | s in onStack :: Reaches(world, s, key)
      requires i < |world[key].value| && world[key].value[i] == Of(target) && Followed(key, i)
      modifies this
      ensures Valid() && onStack == old(onStack) && old(order) <= order
      ensures old(units) <= units && old(cyclicErrors) <= cyclicErrors
      ensures forall j | 0 <= j < |old(units)| && j != visited[key] :: deps[j] == old(deps)[j]
      ensures Followed(key, i + 1)
      decreases world.Keys - visited.Keys, 2
    {
      assert Edge(world, key, target);
      if target in onStack {
        CloseCycle(key, target);
        return;
      }
      ReachesOn(world, entry, key, target);
      forall s | s in onStack
        ensures Reaches(world, s, target)
      {
        ReachesOn(world, s, key, target);
      }
      var d := Load(target);
      assert Followed(key, i);
      if d >= 0 {
        AddDep(key, d);
        assert Followed(key, i);
      }
      assert world[key].value[..i + 1] == world[key].value[..i] + [Of(target)];
    }

    /** The target is on the stack: the import closes a cycle, and is dropped. */
    method CloseCycle(key: Key, target: Key)
      requires Valid() && key in onStack && target in onStack
      requires Edge(world, key, target) && Reaches(world, target, key)
      modifies `cyclicErrors
      ensures Valid() && cyclicErrors == old(cyclicErrors) + 1
    {
      assert Cyclic(world, key);
      cyclicErrors := cyclicErrors + 1;
    }

    method AddDep(key: Key, d: nat)
      requires Valid() && key in onStack && d < |units| && Edge(world, key, units[d]) && units[d] in order
      modifies `deps
      ensures Valid() && deps == old(deps)[visited[key] := old(deps)[visited[key]] + [d]]
    {
      deps := deps[visited[key] := deps[visited[key]] + [d]];
    }

    method Leave(key: Key)
      requires Valid() && key in onStack && Readable(world, key) && Followed(key, |world[key].value|)
      modifies `onStack, `order
      ensures Valid() && onStack == old(onStack) - {key} && order == old(order) + [key]
    {
      LeaveRecorded(world, units, deps, order, key);
      if cyclicErrors == 0 { LeaveFirst(world, order, key); }
      onStack := onStack - {key};
      order := order + [key];
    }
  }

  // ------------------------------------------------------- the whole graph

  /** What the tables say once the stack is empty again. */
  ghost predicate Loaded(w: World, entry: Key, units: seq<Key>, deps: seq<seq<nat>>, visited: map<Key, nat>, order: seq<Key>, cycles: nat) {
    && Indexed(units, visited) && Found(w, entry, visited) && Finished(visited, {}, order)
    && Recorded(w, units, deps, order) && Explored(w, visited, deps, order, cycles)
    && Judged(w, entry, order, cycles)
    && (Readable(w, entry) ==> entry in visited)
  }

  /** A cyclic import is reported exactly when a reachable file imports its way back to itself. */
  lemma CycleReportedIff(w: World, entry: Key, units: seq<Key>, deps: seq<seq<nat>>, visited: map<Key, nat>, order: seq<Key>, cycles: nat)
    requires Loaded(w, entry, units, deps, visited, order, cycles)
    ensures cycles > 0 <==> HasCycle(w, entry)
  {
    if HasCycle(w, entry) && cycles == 0 {
      var k :| Reaches(w, entry, k) && Cyclic(w, k);
      var t :| Edge(w, k, t) && Reaches(w, t, k);
      EachFileOnce(w, entry, units, deps, visited, order, cycles, k);
      NoCycle(w, order, k);
    }
  }

  /** The units are the readable files that the entry reaches, once each. */
  lemma EachFileOnce(w: World, entry: Key, units: seq<Key>, deps: seq<seq<nat>>, visited: map<Key, nat>, order: seq<Key>, cycles: nat, k: Key)
    requires Loaded(w, entry, units, deps, visited, order, cycles)
    ensures k in units <==> Readable(w, k) && Reaches(w, entry, k)
    ensures forall i, j | 0 <= i < j < |units| :: units[i] != units[j]
  {
    if Readable(w, k) && Reaches(w, entry, k) {
      var p :| IsPath(w, p) && p[0] == entry && p[|p| - 1] == k;
      if |p| > 1 { assert Edge(w, p[0], p[1]); }
      PathStays(w, visited.Keys, p);
      assert units[visited[k]] == k;
    }
  }

  /** The recorded dependencies never form a loop, even where cycles were reported. */
  lemma DepsAcyclic(w: World, entry: Key, units: seq<Key>, deps: seq<seq<nat>>, visited: map<Key, nat>, order: seq<Key>, cycles: nat)
    requires Loaded(w, entry, units, deps, visited, order, cycles)
    ensures Acyclic(deps)
  {
    var rank := seq(|deps|, i requires 0 <= i < |deps| => PlaceOf(order, units[i]));
    forall i, d | 0 <= i < |deps| && d in deps[i]
      ensures d < |deps| && rank[d] < rank[i]
    {
      assert IsDep(w, units, order, i, d) && units[i] in visited;
      var p := PlaceOf(order, units[i]);
      assert order[p] == units[i] && units[d] in order[..p];
      var q :| 0 <= q < p && order[q] == units[d];
      assert PlaceOf(order, units[d]) <= q;
    }
    assert Ranked(deps, rank);
  }

  /** The first place of `k`, or the length. */
  function PlaceOf(order: seq<Key>, k: Key): (p: nat)
    ensures p <= |order| && (k in order ==> p < |order| && order[p] == k)
    ensures forall q | 0 <= q < |order| && order[q] == k :: p <= q
  {
    if order == [] then 0 else if order[0] == k then 0 else 1 + PlaceOf(order[1..], k)
  }

  /** Without errors, the dependencies of a unit are exactly the readable files it imports. */
  lemma DepsAreImports(w: World, entry: Key, units: seq<Key>, deps: seq<seq<nat>>, visited: map<Key, nat>, order: seq<Key>, cycles: nat, i: nat, d: nat)
    requires Loaded(w, entry, units, deps, visited, order, cycles) && cycles == 0
    requires i < |units| && d < |units|
    ensures d in deps[i] <==> Edge(w, units[i], units[d])
  {
    assert units[i] in visited && units[d] in visited;
    if d in deps[i] { assert IsDep(w, units, order, i, d); }
  }

  method LoadModuleGraph(world: World, entry: Key) returns (g: Loader, root: int)
    ensures fresh(g) && g.world == world && g.entry == entry
    ensures Loaded(world, entry, g.units, g.deps, g.visited, g.order, g.cyclicErrors)
    ensures if Readable(world, entry) then 0 <= root < |g.units| && g.units[root] == entry else root == -1
    ensures g.cyclicErrors > 0 <==> HasCycle(world, entry)
    ensures forall k :: k in g.units <==> Readable(world, k) && Reaches(world, entry, k)
    ensures Acyclic(g.deps)
  {
    g := new Loader(world, entry);
    ReachesSelf(world, entry);
    root := g.Load(entry);
    CycleReportedIff(world, entry, g.units, g.deps, g.visited, g.order, g.cyclicErrors);
    DepsAcyclic(world, entry, g.units, g.deps, g.visited, g.order, g.cyclicErrors);
    forall k
      ensures k in g.units <==> Readable(world, k) && Reaches(world, entry, k)
    {
      EachFileOnce(world, entry, g.units, g.deps, g.visited, g.order, g.cyclicErrors, k);
    }
  }

  // ---------------------------------------------------- dependency-first order

  /** Every unit once, each after the units it depends on. */
  ghost predicate DependencyFirst(deps: seq<seq<nat>>, order: seq<nat>) {
    && |order| == |deps|
    && (forall i | 0 <= i < |deps| :: i in order)
    && (forall p, q | 0 <= p < q < |order| :: order[p] != order[q])
    && forall p, d | 0 <= p < |order| && order[p] < |deps| && d in deps[order[p]] :: d in order[..p]
  }

  /** Units listed so far: once each, after their dependencies. */
  ghost predicate Listed(deps: seq<seq<nat>>, order: seq<nat>) {
    && (forall p | 0 <= p < |order| :: order[p] < |deps|)
    && (forall p, q | 0 <= p < q < |order| :: order[p] != order[q])
    && forall p, d | 0 <= p < |order| && d in deps[order[p]] :: d in order[..p]
  }

  lemma RankedAt(deps: seq<seq<nat>>, rank: seq<nat>, i: nat, d: nat)
    requires Ranked(deps, rank) && i < |deps| && d in deps[i]
    ensures d < |deps| && rank[d] < rank[i]
  {
  }

  lemma ListedSnoc(deps: seq<seq<nat>>, order: seq<nat>, i: nat)
    requires Listed(deps, order) && i < |deps| && i !in order && forall d | d in deps[i] :: d in order
    ensures Listed(deps, order + [i])
  {
    assert forall p | 0 <= p <= |order| :: (order + [i])[..p] == order[..p];
  }

  class TopoSort {
    const deps: seq<seq<nat>>
    const seen: array<bool>
    var order: seq<nat>
    ghost const rank: seq<nat>

    ghost predicate Valid()
      reads this, seen
    {
      && Ranked(deps, rank) && seen.Length == |deps| && Listed(deps, order)
      && forall i | i in order :: seen[i]
    }

    ghost function Unseen(): set<nat>
      requires seen.Length == |deps|
      reads seen
    {
      set i | 0 <= i < seen.Length && !seen[i]
    }

    constructor (deps: seq<seq<nat>>, ghost rank: seq<nat>)
      requires Ranked(deps, rank)
      ensures Valid() && this.deps == deps && order == [] && fresh(seen) && forall i | 0 <= i < |deps| :: !seen[i]
    {
      this.deps, this.rank, order := deps, rank, [];
      seen := new bool[|deps|](_ => false);
    }

    /** A unit seen but not yet listed is being visited; all such units depend on `i`. */
    method Visit(i: nat)
      requires Valid() && i < |deps|
      requires forall j | 0 <= j < |deps| && seen[j] && j !in order :: rank[i] < rank[j]
      modifies `order, seen
      ensures Valid() && i in order && old(order) <= order
      ensures forall j | 0 <= j < |deps| :: old(seen[j]) ==> seen[j]
      ensures forall j | 0 <= j < |deps| && seen[j] && j !in order :: old(seen[j]) && j !in old(order)
      ensures forall j | 0 <= j < |deps| && old(seen[j]) && j !in old(order) :: j !in order
      decreases Unseen()
    {
      if seen[i] { return; }
      ghost var unseen := Unseen();
      seen[i] := true;
      assert i in unseen && i !in Unseen();
      for k := 0 to |deps[i]|
        invariant Valid() && old(order) <= order && seen[i] && i !in order
        invariant forall j | 0 <= j < |deps| :: old(seen[j]) ==> seen[j]
        invariant forall j | 0 <= j < |deps| && seen[j] && j !in order :: j == i || (old(seen[j]) && j !in old(order))
        invariant forall j | 0 <= j < |deps| && old(seen[j]) && j !in old(order) :: j !in order
        invariant forall m | 0 <= m < k :: deps[i][m] in order
      {
        var d := deps[i][k];
        RankedAt(deps, rank, i, d);
        assert Unseen() < unseen;
        Visit(d);
      }
      ListedSnoc(deps, order, i);
      order := order + [i];
    }
  }

  method TopoOrder(deps: seq<seq<nat>>) returns (order: seq<nat>)
    requires Acyclic(deps)
    ensures DependencyFirst(deps, order)
  {
    ghost var rank :| Ranked(deps, rank);
    var sort := new TopoSort(deps, rank);
    for i := 0 to |deps|
      invariant sort.Valid() && sort.deps == deps && fresh(sort) && fresh(sort.seen)
      invariant forall j | 0 <= j < |deps| && sort.seen[j] :: j in sort.order
      invariant forall j | 0 <= j < i :: j in sort.order
    {
      sort.Visit(i);
    }
    order := sort.order;
    AllListed(deps, order);
  }

  lemma AllListed(deps: seq<seq<nat>>, order: seq<nat>)
    requires Listed(deps, order) && forall i | 0 <= i < |deps| :: i in order
    ensures |order| == |deps|
  {
    var indices := Below(|deps|);
    assert forall k :: k in order <==> k in indices;
    DistinctSize(order, indices);
  }

  function Below(n: nat): (s: set<nat>)
    ensures |s| == n && forall k: nat :: k in s <==> k < n
  {
    if n == 0 then {} else Below(n - 1) + {n - 1}
  }

  lemma {:induction false} DistinctSize(order: seq<nat>, s: set<nat>)
    requires forall p, q | 0 <= p < q < |order| :: order[p] != order[q]
    requires forall k :: k in order <==> k in s
    ensures |order| == |s|
    decreases |order|
  {
    if order == [] {
      assert s == {};
    } else {
      var n := |order| - 1;
      assert forall k :: k in order[..n] <==> k in s - {order[n]};
      DistinctSize(order[..n], s - {order[n]});
    }
  }
}
