/** The files an entry may import, and paths through their imports. */
module ImportGraph {
  import opened Wrappers

  /** A file is known by its canonical path. */
  type Key = string

  /** An `import`: of a C header, of a module that no search root holds, or of a file. */
  datatype Import = Header | Missing | Of(key: Key)

  /** Every file that exists, with its imports if it can be read. */
  type World = map<Key, Option<seq<Import>>>

  predicate Readable(w: World, k: Key) { k in w && w[k].Some? }

  ghost predicate Edge(w: World, k: Key, t: Key) { Readable(w, k) && Of(t) in w[k].value }

  ghost predicate IsPath(w: World, p: seq<Key>) {
    p != [] && forall i | 0 <= i < |p| - 1 :: Edge(w, p[i], p[i + 1])
  }

  ghost predicate Reaches(w: World, a: Key, b: Key) {
    exists p :: IsPath(w, p) && p[0] == a && p[|p| - 1] == b
  }

  ghost predicate Cyclic(w: World, k: Key) {
    exists t :: Edge(w, k, t) && Reaches(w, t, k)
  }

  /** Some file reachable from the entry imports its way back to itself. */
  ghost predicate HasCycle(w: World, entry: Key) {
    exists k :: Reaches(w, entry, k) && Cyclic(w, k)
  }

  lemma ReachesSelf(w: World, k: Key)
    ensures Reaches(w, k, k)
  {
    assert IsPath(w, [k]);
  }

  lemma ReachesOn(w: World, a: Key, b: Key, c: Key)
    requires Reaches(w, a, b) && Edge(w, b, c)
    ensures Reaches(w, a, c)
  {
    var p :| IsPath(w, p) && p[0] == a && p[|p| - 1] == b;
    var q := p + [c];
    forall i | 0 <= i < |q| - 1
      ensures Edge(w, q[i], q[i + 1])
    {
      if i < |p| - 1 { assert Edge(w, p[i], p[i + 1]); }
    }
    assert IsPath(w, q) && q[0] == a && q[|q| - 1] == c;
  }

  /** A set that holds the start and is closed under readable imports holds the whole path. */
  lemma {:induction false} PathStays(w: World, s: set<Key>, p: seq<Key>)
    requires IsPath(w, p) && p[0] in s && Readable(w, p[|p| - 1])
    requires forall k, t | k in s && Edge(w, k, t) && Readable(w, t) :: t in s
    ensures p[|p| - 1] in s
    decreases |p|
  {
    if |p| > 1 {
      assert Edge(w, p[0], p[1]);
      if |p| > 2 { assert Edge(w, p[1], p[2]); }
      var q := p[1..];
      forall i | 0 <= i < |q| - 1
        ensures Edge(w, q[i], q[i + 1])
      {
        assert Edge(w, p[i + 1], p[i + 2]);
      }
      PathStays(w, s, q);
    }
  }

  /** Each key is listed once, and imports only keys listed before it. */
  ghost predicate ImportsFirst(w: World, order: seq<Key>) {
    && (forall i, j | 0 <= i < j < |order| :: order[i] != order[j])
    && (forall i, t | 0 <= i < |order| && Edge(w, order[i], t) && Readable(w, t) :: t in order[..i])
  }

  /** Along a path, places in such a list only go down. */
  lemma {:induction false} PathDescends(w: World, order: seq<Key>, p: seq<Key>, i: nat)
    requires ImportsFirst(w, order) && IsPath(w, p) && Readable(w, p[|p| - 1])
    requires i < |order| && order[i] == p[0]
    ensures p[|p| - 1] in order[..i + 1]
    decreases |p|
  {
    if |p| > 1 {
      assert Edge(w, p[0], p[1]);
      if |p| > 2 { assert Edge(w, p[1], p[2]); }
      var q := p[1..];
      forall k | 0 <= k < |q| - 1
        ensures Edge(w, q[k], q[k + 1])
      {
        assert Edge(w, p[k + 1], p[k + 2]);
      }
      var j :| 0 <= j < i && order[j] == p[1];
      PathDescends(w, order, q, j);
    }
  }

  /** A list with imports first rules out cycles through its members. */
  lemma NoCycle(w: World, order: seq<Key>, k: Key)
    requires ImportsFirst(w, order) && k in order
    ensures !Cyclic(w, k)
  {
    if Cyclic(w, k) {
      var t :| Edge(w, k, t) && Reaches(w, t, k);
      var p :| IsPath(w, p) && p[0] == t && p[|p| - 1] == k;
      var i :| 0 <= i < |order| && order[i] == k;
      if |p| > 1 { assert Edge(w, p[0], p[1]); }
      assert t in order[..i];
      var j :| 0 <= j < i && order[j] == t;
      PathDescends(w, order, p, j);
      assert false;
    }
  }

  // --------------------------------------------------- dependency indices

  /** Dependencies go down in some ranking. */
  ghost predicate Ranked(deps: seq<seq<nat>>, rank: seq<nat>) {
    && |rank| == |deps|
    && forall i, d | 0 <= i < |deps| && d in deps[i] :: d < |deps| && rank[d] < rank[i]
  }

  ghost predicate Acyclic(deps: seq<seq<nat>>) { exists rank :: Ranked(deps, rank) }

  ghost predicate IsDepPath(deps: seq<seq<nat>>, p: seq<nat>) {
    && p != [] && (forall i | 0 <= i < |p| :: p[i] < |deps|)
    && forall i | 0 <= i < |p| - 1 :: p[i + 1] in deps[p[i]]
  }

  lemma {:induction false} RankDescends(deps: seq<seq<nat>>, rank: seq<nat>, p: seq<nat>)
    requires Ranked(deps, rank) && IsDepPath(deps, p)
    ensures |p| > 1 ==> rank[p[|p| - 1]] < rank[p[0]]
    decreases |p|
  {
    if |p| > 1 {
      var q := p[1..];
      assert forall i | 0 <= i < |q| :: q[i] == p[i + 1];
      RankDescends(deps, rank, q);
    }
  }

  /** So no chain of dependencies comes back to where it started. */
  lemma AcyclicHasNoLoop(deps: seq<seq<nat>>, p: seq<nat>)
    requires Acyclic(deps) && IsDepPath(deps, p) && |p| > 1
    ensures p[0] != p[|p| - 1]
  {
    var rank :| Ranked(deps, rank);
    RankDescends(deps, rank, p);
  }
}
