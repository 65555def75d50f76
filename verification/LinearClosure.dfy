/** Which structs are linear: those marked so, and those that own one through their fields. */
module LinearClosure {
  import opened Wrappers
  import opened MoveSyntax

  /** Only a plain named type passes on the obligation; optionals, spans, boxes and tuples do not. */
  datatype FieldType = Named(path: seq<string>) | Wrapped

  datatype StructDecl = StructDecl(name: string, isLinear: bool, fields: seq<FieldType>)

  function HeadName(f: FieldType): string {
    if f.Named? && f.path != [] then f.path[|f.path| - 1] else ""
  }

  /** The first declaration with this name. */
  function Lookup(decls: seq<StructDecl>, name: string): (r: Option<nat>)
    ensures r.Some? ==> r.value < |decls| && decls[r.value].name == name
    ensures r.None? ==> forall i | 0 <= i < |decls| :: decls[i].name != name
  {
    if decls == [] then None
    else if decls[0].name == name then Some(0)
    else
      var r := Lookup(decls[1..], name);
      if r.Some? then Some(r.value + 1) else None
  }

  /** A field of struct `i` holds a struct `j` by value. */
  predicate Owns(decls: seq<StructDecl>, i: nat, j: nat) {
    i < |decls| && exists f | f in decls[i].fields :: Lookup(decls, HeadName(f)) == Some(j)
  }

  /** Contains the marked structs and every struct that owns a member. */
  ghost predicate Closed(decls: seq<StructDecl>, s: set<nat>) {
    && (forall i: nat | i < |decls| && decls[i].isLinear :: i in s)
    && (forall i: nat, j: nat | Owns(decls, i, j) && j in s :: i in s)
  }

  /** A chain of owners that ends in a marked struct. */
  predicate Chain(decls: seq<StructDecl>, path: seq<nat>) {
    && path != [] && path[|path| - 1] < |decls| && decls[path[|path| - 1]].isLinear
    && forall k | 0 <= k < |path| - 1 :: Owns(decls, path[k], path[k + 1])
  }

  ghost predicate OwnsMarked(decls: seq<StructDecl>, i: nat) {
    exists path :: Chain(decls, path) && path[0] == i
  }

  ghost predicate IsLeast(decls: seq<StructDecl>, s: set<nat>) {
    Closed(decls, s) && forall t :: Closed(decls, t) ==> s <= t
  }

  function Indices(n: nat): (s: set<nat>)
    ensures forall k: nat :: k in s <==> k < n
  {
    if n == 0 then {} else Indices(n - 1) + {n - 1}
  }

  lemma {:induction false} ChainInside(decls: seq<StructDecl>, path: seq<nat>, s: set<nat>)
    requires Chain(decls, path) && Closed(decls, s)
    ensures path[0] in s
    decreases |path|
  {
    if |path| > 1 {
      assert Owns(decls, path[0], path[1]);
      forall k | 0 <= k < |path| - 2
        ensures Owns(decls, path[1..][k], path[1..][k + 1])
      {
        assert Owns(decls, path[k + 1], path[k + 2]);
      }
      ChainInside(decls, path[1..], s);
    }
  }

  lemma OwnersClosed(decls: seq<StructDecl>, s: set<nat>)
    requires forall i: nat :: i in s <==> i < |decls| && OwnsMarked(decls, i)
    ensures Closed(decls, s)
  {
    forall i: nat | i < |decls| && decls[i].isLinear
      ensures i in s
    {
      assert Chain(decls, [i]) && [i][0] == i;
    }
    forall i: nat, j: nat | Owns(decls, i, j) && j in s
      ensures i in s
    {
      var path :| Chain(decls, path) && path[0] == j;
      ChainGrows(decls, i, path);
      assert Chain(decls, [i] + path) && ([i] + path)[0] == i;
    }
  }

  lemma ChainGrows(decls: seq<StructDecl>, i: nat, path: seq<nat>)
    requires Chain(decls, path) && Owns(decls, i, path[0])
    ensures Chain(decls, [i] + path)
  {
    var longer := [i] + path;
    forall k | 0 <= k < |longer| - 1
      ensures Owns(decls, longer[k], longer[k + 1])
    {
      if k > 0 { assert Owns(decls, path[k - 1], path[k]); }
    }
  }

  /** The least closed set holds exactly the structs from which a marked one is reached through
      field types. */
  lemma LeastIsReachable(decls: seq<StructDecl>, s: set<nat>, i: nat)
    requires IsLeast(decls, s) && i < |decls|
    ensures i in s <==> OwnsMarked(decls, i)
  {
    if OwnsMarked(decls, i) {
      var path :| Chain(decls, path) && path[0] == i;
      ChainInside(decls, path, s);
    }
    var owners := set k: nat | k < |decls| && OwnsMarked(decls, k);
    OwnersClosed(decls, owners);
    assert s <= owners;
  }
}
