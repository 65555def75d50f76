/** Places, and a store of records in which they can be read and written. */
module Places {
  import opened Wrappers

  /** A root binding and the fields selected from it, outermost first. */
  datatype Place = Place(root: nat, path: seq<string>)

  datatype Value = Scalar(n: int) | Record(fields: map<string, Value>)

  type Store = map<nat, Value>

  function Get(v: Value, path: seq<string>): Option<Value> {
    if path == [] then Some(v)
    else if v.Record? && path[0] in v.fields then Get(v.fields[path[0]], path[1..])
    else None
  }

  function Put(v: Value, path: seq<string>, w: Value): Value {
    if path == [] then w
    else if v.Record? && path[0] in v.fields then
      Record(v.fields[path[0] := Put(v.fields[path[0]], path[1..], w)])
    else v
  }

  function Read(s: Store, p: Place): Option<Value> {
    if p.root in s then Get(s[p.root], p.path) else None
  }

  function Write(s: Store, p: Place, w: Value): Store {
    if p.root in s then s[p.root := Put(s[p.root], p.path, w)] else s
  }

  /** Writing some value at `a`, where both places exist, changes what is read at `b`. */
  ghost predicate Interferes(a: Place, b: Place) {
    exists s: Store, w: Value ::
      Read(s, a).Some? && Read(s, b).Some? && Read(Write(s, a, w), b) != Read(s, b)
  }

  predicate Overlap(a: Place, b: Place) {
    a.root == b.root && (a.path <= b.path || b.path <= a.path)
  }

  // ------------------------------------------------- disjoint places

  lemma {:induction false} PutElsewhere(v: Value, p: seq<string>, q: seq<string>, w: Value)
    requires !(p <= q) && !(q <= p)
    ensures Get(Put(v, p, w), q) == Get(v, q)
    decreases |p|
  {
    if v.Record? && p[0] in v.fields && p[0] == q[0] {
      assert p == [p[0]] + p[1..] && q == [q[0]] + q[1..];
      PutElsewhere(v.fields[p[0]], p[1..], q[1..], w);
    }
  }

  lemma {:induction false} PutsCommute(v: Value, p: seq<string>, q: seq<string>, w: Value, u: Value)
    requires !(p <= q) && !(q <= p)
    ensures Put(Put(v, p, w), q, u) == Put(Put(v, q, u), p, w)
    decreases |p|
  {
    if v.Record? && p[0] in v.fields && q[0] in v.fields {
      if p[0] == q[0] {
        assert p == [p[0]] + p[1..] && q == [q[0]] + q[1..];
        PutsCommute(v.fields[p[0]], p[1..], q[1..], w, u);
        var inner := Put(Put(v.fields[p[0]], p[1..], w), q[1..], u);
        assert Put(Put(v, p, w), q, u) == Record(v.fields[p[0] := inner]);
        assert Put(Put(v, q, u), p, w) == Record(v.fields[p[0] := inner]);
      } else {
        var x, y := Put(v.fields[p[0]], p[1..], w), Put(v.fields[q[0]], q[1..], u);
        assert v.fields[p[0] := x][q[0] := y] == v.fields[q[0] := y][p[0] := x];
      }
    }
  }

  lemma WritesCommute(s: Store, a: Place, b: Place, w: Value, u: Value)
    requires !Overlap(a, b)
    ensures Write(Write(s, a, w), b, u) == Write(Write(s, b, u), a, w)
  {
    if a.root == b.root {
      if a.root in s {
        PutsCommute(s[a.root], a.path, b.path, w, u);
        var v := Put(Put(s[a.root], a.path, w), b.path, u);
        assert Write(Write(s, a, w), b, u) == s[a.root := v];
        assert Write(Write(s, b, u), a, w) == s[a.root := v];
      }
    } else if a.root in s && b.root in s {
      var x, y := Put(s[a.root], a.path, w), Put(s[b.root], b.path, u);
      assert s[a.root := x][b.root := y] == s[b.root := y][a.root := x];
    }
  }

  // ------------------------------------------------ overlapping places

  /** Records nested along `path`, with `n` at its end. */
  function Nest(path: seq<string>, n: int): Value {
    if path == [] then Scalar(n) else Record(map[path[0] := Nest(path[1..], n)])
  }

  lemma {:induction false} NestGet(path: seq<string>, p: seq<string>, n: int)
    requires p <= path
    ensures Get(Nest(path, n), p) == Some(Nest(path[|p|..], n))
    decreases |p|
  {
    if p != [] {
      NestGet(path[1..], p[1..], n);
      assert path[1..][|p[1..]|..] == path[|p|..];
    }
  }

  lemma {:induction false} NestPut(path: seq<string>, p: seq<string>, n: int, m: int)
    requires p <= path
    ensures Put(Nest(path, n), p, Nest(path[|p|..], m)) == Nest(path, m)
    decreases |p|
  {
    if p != [] {
      NestPut(path[1..], p[1..], n, m);
      assert path[1..][|p[1..]|..] == path[|p|..];
    }
  }

  lemma {:induction false} NestDiffers(path: seq<string>, n: int, m: int)
    requires n != m
    ensures Nest(path, n) != Nest(path, m)
    decreases |path|
  {
    if path != [] {
      NestDiffers(path[1..], n, m);
      assert Nest(path, n).fields[path[0]] != Nest(path, m).fields[path[0]];
    }
  }

  /** Two places overlap exactly when a write at one can be seen at the other. */
  lemma OverlapIffInterferes(a: Place, b: Place)
    ensures Overlap(a, b) <==> Interferes(a, b)
  {
    if Overlap(a, b) {
      var path := if a.path <= b.path then b.path else a.path;
      var s: Store := map[a.root := Nest(path, 0)];
      var w := Nest(path[|a.path|..], 1);
      NestGet(path, a.path, 0);
      NestGet(path, b.path, 0);
      NestGet(path, b.path, 1);
      NestPut(path, a.path, 0, 1);
      NestDiffers(path[|b.path|..], 0, 1);
      assert Read(s, a).Some? && Read(s, b).Some? && Read(Write(s, a, w), b) != Read(s, b);
    } else if Interferes(a, b) {
      var s: Store, w: Value :| Read(s, a).Some? && Read(s, b).Some? && Read(Write(s, a, w), b) != Read(s, b);
      if a.root == b.root { PutElsewhere(s[a.root], a.path, b.path, w); }
      assert false;
    }
  }
}
