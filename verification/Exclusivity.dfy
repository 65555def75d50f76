/** The exclusivity checker: the places a call borrows, and the pairs that conflict. */
module Exclusivity {
  import opened Wrappers
  import opened Places

  datatype Access = ReadAccess | Inout

  datatype Mode = ByRead | ByInout | BySink

  /** Only locals and parameters are storage.  A sub-view of a partition stands for a segment of
      its parent. */
  datatype Symbol = Symbol(id: nat, isStorage: bool, view: Option<SubView>)

  datatype SubView = SubView(parent: nat, segment: string)

  /** Built-in collections whose methods mutate their receiver. */
  datatype Receiver = VecType | StringType | HashMapType | OtherType

  datatype Expr =
    | Name(sym: Symbol)
    | Paren(inner: Expr)
    | Member(base: Expr, field: string, ty: Receiver)  // `ty`: the type of `base`
    | Call(callee: Expr, args: seq<Arg>, params: seq<Mode>)  // `params`: [] where the callee is not a function
    | Walk(operands: seq<Expr>)  // everything else that may hold calls
    | Leaf(text: string)

  datatype Arg = Arg(value: Expr, isInout: bool)

  datatype Borrow = Borrow(place: Place, access: Access)

  datatype Report = Report(first: Borrow, second: Borrow)

  function AsPlace(e: Expr): Option<Place> {
    match e
    case Paren(inner) => AsPlace(inner)
    case Name(sym) =>
      if !sym.isStorage then None
      else if sym.view.Some? then Some(Place(sym.view.value.parent, [sym.view.value.segment]))
      else Some(Place(sym.id, []))
    case Member(base, field, _) =>
      (match AsPlace(base)
       case Some(p) => Some(p.(path := p.path + ["." + field]))
       case None => None)
    case _ => None
  }

  predicate ReceiverBorrowedInout(ty: Receiver, name: string) {
    match ty
    case VecType => name == "push" || name == "pop" || name == "set" || name == "clear"
    case StringType => name == "append"
    case HashMapType => name == "set"
    case OtherType => false
  }

  function ModeOf(params: seq<Mode>, i: nat, a: Arg): Mode {
    if a.isInout then ByInout else if i < |params| then params[i] else ByRead
  }

  predicate Conflict(a: Borrow, b: Borrow) {
    Overlap(a.place, b.place) && (a.access.Inout? || b.access.Inout?)
  }

  // ----------------------------------------------------- what is collected

  /** What argument `i` borrows; an argument that is consumed, or is not a place, borrows nothing. */
  function BorrowOf(params: seq<Mode>, i: nat, a: Arg): seq<Borrow> {
    var mode := ModeOf(params, i, a);
    var place := AsPlace(a.value);
    if mode.BySink? || place.None? then []
    else [Borrow(place.value, if mode.ByInout? then Inout else ReadAccess)]
  }

  function ArgBorrows(params: seq<Mode>, args: seq<Arg>): seq<Borrow> {
    if args == [] then []
    else
      var n := |args| - 1;
      ArgBorrows(params, args[..n]) + BorrowOf(params, n, args[n])
  }

  function ReceiverBorrow(callee: Expr): seq<Borrow> {
    if callee.Member? && ReceiverBorrowedInout(callee.ty, callee.field) && AsPlace(callee.base).Some?
    then [Borrow(AsPlace(callee.base).value, Inout)] else []
  }

  /** Every place a call borrows, in the order in which the checker lists them. */
  function Borrows(callee: Expr, args: seq<Arg>, params: seq<Mode>): seq<Borrow> {
    ArgBorrows(params, args) + ReceiverBorrow(callee)
  }

  /** The conflicts of `bs[i]` with the borrows from `i + 1` up to `j`. */
  function RowConflicts(bs: seq<Borrow>, i: nat, j: nat): seq<Report>
    requires i < j <= |bs|
  {
    if j == i + 1 then []
    else RowConflicts(bs, i, j - 1) + if Conflict(bs[i], bs[j - 1]) then [Report(bs[i], bs[j - 1])] else []
  }

  function Conflicts(bs: seq<Borrow>, n: nat): seq<Report>
    requires n <= |bs|
  {
    if n == 0 then [] else Conflicts(bs, n - 1) + RowConflicts(bs, n - 1, |bs|)
  }

  /** Calls inside the callee and the arguments are checked first. */
  function Reports(e: Expr): seq<Report>
    decreases e
  {
    match e
    case Name(_) => []
    case Leaf(_) => []
    case Paren(inner) => Reports(inner)
    case Member(base, _, _) => Reports(base)
    case Walk(operands) => AllReports(operands)
    case Call(callee, args, params) =>
      var bs := Borrows(callee, args, params);
      Reports(callee) + ArgReports(args) + Conflicts(bs, |bs|)
  }

  function AllReports(es: seq<Expr>): seq<Report>
    decreases es
  {
    if es == [] then []
    else
      var n := |es| - 1;
      AllReports(es[..n]) + Reports(es[n])
  }

  function ArgReports(args: seq<Arg>): seq<Report>
    decreases args
  {
    if args == [] then []
    else
      var n := |args| - 1;
      ArgReports(args[..n]) + ReportsOf(args[n])
  }

  function ReportsOf(a: Arg): seq<Report>
    decreases a
  {
    Reports(a.value)
  }

  // -------------------------------------------------------- what it means

  /** No write through a borrow marked inout can be seen through another borrow of the call. */
  ghost predicate NonInterfering(bs: seq<Borrow>) {
    forall i, j | 0 <= i < |bs| && 0 <= j < |bs| && i != j && bs[i].access.Inout? ::
      !Interferes(bs[i].place, bs[j].place)
  }

  predicate RowFree(bs: seq<Borrow>, i: nat, j: nat)
    requires i < j <= |bs|
  {
    forall k | i < k < j :: !Conflict(bs[i], bs[k])
  }

  lemma {:induction false} RowClean(bs: seq<Borrow>, i: nat, j: nat)
    requires i < j <= |bs|
    ensures RowConflicts(bs, i, j) == [] <==> RowFree(bs, i, j)
    decreases j
  {
    if j > i + 1 {
      RowClean(bs, i, j - 1);
      assert RowFree(bs, i, j) <==> RowFree(bs, i, j - 1) && !Conflict(bs[i], bs[j - 1]);
    }
  }

  lemma {:induction false} ConflictsClean(bs: seq<Borrow>, n: nat)
    requires n <= |bs|
    ensures Conflicts(bs, n) == [] <==> forall i | 0 <= i < n :: RowFree(bs, i, |bs|)
    decreases n
  {
    if n > 0 {
      ConflictsClean(bs, n - 1);
      RowClean(bs, n - 1, |bs|);
    }
  }

  /** A call is accepted exactly when its borrows do not interfere. */
  lemma AcceptedIffNonInterfering(callee: Expr, args: seq<Arg>, params: seq<Mode>)
    ensures var bs := Borrows(callee, args, params); Conflicts(bs, |bs|) == [] <==> NonInterfering(bs)
  {
    var bs := Borrows(callee, args, params);
    ConflictsClean(bs, |bs|);
    forall i, j | 0 <= i < |bs| && 0 <= j < |bs|
      ensures Overlap(bs[i].place, bs[j].place) <==> Interferes(bs[i].place, bs[j].place)
      ensures Conflict(bs[i], bs[j]) <==> Conflict(bs[j], bs[i])
    {
      OverlapIffInterferes(bs[i].place, bs[j].place);
    }
    if Conflicts(bs, |bs|) == [] {
      forall i, j | 0 <= i < |bs| && 0 <= j < |bs| && i != j && bs[i].access.Inout?
        ensures !Interferes(bs[i].place, bs[j].place)
      {
        assert if i < j then RowFree(bs, i, |bs|) else RowFree(bs, j, |bs|);
      }
    }
    if NonInterfering(bs) {
      forall i, k | 0 <= i < |bs| && i < k < |bs|
        ensures !Conflict(bs[i], bs[k])
      {
        OverlapIffInterferes(bs[k].place, bs[i].place);
      }
    }
  }

  // --------------------------------------------------------- order of writes

  datatype Update = Update(place: Place, value: Value)

  function WriteAll(s: Store, us: seq<Update>): Store {
    if us == [] then s else WriteAll(Write(s, us[0].place, us[0].value), us[1..])
  }

  ghost predicate Disjoint(us: seq<Update>) {
    forall i, j | 0 <= i < j < |us| :: !Overlap(us[i].place, us[j].place)
  }

  lemma {:induction false} WriteAllAppend(s: Store, us: seq<Update>, vs: seq<Update>)
    ensures WriteAll(s, us + vs) == WriteAll(WriteAll(s, us), vs)
    decreases |us|
  {
    if us == [] {
      assert us + vs == vs;
    } else {
      assert (us + vs)[1..] == us[1..] + vs;
      WriteAllAppend(Write(s, us[0].place, us[0].value), us[1..], vs);
    }
  }

  /** A write moves past any number of writes to places that do not overlap its own. */
  lemma {:induction false} WritePastAll(s: Store, x: Update, us: seq<Update>)
    requires forall u | u in us :: !Overlap(u.place, x.place)
    ensures WriteAll(Write(s, x.place, x.value), us) == Write(WriteAll(s, us), x.place, x.value)
    decreases |us|
  {
    if us != [] {
      WritesCommute(s, us[0].place, x.place, us[0].value, x.value);
      WritePastAll(Write(s, us[0].place, us[0].value), x, us[1..]);
    }
  }

  lemma ToFront(s: Store, us: seq<Update>, i: nat)
    requires i < |us| && Disjoint(us)
    ensures WriteAll(s, us) == WriteAll(Write(s, us[i].place, us[i].value), us[..i] + us[i + 1..])
  {
    var before, x, after := us[..i], us[i], us[i + 1..];
    var sx := Write(s, x.place, x.value);
    assert us == before + ([x] + after) && ([x] + after)[1..] == after;
    WriteAllAppend(s, before, [x] + after);
    WriteAllAppend(sx, before, after);
    WritePastAll(s, x, before);
  }

  lemma Without(us: seq<Update>, vs: seq<Update>, i: nat)
    requires i < |us| && vs != [] && us[i] == vs[0] && multiset(us) == multiset(vs)
    ensures multiset(us[..i] + us[i + 1..]) == multiset(vs[1..])
  {
    assert us == us[..i] + [us[i]] + us[i + 1..];
    assert vs == [vs[0]] + vs[1..];
    assert multiset(us) == multiset(us[..i]) + multiset{us[i]} + multiset(us[i + 1..]);
    assert multiset(us[..i] + us[i + 1..]) == multiset(us) - multiset{us[i]};
    assert multiset(vs[1..]) == multiset(vs) - multiset{vs[0]};
  }

  lemma DisjointWithout(us: seq<Update>, i: nat)
    requires i < |us| && Disjoint(us)
    ensures Disjoint(us[..i] + us[i + 1..])
  {
  }

  /** Writes to pairwise disjoint places may be made in any order. */
  lemma {:induction false} OrderIrrelevant(s: Store, us: seq<Update>, vs: seq<Update>)
    requires Disjoint(us) && multiset(us) == multiset(vs)
    ensures WriteAll(s, us) == WriteAll(s, vs)
    decreases |vs|
  {
    if vs == [] {
      assert |multiset(us)| == 0;
    } else {
      var x := vs[0];
      assert x in multiset(us);
      var i :| 0 <= i < |us| && us[i] == x;
      ToFront(s, us, i);
      Without(us, vs, i);
      DisjointWithout(us, i);
      OrderIrrelevant(Write(s, x.place, x.value), us[..i] + us[i + 1..], vs[1..]);
    }
  }

  /** So the writes a call makes through its inout places, one each, commute. */
  lemma InoutWritesCommute(callee: Expr, args: seq<Arg>, params: seq<Mode>, s: Store, us: seq<Update>, vs: seq<Update>, at: seq<nat>)
    requires var bs := Borrows(callee, args, params);
      && Conflicts(bs, |bs|) == [] && |at| == |us|
      && (forall k | 0 <= k < |us| :: at[k] < |bs| && bs[at[k]].access.Inout? && us[k].place == bs[at[k]].place)
      && forall k, m | 0 <= k < m < |us| :: at[k] != at[m]
    requires multiset(us) == multiset(vs)
    ensures WriteAll(s, us) == WriteAll(s, vs)
  {
    var bs := Borrows(callee, args, params);
    ConflictsClean(bs, |bs|);
    forall k, m | 0 <= k < m < |us|
      ensures !Overlap(us[k].place, us[m].place)
    {
      var i, j := at[k], at[m];
      assert if i < j then RowFree(bs, i, |bs|) else RowFree(bs, j, |bs|);
    }
    OrderIrrelevant(s, us, vs);
  }

  // ---------------------------------------------------------- the checker

  class Checker {
    var reports: seq<Report>

    constructor ()
      ensures reports == []
    {
      reports := [];
    }

    method CheckExpr(e: Expr)
      modifies this
      ensures reports == old(reports) + Reports(e)
      decreases e, 1
    {
      match e
      case Name(_) =>
      case Leaf(_) =>
      case Paren(inner) => CheckExpr(inner);
      case Member(base, _, _) => CheckExpr(base);
      case Walk(operands) => CheckAll(operands);
      case Call(_, _, _) => CheckCall(e);
    }

    method CheckCall(c: Expr)
      requires c.Call?
      modifies this
      ensures reports == old(reports) + Reports(c)
      decreases c, 0
    {
      ghost var bs := Borrows(c.callee, c.args, c.params);
      ghost var r1, r2, r3 := Reports(c.callee), ArgReports(c.args), Conflicts(bs, |bs|);
      assert Reports(c) == r1 + r2 + r3;
      CheckExpr(c.callee);
      CheckArgs(c.args);
      var borrows := GatherBorrows(c.callee, c.args, c.params);
      Scan(borrows);
      assert old(reports) + r1 + r2 + r3 == old(reports) + (r1 + r2 + r3);
    }

    method CheckAll(es: seq<Expr>)
      modifies this
      ensures reports == old(reports) + AllReports(es)
      decreases es
    {
      for i := 0 to |es|
        invariant reports == old(reports) + AllReports(es[..i])
      {
        assert es[..i + 1][..i] == es[..i];
        CheckExpr(es[i]);
      }
      assert es[..|es|] == es;
    }

    method CheckArgs(args: seq<Arg>)
      modifies this
      ensures reports == old(reports) + ArgReports(args)
      decreases args
    {
      for i := 0 to |args|
        invariant reports == old(reports) + ArgReports(args[..i])
      {
        assert args[..i + 1][..i] == args[..i];
        CheckArg(args[i]);
      }
      assert args[..|args|] == args;
    }

    method CheckArg(a: Arg)
      modifies this
      ensures reports == old(reports) + ReportsOf(a)
      decreases a
    {
      CheckExpr(a.value);
    }

    static method GatherBorrows(callee: Expr, args: seq<Arg>, params: seq<Mode>) returns (borrows: seq<Borrow>)
      ensures borrows == Borrows(callee, args, params)
    {
      borrows := [];
      for i := 0 to |args|
        invariant borrows == ArgBorrows(params, args[..i])
      {
        assert args[..i + 1][..i] == args[..i];
        var mode := if i < |params| then params[i] else ByRead;
        if args[i].isInout { mode := ByInout; }
        if mode.BySink? { continue; }
        var place := AsPlace(args[i].value);
        if place.None? { continue; }
        borrows := borrows + [Borrow(place.value, if mode.ByInout? then Inout else ReadAccess)];
      }
      assert args[..|args|] == args;
      if callee.Member? && ReceiverBorrowedInout(callee.ty, callee.field) {
        var place := AsPlace(callee.base);
        if place.Some? { borrows := borrows + [Borrow(place.value, Inout)]; }
      }
    }

    method Scan(borrows: seq<Borrow>)
      modifies this
      ensures reports == old(reports) + Conflicts(borrows, |borrows|)
    {
      for i := 0 to |borrows|
        invariant reports == old(reports) + Conflicts(borrows, i)
      {
        for j := i + 1 to |borrows|
          invariant reports == old(reports) + Conflicts(borrows, i) + RowConflicts(borrows, i, j)
        {
          var clash := Overlaps(borrows[i].place, borrows[j].place);
          if clash && (borrows[i].access.Inout? || borrows[j].access.Inout?) {
            reports := reports + [Report(borrows[i], borrows[j])];
          }
        }
      }
    }

    /** Same root, and the paths agree as far as the shorter one goes. */
    static method Overlaps(a: Place, b: Place) returns (r: bool)
      ensures r <==> Overlap(a, b)
    {
      if a.root != b.root { return false; }
      var shorter := if |a.path| < |b.path| then a.path else b.path;
      var longer := if |a.path| < |b.path| then b.path else a.path;
      for i := 0 to |shorter|
        invariant shorter[..i] == longer[..i]
      {
        if shorter[i] != longer[i] {
          assert !(shorter <= longer);
          return false;
        }
      }
      assert shorter == longer[..|shorter|];
      return true;
    }
  }
}
