/** What the ownership checker computes: a forward pass over a body that tracks which bindings
    have been moved. */
module Ownership {
  import opened Wrappers
  import opened MoveSyntax

  datatype State = Live | Consumed

  type Bindings = map<Symbol, State>

  predicate Gone(b: Bindings, x: Symbol) { x in b && b[x].Consumed? }

  /** The bindings after some code, the use-after-move reports in the order they are made, and
      the linear bindings reported at a join. */
  datatype Checked = Checked(b: Bindings, moves: seq<Report>, diverging: set<Symbol>)

  /** `c` and then what was found from `c.b` on. */
  function Then(c: Checked, d: Checked): Checked {
    Checked(d.b, c.moves + d.moves, c.diverging + d.diverging)
  }

  function Quiet(b: Bindings): Checked { Checked(b, [], {}) }

  function CheckUse(b: Bindings, x: Symbol): Checked {
    Checked(b, if Tracked(x) && Gone(b, x) then [UsedAfterMove(x)] else [], {})
  }

  function Consume(b: Bindings, x: Option<Symbol>): Checked {
    if x.None? then Quiet(b)
    else if Gone(b, x.value) then Checked(b, [MovedTwice(x.value)], {})
    else Quiet(b[x.value := Consumed])
  }

  /** `merge_consumed`: what the branch consumed is consumed. */
  function Merge(dst: Bindings, branch: Bindings): (r: Bindings)
    ensures forall x :: Gone(r, x) <==> Gone(dst, x) || Gone(branch, x)
    ensures forall x :: x in dst ==> x in r
  {
    map x | x in dst.Keys + branch.Keys && (x in dst || Gone(branch, x)) ::
      if Gone(branch, x) then Consumed else dst[x]
  }

  function MergeAll(dst: Bindings, branches: seq<Bindings>): (r: Bindings)
    ensures forall x :: Gone(r, x) <==> Gone(dst, x) || exists i :: 0 <= i < |branches| && Gone(branches[i], x)
    ensures forall x :: x in dst ==> x in r
  {
    if branches == [] then dst
    else
      var n := |branches| - 1;
      Merge(MergeAll(dst, branches[..n]), branches[n])
  }

  /** Linear bindings live before the branches and consumed on some of them only. */
  function Divergence(linear: set<nat>, pre: Bindings, branches: seq<Bindings>): set<Symbol> {
    set x | x in pre && Diverges(linear, pre, branches, x)
  }

  predicate Diverges(linear: set<nat>, pre: Bindings, branches: seq<Bindings>, x: Symbol) {
    && IsLinear(linear, x) && !Gone(pre, x)
    && (exists i :: 0 <= i < |branches| && Gone(branches[i], x))
    && (exists i :: 0 <= i < |branches| && !Gone(branches[i], x))
  }

  function Register(linear: set<nat>, b: Bindings, x: Symbol): Bindings {
    if IsLinear(linear, x) then b[x := Live] else b
  }

  function CheckExpr(linear: set<nat>, e: Expr, b: Bindings): Checked
    decreases e, 0
  {
    match e
    case Leaf(_) => Quiet(b)
    case Use(x) => CheckUse(b, x)
    case Paren(inner) => CheckExpr(linear, inner, b)
    case Walk(operands) => CheckAll(linear, operands, b)
    case Short(lhs, rhs) =>
      var c := CheckExpr(linear, lhs, b);
      Then(c, CheckExpr(linear, rhs, c.b))
    case Call(callee, args) =>
      var c := CheckExpr(linear, callee, b);
      Then(c, CheckArgs(linear, args, c.b))
    case Throw(inner) => CheckExpr(linear, inner, b)
    case Try(inner) => CheckExpr(linear, inner, b)
    case If(cond, thenE, elseE) =>
      var c := CheckExpr(linear, cond, b);
      var t := CheckExpr(linear, thenE, c.b);
      var f := if elseE.Some? then CheckExpr(linear, elseE.value, c.b) else Quiet(c.b);
      var both := Then(Then(c, t), f);
      both.(b := Merge(f.b, t.b), diverging := both.diverging + Divergence(linear, c.b, [t.b, f.b]))
    case Match(scrutinee, arms) =>
      var c := CheckExpr(linear, scrutinee, b);
      var g := Then(c, CheckGuards(linear, arms, c.b));
      var bodies := CheckBodies(linear, arms, g.b);
      Checked(MergeAll(g.b, bodies.states), g.moves + bodies.moves,
              g.diverging + bodies.diverging + Divergence(linear, g.b, bodies.states))
    case Block(stmts) => CheckBlock(linear, stmts, b)
  }

  function CheckAll(linear: set<nat>, es: seq<Expr>, b: Bindings): Checked
    decreases es, 0
  {
    if es == [] then Quiet(b)
    else
      var n := |es| - 1;
      var c := CheckAll(linear, es[..n], b);
      Then(c, CheckExpr(linear, es[n], c.b))
  }

  function CheckArgs(linear: set<nat>, args: seq<Arg>, b: Bindings): Checked
    decreases args, 0
  {
    if args == [] then Quiet(b)
    else
      var n := |args| - 1;
      var c := CheckArgs(linear, args[..n], b);
      Then(c, CheckArg(linear, args[n], c.b))
  }

  function CheckArg(linear: set<nat>, a: Arg, b: Bindings): Checked
    decreases a, 0
  {
    if a.sinks then CheckMoved(linear, a.value, b) else CheckExpr(linear, a.value, b)
  }

  /** `check_expr`, then `consume_place`. */
  function CheckMoved(linear: set<nat>, e: Expr, b: Bindings): Checked
    decreases e, 1
  {
    var c := CheckExpr(linear, e, b);
    Then(c, Consume(c.b, Place(e)))
  }

  /** The guards are checked one after the other, as if each one ran. */
  function CheckGuards(linear: set<nat>, arms: seq<Arm>, b: Bindings): Checked
    decreases arms, 0
  {
    if arms == [] then Quiet(b)
    else
      var n := |arms| - 1;
      var c := CheckGuards(linear, arms[..n], b);
      Then(c, CheckGuard(linear, arms[n], c.b))
  }

  function CheckGuard(linear: set<nat>, arm: Arm, b: Bindings): Checked
    decreases arm, 0
  {
    if arm.guard.Some? then CheckExpr(linear, arm.guard.value, b) else Quiet(b)
  }

  datatype Bodies = Bodies(states: seq<Bindings>, moves: seq<Report>, diverging: set<Symbol>)

  /** Every arm body is checked from the same bindings. */
  function CheckBodies(linear: set<nat>, arms: seq<Arm>, b: Bindings): (r: Bodies)
    ensures |r.states| == |arms|
    decreases arms, 0
  {
    if arms == [] then Bodies([], [], {})
    else
      var n := |arms| - 1;
      var p := CheckBodies(linear, arms[..n], b);
      var c := CheckBody(linear, arms[n], b);
      Bodies(p.states + [c.b], p.moves + c.moves, p.diverging + c.diverging)
  }

  function CheckBody(linear: set<nat>, arm: Arm, b: Bindings): Checked
    decreases arm, 0
  {
    CheckExpr(linear, arm.body, b)
  }

  function CheckBlock(linear: set<nat>, stmts: seq<Stmt>, b: Bindings): Checked
    decreases stmts, 0
  {
    if stmts == [] then Quiet(b)
    else
      var n := |stmts| - 1;
      var c := CheckBlock(linear, stmts[..n], b);
      Then(c, CheckStmt(linear, stmts[n], c.b))
  }

  function CheckStmt(linear: set<nat>, s: Stmt, b: Bindings): Checked
    decreases s, 0
  {
    match s
    case Bind(x, value) =>
      var c := if value.Some? then CheckMoved(linear, value.value, b) else Quiet(b);
      c.(b := Register(linear, c.b, x))
    case Do(e) => CheckExpr(linear, e, b)
    case Return(value) => if value.Some? then CheckMoved(linear, value.value, b) else Quiet(b)
    case Assign(x, rhs) =>
      var c := CheckExpr(linear, rhs, b);
      if x in c.b then c.(b := c.b[x := Live]) else c
    case AssignInto(target, rhs) =>
      var c := CheckExpr(linear, rhs, b);
      Then(c, CheckExpr(linear, target, c.b))
  }

  /** The linear bindings still live at the end of a function. */
  function Leaks(linear: set<nat>, b: Bindings): set<Symbol> {
    set x | x in b && b[x].Live? && IsLinear(linear, x)
  }
}
