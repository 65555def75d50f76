/** A linear local of an accepted body is moved exactly once on every path. */
module LinearOnce {
  import opened Wrappers
  import opened MoveSyntax
  import opened Ownership

  /** Neither leaves the function nor binds or reassigns `x`; what may be skipped does not move
      `x`.  With `idle`, `x` is not moved at all. */
  predicate Plain(e: Expr, x: Symbol, idle: bool)
    decreases e, 0
  {
    match e
    case Leaf(_) | Use(_) => true
    case Paren(inner) => Plain(inner, x, idle)
    case Walk(es) => forall o | o in es :: Plain(o, x, idle)
    case Short(lhs, rhs) => Plain(lhs, x, idle) && Plain(rhs, x, true)
    case Call(callee, args) => Plain(callee, x, idle) && forall a | a in args :: PlainArg(a, x, idle)
    case Throw(_) => false
    case Try(_) => false
    case If(cond, thenE, elseE) =>
      Plain(cond, x, idle) && Plain(thenE, x, idle) && (elseE.Some? ==> Plain(elseE.value, x, idle))
    case Match(scrutinee, arms) => Plain(scrutinee, x, idle) && forall a | a in arms :: PlainArm(a, x, idle)
    case Block(stmts) => forall s | s in stmts :: PlainStmt(s, x, idle)
  }

  predicate PlainArg(a: Arg, x: Symbol, idle: bool)
    decreases a, 0
  {
    if a.sinks then PlainMoved(a.value, x, idle) else Plain(a.value, x, idle)
  }

  predicate PlainMoved(e: Expr, x: Symbol, idle: bool)
    decreases e, 1
  {
    Plain(e, x, idle) && (idle ==> Place(e) != Some(x))
  }

  predicate PlainArm(a: Arm, x: Symbol, idle: bool)
    decreases a, 0
  {
    Plain(a.body, x, idle) && (a.guard.Some? ==> Plain(a.guard.value, x, true))
  }

  predicate PlainStmt(s: Stmt, x: Symbol, idle: bool)
    decreases s, 0
  {
    match s
    case Bind(y, value) => y != x && (value.Some? ==> PlainMoved(value.value, x, idle))
    case Do(e) => Plain(e, x, idle)
    case Return(_) => false
    case Assign(y, rhs) => y != x && Plain(rhs, x, idle)
    case AssignInto(target, rhs) => Plain(target, x, idle) && Plain(rhs, x, idle)
  }

  // ---------------------------------------------------------------- counting

  /** How often `x` is moved. */
  function Moves(trace: seq<Event>, x: Symbol): nat {
    if trace == [] then 0
    else
      var n := |trace| - 1;
      Moves(trace[..n], x) + if trace[n] == Move(x) then 1 else 0
  }

  lemma MovesSnoc(trace: seq<Event>, e: Event, x: Symbol)
    ensures Moves(trace + [e], x) == Moves(trace, x) + if e == Move(x) then 1 else 0
  {
    assert (trace + [e])[..|trace + [e]| - 1] == trace;
  }

  /** The run goes on, and `x` has been moved once if it is marked as consumed, else never. */
  predicate Tally(b: Bindings, r: Run, x: Symbol) {
    !r.done && Moves(r.trace, x) == if Gone(b, x) then 1 else 0
  }

  /** Nothing was reported that concerns `x`. */
  predicate Clean(c: Checked, x: Symbol) { c.moves == [] && x !in c.diverging }

  /** What code between `b` and `c` keeps about `x`. */
  predicate Keeps(b: Bindings, c: Bindings, x: Symbol, idle: bool) {
    && (x in b ==> x in c) && (Gone(b, x) ==> Gone(c, x))
    && (idle ==> (Gone(b, x) <==> Gone(c, x)))
  }

  /** The setting of every lemma below: `x` is linear and known, or idle. */
  predicate Ready(linear: set<nat>, x: Symbol, idle: bool, b: Bindings, r: Run) {
    IsLinear(linear, x) && (idle || x in b) && Tally(b, r, x)
  }

  predicate Tallied(b: Bindings, c: Bindings, r: Run, x: Symbol, idle: bool) {
    Tally(c, r, x) && Keeps(b, c, x, idle)
  }

  lemma ReadTallied(b: Bindings, r: Run, x: Symbol, y: Symbol, idle: bool)
    requires Tally(b, r, x)
    ensures Tallied(b, b, Log(r, Read(y)), x, idle)
  {
    MovesSnoc(r.trace, Read(y), x);
  }

  lemma FreshTallied(b: Bindings, c: Bindings, d: Bindings, r: Run, x: Symbol, y: Symbol, idle: bool)
    requires Tallied(b, c, r, x, idle) && y != x
    requires (x in c ==> x in d) && (Gone(c, x) <==> Gone(d, x))
    ensures Tallied(b, d, Log(r, Fresh(y)), x, idle)
  {
    MovesSnoc(r.trace, Fresh(y), x);
  }

  lemma ConsumeTallied(b: Bindings, r: Run, x: Symbol, y: Option<Symbol>, idle: bool)
    requires Tally(b, r, x) && Consume(b, y).moves == [] && (idle ==> y != Some(x))
    ensures Tallied(b, Consume(b, y).b, LogMove(r, y), x, idle)
  {
    if y.Some? { MovesSnoc(r.trace, Move(y.value), x); }
  }

  lemma {:induction false} ExprTallied(linear: set<nat>, x: Symbol, idle: bool, e: Expr, b: Bindings, r: Run)
    requires Plain(e, x, idle) && Ready(linear, x, idle, b, r) && Clean(CheckExpr(linear, e, b), x)
    ensures Tallied(b, CheckExpr(linear, e, b).b, RunExpr(e, r), x, idle)
    decreases e, 1
  {
    match e {
      case Leaf(_) =>
      case Use(y) => ReadTallied(b, r, x, y, idle);
      case Paren(inner) => ExprTallied(linear, x, idle, inner, b, r);
      case Walk(es) => AllTallied(linear, x, idle, es, b, r);
      case Short(lhs, rhs) =>
        ExprTallied(linear, x, idle, lhs, b, r);
        ExprTallied(linear, x, true, rhs, CheckExpr(linear, lhs, b).b, Picked(RunExpr(lhs, r)));
      case Call(callee, args) =>
        ExprTallied(linear, x, idle, callee, b, r);
        ArgsTallied(linear, x, idle, args, CheckExpr(linear, callee, b).b, RunExpr(callee, r));
      case If(_, _, _) => IfTallied(linear, x, idle, e, b, r);
      case Match(_, _) => MatchTallied(linear, x, idle, e, b, r);
      case Block(stmts) => BlockTallied(linear, x, idle, stmts, b, r);
    }
  }

  lemma {:induction false} IfTallied(linear: set<nat>, x: Symbol, idle: bool, e: Expr, b: Bindings, r: Run)
    requires e.If? && Plain(e, x, idle) && Ready(linear, x, idle, b, r) && Clean(CheckExpr(linear, e, b), x)
    ensures Tallied(b, CheckExpr(linear, e, b).b, RunExpr(e, r), x, idle)
    decreases e, 0
  {
    ExprTallied(linear, x, idle, e.cond, b, r);
    var c, r1 := CheckExpr(linear, e.cond, b), Picked(RunExpr(e.cond, r));
    var t := CheckExpr(linear, e.thenE, c.b);
    var f := if e.elseE.Some? then CheckExpr(linear, e.elseE.value, c.b) else Quiet(c.b);
    ExprTallied(linear, x, idle, e.thenE, c.b, r1);
    if e.elseE.Some? { ExprTallied(linear, x, idle, e.elseE.value, c.b, r1); }
    BranchesAgree(linear, c.b, [t.b, f.b], x, idle);
    assert [t.b, f.b][0] == t.b && [t.b, f.b][1] == f.b;
  }

  /** Where no divergence is reported, the branches agree about `x`. */
  lemma BranchesAgree(linear: set<nat>, pre: Bindings, branches: seq<Bindings>, x: Symbol, idle: bool)
    requires IsLinear(linear, x) && (idle || x in pre) && x !in Divergence(linear, pre, branches)
    requires forall i | 0 <= i < |branches| :: Keeps(pre, branches[i], x, idle)
    ensures forall i, j | 0 <= i < |branches| && 0 <= j < |branches| :: Gone(branches[i], x) <==> Gone(branches[j], x)
  {
  }

  lemma {:induction false} MatchTallied(linear: set<nat>, x: Symbol, idle: bool, e: Expr, b: Bindings, r: Run)
    requires e.Match? && Plain(e, x, idle) && Ready(linear, x, idle, b, r) && Clean(CheckExpr(linear, e, b), x)
    ensures Tallied(b, CheckExpr(linear, e, b).b, RunExpr(e, r), x, idle)
    decreases e, 0
  {
    ExprTallied(linear, x, idle, e.scrutinee, b, r);
    var c, r1 := CheckExpr(linear, e.scrutinee, b), RunExpr(e.scrutinee, r);
    var g := CheckGuards(linear, e.arms, c.b);
    GuardAt(linear, x, idle, e.arms, c.b, r1, |e.arms|);
    assert e.arms[..|e.arms|] == e.arms && e.arms[0..] == e.arms;
    var bodies := CheckBodies(linear, e.arms, g.b);
    forall i | 0 <= i < |e.arms|
      ensures Keeps(g.b, bodies.states[i], x, idle)
    {
      BodyAt(linear, x, idle, e.arms, g.b, r1, i);
    }
    BranchesAgree(linear, g.b, bodies.states, x, idle);
    ArmsTallied(linear, x, idle, e.arms, 0, c.b, r1);
  }

  /** The guards before arm `k` do not move `x`. */
  lemma {:induction false} GuardAt(linear: set<nat>, x: Symbol, idle: bool, arms: seq<Arm>, b: Bindings, r: Run, k: nat)
    requires k <= |arms| && (forall a | a in arms :: PlainArm(a, x, idle))
    requires Ready(linear, x, idle, b, r) && Clean(CheckGuards(linear, arms, b), x)
    ensures var here := CheckGuards(linear, arms[..k], b).b;
      && Keeps(b, here, x, true)
      && (k < |arms| ==> Clean(CheckGuard(linear, arms[k], here), x))
    decreases arms, |arms|
  {
    if arms != [] {
      var n := |arms| - 1;
      GuardAt(linear, x, idle, arms[..n], b, r, if k < n then k else n);
      assert arms[..n][..n] == arms[..n];
      if k < n {
        assert arms[..n][..k] == arms[..k];
      } else if k > n {
        assert arms[..k] == arms;
        GuardTallied(linear, x, idle, arms[n], CheckGuards(linear, arms[..n], b).b, r);
      }
    }
  }

  lemma {:induction false} GuardTallied(linear: set<nat>, x: Symbol, idle: bool, arm: Arm, b: Bindings, r: Run)
    requires PlainArm(arm, x, idle) && Ready(linear, x, idle, b, r) && Clean(CheckGuard(linear, arm, b), x)
    ensures Tallied(b, CheckGuard(linear, arm, b).b, RunGuard(arm, r), x, true)
    decreases arm, 2
  {
    if arm.guard.Some? { ExprTallied(linear, x, true, arm.guard.value, b, r); }
  }

  lemma {:induction false} BodyAt(linear: set<nat>, x: Symbol, idle: bool, arms: seq<Arm>, b: Bindings, r: Run, k: nat)
    requires k < |arms| && (forall a | a in arms :: PlainArm(a, x, idle)) && Ready(linear, x, idle, b, r)
    requires var bodies := CheckBodies(linear, arms, b); bodies.moves == [] && x !in bodies.diverging
    ensures Tallied(b, CheckBodies(linear, arms, b).states[k], RunBody(arms[k], r), x, idle)
    decreases arms, |arms|
  {
    var n := |arms| - 1;
    if k < n {
      BodyAt(linear, x, idle, arms[..n], b, r, k);
    } else {
      BodyTallied(linear, x, idle, arms[n], b, r);
    }
  }

  lemma {:induction false} BodyTallied(linear: set<nat>, x: Symbol, idle: bool, arm: Arm, b: Bindings, r: Run)
    requires PlainArm(arm, x, idle) && Ready(linear, x, idle, b, r) && Clean(CheckBody(linear, arm, b), x)
    ensures Tallied(b, CheckBody(linear, arm, b).b, RunBody(arm, r), x, idle)
    decreases arm, 2
  {
    ExprTallied(linear, x, idle, arm.body, b, r);
  }

  /** From arm `k` on: some arm is taken, and its body leaves the tally of the merged bindings. */
  lemma {:induction false} ArmsTallied(linear: set<nat>, x: Symbol, idle: bool, arms: seq<Arm>, k: nat, b: Bindings, r: Run)
    requires (k < |arms| || (k == 0 && arms == [])) && (forall a | a in arms :: PlainArm(a, x, idle))
    requires Ready(linear, x, idle, b, r) && Clean(CheckGuards(linear, arms, b), x)
    requires var g := CheckGuards(linear, arms, b).b; var bodies := CheckBodies(linear, arms, g);
      && Keeps(b, g, x, true) && bodies.moves == [] && x !in bodies.diverging
      && x !in Divergence(linear, g, bodies.states)
    ensures var g := CheckGuards(linear, arms, b).b;
      Tally(MergeAll(g, CheckBodies(linear, arms, g).states), RunArms(arms[k..], r), x)
    decreases arms, |arms| + 2, |arms| - k
  {
    if k < |arms| {
      var g := CheckGuards(linear, arms, b).b;
      var here := CheckGuards(linear, arms[..k], b).b;
      var r0 := if k + 1 < |arms| then Picked(r) else r;
      GuardAt(linear, x, idle, arms, b, r, k);
      GuardTallied(linear, x, idle, arms[k], here, r0);
      var r1 := RunGuard(arms[k], r0);
      if k + 1 < |arms| {
        ArmsTallied(linear, x, idle, arms, k + 1, b, Picked(r));
        ArmsTallied(linear, x, idle, arms, k + 1, b, Picked(r1));
      }
      BodyMerged(linear, x, idle, arms, g, r1, k);
      BodyMerged(linear, x, idle, arms, g, Picked(r1), k);
      ArmsTurn(arms, k, r, r1);
    }
  }

  lemma {:induction false} BodyMerged(linear: set<nat>, x: Symbol, idle: bool, arms: seq<Arm>, g: Bindings, r: Run, k: nat)
    requires k < |arms| && (forall a | a in arms :: PlainArm(a, x, idle)) && Ready(linear, x, idle, g, r)
    requires var bodies := CheckBodies(linear, arms, g);
      bodies.moves == [] && x !in bodies.diverging && x !in Divergence(linear, g, bodies.states)
    ensures Tally(MergeAll(g, CheckBodies(linear, arms, g).states), RunBody(arms[k], r), x)
    decreases arms, |arms| + 1
  {
    var states := CheckBodies(linear, arms, g).states;
    forall i | 0 <= i < |arms|
      ensures Keeps(g, states[i], x, idle)
    {
      BodyAt(linear, x, idle, arms, g, r, i);
    }
    BranchesAgree(linear, g, states, x, idle);
    BodyAt(linear, x, idle, arms, g, r, k);
  }

  lemma {:induction false} AllTallied(linear: set<nat>, x: Symbol, idle: bool, es: seq<Expr>, b: Bindings, r: Run)
    requires (forall o | o in es :: Plain(o, x, idle)) && Ready(linear, x, idle, b, r) && Clean(CheckAll(linear, es, b), x)
    ensures Tallied(b, CheckAll(linear, es, b).b, RunAll(es, r), x, idle)
    decreases es, 0
  {
    if es != [] {
      var n := |es| - 1;
      AllTallied(linear, x, idle, es[..n], b, r);
      ExprTallied(linear, x, idle, es[n], CheckAll(linear, es[..n], b).b, RunAll(es[..n], r));
    }
  }

  lemma {:induction false} ArgsTallied(linear: set<nat>, x: Symbol, idle: bool, args: seq<Arg>, b: Bindings, r: Run)
    requires (forall a | a in args :: PlainArg(a, x, idle)) && Ready(linear, x, idle, b, r)
    requires Clean(CheckArgs(linear, args, b), x)
    ensures Tallied(b, CheckArgs(linear, args, b).b, RunArgs(args, r), x, idle)
    decreases args, 0
  {
    if args != [] {
      var n := |args| - 1;
      ArgsTallied(linear, x, idle, args[..n], b, r);
      ArgTallied(linear, x, idle, args[n], CheckArgs(linear, args[..n], b).b, RunArgs(args[..n], r));
    }
  }

  lemma {:induction false} ArgTallied(linear: set<nat>, x: Symbol, idle: bool, a: Arg, b: Bindings, r: Run)
    requires PlainArg(a, x, idle) && Ready(linear, x, idle, b, r) && Clean(CheckArg(linear, a, b), x)
    ensures Tallied(b, CheckArg(linear, a, b).b, RunArg(a, r), x, idle)
    decreases a, 3
  {
    if a.sinks { MovedTallied(linear, x, idle, a.value, b, r); } else { ExprTallied(linear, x, idle, a.value, b, r); }
  }

  lemma {:induction false} MovedTallied(linear: set<nat>, x: Symbol, idle: bool, e: Expr, b: Bindings, r: Run)
    requires PlainMoved(e, x, idle) && Ready(linear, x, idle, b, r) && Clean(CheckMoved(linear, e, b), x)
    ensures Tallied(b, CheckMoved(linear, e, b).b, RunMoved(e, r), x, idle)
    decreases e, 2
  {
    ExprTallied(linear, x, idle, e, b, r);
    ConsumeTallied(CheckExpr(linear, e, b).b, RunExpr(e, r), x, Place(e), idle);
  }

  lemma {:induction false} BlockTallied(linear: set<nat>, x: Symbol, idle: bool, stmts: seq<Stmt>, b: Bindings, r: Run)
    requires (forall s | s in stmts :: PlainStmt(s, x, idle)) && Ready(linear, x, idle, b, r)
    requires Clean(CheckBlock(linear, stmts, b), x)
    ensures Tallied(b, CheckBlock(linear, stmts, b).b, RunBlock(stmts, r), x, idle)
    decreases stmts, 0
  {
    if stmts != [] {
      var n := |stmts| - 1;
      BlockTallied(linear, x, idle, stmts[..n], b, r);
      StmtTallied(linear, x, idle, stmts[n], CheckBlock(linear, stmts[..n], b).b, RunBlock(stmts[..n], r));
    }
  }

  lemma {:induction false} StmtTallied(linear: set<nat>, x: Symbol, idle: bool, s: Stmt, b: Bindings, r: Run)
    requires PlainStmt(s, x, idle) && Ready(linear, x, idle, b, r) && Clean(CheckStmt(linear, s, b), x)
    ensures Tallied(b, CheckStmt(linear, s, b).b, RunStmt(s, r), x, idle)
    decreases s, 0
  {
    match s {
      case Bind(y, value) =>
        if value.Some? {
          MovedTallied(linear, x, idle, value.value, b, r);
          var c := CheckMoved(linear, value.value, b).b;
          FreshTallied(b, c, Register(linear, c, y), RunMoved(value.value, r), x, y, idle);
        } else {
          FreshTallied(b, b, Register(linear, b, y), r, x, y, idle);
        }
      case Do(e) => ExprTallied(linear, x, idle, e, b, r);
      case Assign(y, rhs) =>
        ExprTallied(linear, x, idle, rhs, b, r);
        FreshTallied(b, CheckExpr(linear, rhs, b).b, CheckStmt(linear, s, b).b, RunExpr(rhs, r), x, y, idle);
      case AssignInto(target, rhs) =>
        ExprTallied(linear, x, idle, rhs, b, r);
        ExprTallied(linear, x, idle, target, CheckExpr(linear, rhs, b).b, RunExpr(rhs, r));
    }
  }

  // --------------------------------------------------------------- the theorem

  /** The body binds `x` once, at top level; before that it does not move `x`, afterwards it does
      not rebind it, and it returns at most at its end. */
  predicate BindsOnce(stmts: seq<Stmt>, at: nat, x: Symbol) {
    && at < |stmts|
    && (forall i | 0 <= i < at :: PlainStmt(stmts[i], x, true))
    && stmts[at].Bind? && stmts[at].x == x
    && (stmts[at].value.Some? ==> PlainMoved(stmts[at].value.value, x, true))
    && (forall i | at < i < |stmts| :: PlainStmt(stmts[i], x, false) || (i == |stmts| - 1 && IsTailReturn(stmts[i], x)))
  }

  predicate IsTailReturn(s: Stmt, x: Symbol) {
    s.Return? && (s.value.Some? ==> PlainMoved(s.value.value, x, false))
  }

  /** Nothing reported about moves, about `x` at a join, or about `x` at the end. */
  predicate Accepts(linear: set<nat>, stmts: seq<Stmt>, x: Symbol) {
    var c := CheckBlock(linear, stmts, map[]);
    Clean(c, x) && x !in Leaks(linear, c.b)
  }

  lemma {:induction false} PrefixClean(linear: set<nat>, stmts: seq<Stmt>, x: Symbol, n: nat)
    requires n <= |stmts| && Clean(CheckBlock(linear, stmts, map[]), x)
    ensures Clean(CheckBlock(linear, stmts[..n], map[]), x)
    decreases |stmts|
  {
    if n == |stmts| {
      assert stmts[..n] == stmts;
    } else {
      PrefixClean(linear, stmts[..|stmts| - 1], x, n);
      assert stmts[..|stmts| - 1][..n] == stmts[..n];
    }
  }

  lemma StmtClean(linear: set<nat>, stmts: seq<Stmt>, x: Symbol, n: nat)
    requires n < |stmts| && Clean(CheckBlock(linear, stmts, map[]), x)
    ensures var c := CheckBlock(linear, stmts[..n], map[]); var d := CheckStmt(linear, stmts[n], c.b);
      Clean(c, x) && Clean(d, x) && CheckBlock(linear, stmts[..n + 1], map[]).b == d.b
  {
    PrefixClean(linear, stmts, x, n + 1);
    assert stmts[..n + 1][..n] == stmts[..n];
  }

  /** After its binding, and before a tail return, `x` is known and tallied. */
  lemma {:induction false} TalliedAfter(linear: set<nat>, stmts: seq<Stmt>, at: nat, x: Symbol, r: Run, n: nat)
    requires BindsOnce(stmts, at, x) && IsLinear(linear, x) && r == Run([], false, r.picks)
    requires at < n <= |stmts| && (n == |stmts| ==> !stmts[n - 1].Return?)
    requires Clean(CheckBlock(linear, stmts, map[]), x)
    ensures var b := CheckBlock(linear, stmts[..n], map[]).b; x in b && Tally(b, RunBlock(stmts[..n], r), x)
    decreases n
  {
    var m := n - 1;
    StmtClean(linear, stmts, x, m);
    assert stmts[..n][..m] == stmts[..m];
    var c, r1 := CheckBlock(linear, stmts[..m], map[]).b, RunBlock(stmts[..m], r);
    if m == at {
      BlockTallied(linear, x, true, stmts[..at], map[], r);
      var value := stmts[at].value;
      if value.Some? { MovedTallied(linear, x, true, value.value, c, r1); }
      MovesSnoc((if value.Some? then RunMoved(value.value, r1) else r1).trace, Fresh(x), x);
    } else {
      TalliedAfter(linear, stmts, at, x, r, m);
      StmtTallied(linear, x, false, stmts[m], c, r1);
    }
  }

  /** On every path through an accepted body, the linear local `x` is moved exactly once. */
  lemma MovedExactlyOnce(linear: set<nat>, stmts: seq<Stmt>, at: nat, x: Symbol, picks: seq<bool>)
    requires IsLinear(linear, x) && BindsOnce(stmts, at, x) && Accepts(linear, stmts, x)
    ensures Moves(RunBlock(stmts, Run([], false, picks)).trace, x) == 1
  {
    var r, n := Run([], false, picks), |stmts|;
    if stmts[n - 1].Return? {
      TalliedAfter(linear, stmts, at, x, r, n - 1);
      StmtClean(linear, stmts, x, n - 1);
      assert stmts[..n] == stmts;
      var value, c, r1 := stmts[n - 1].value, CheckBlock(linear, stmts[..n - 1], map[]).b, RunBlock(stmts[..n - 1], r);
      if value.Some? { MovedTallied(linear, x, false, value.value, c, r1); }
    } else {
      TalliedAfter(linear, stmts, at, x, r, n);
      assert stmts[..n] == stmts;
    }
  }
}
