/** A body on which the checker reports no move error never reuses a moved binding, on any path;
    on code without branches, the checker reports exactly the errors that happen. */
module OwnershipSound {
  import opened Wrappers
  import opened MoveSyntax
  import opened Ownership

  // ------------------------------------------------------------ supported

  /** No struct is bound and no tracked binding is reassigned inside. */
  predicate Calm(e: Expr)
    decreases e
  {
    match e
    case Leaf(_) | Use(_) => true
    case Paren(inner) => Calm(inner)
    case Walk(es) => forall x | x in es :: Calm(x)
    case Short(lhs, rhs) => Calm(lhs) && Calm(rhs)
    case Call(callee, args) => Calm(callee) && forall a | a in args :: CalmArg(a)
    case Throw(inner) => Calm(inner)
    case Try(inner) => Calm(inner)
    case If(cond, thenE, elseE) => Calm(cond) && Calm(thenE) && (elseE.Some? ==> Calm(elseE.value))
    case Match(scrutinee, arms) => Calm(scrutinee) && forall a | a in arms :: CalmArm(a)
    case Block(stmts) => forall s | s in stmts :: CalmStmt(s)
  }

  predicate CalmStmt(s: Stmt)
    decreases s
  {
    match s
    case Bind(x, value) => !x.ty.Struct? && (value.Some? ==> Calm(value.value))
    case Do(e) => Calm(e)
    case Return(value) => value.Some? ==> Calm(value.value)
    case Assign(x, rhs) => !Tracked(x) && Calm(rhs)
    case AssignInto(target, rhs) => Calm(target) && Calm(rhs)
  }

  predicate CalmArg(a: Arg)
    decreases a
  {
    Calm(a.value)
  }

  predicate CalmArm(a: Arm)
    decreases a
  {
    Calm(a.body) && (a.guard.Some? ==> Calm(a.guard.value))
  }

  /** What may be skipped is calm. */
  predicate Supported(e: Expr)
    decreases e
  {
    match e
    case Leaf(_) | Use(_) => true
    case Paren(inner) => Supported(inner)
    case Walk(es) => forall x | x in es :: Supported(x)
    case Short(lhs, rhs) => Supported(lhs) && Supported(rhs) && Calm(rhs)
    case Call(callee, args) => Supported(callee) && forall a | a in args :: SupportedArg(a)
    case Throw(inner) => Supported(inner)
    case Try(inner) => Supported(inner)
    case If(cond, thenE, elseE) => Supported(cond) && Supported(thenE) && (elseE.Some? ==> Supported(elseE.value))
    case Match(scrutinee, arms) => Supported(scrutinee) && forall a | a in arms :: SupportedArm(a)
    case Block(stmts) => forall s | s in stmts :: SupportedStmt(s)
  }

  predicate SupportedArg(a: Arg)
    decreases a
  {
    Supported(a.value)
  }

  predicate SupportedArm(a: Arm)
    decreases a
  {
    Supported(a.body) && (a.guard.Some? ==> Supported(a.guard.value) && Calm(a.guard.value))
  }

  predicate SupportedStmt(s: Stmt)
    decreases s
  {
    match s
    case Bind(_, value) => value.Some? ==> Supported(value.value)
    case Do(e) => Supported(e)
    case Return(value) => value.Some? ==> Supported(value.value)
    case Assign(_, rhs) => Supported(rhs)
    case AssignInto(target, rhs) => Supported(target) && Supported(rhs)
  }

  // ------------------------------------------------- calm code only consumes

  ghost predicate Grows(b: Bindings, c: Bindings) { forall x :: Tracked(x) && Gone(b, x) ==> Gone(c, x) }

  lemma {:induction false} CalmGrows(linear: set<nat>, e: Expr, b: Bindings)
    requires Calm(e)
    ensures Grows(b, CheckExpr(linear, e, b).b)
    decreases e, 1
  {
    match e {
      case Leaf(_) =>
      case Use(_) =>
      case Paren(inner) => CalmGrows(linear, inner, b);
      case Walk(es) => CalmAllGrows(linear, es, b);
      case Short(lhs, rhs) =>
        CalmGrows(linear, lhs, b);
        CalmGrows(linear, rhs, CheckExpr(linear, lhs, b).b);
      case Call(callee, args) =>
        CalmGrows(linear, callee, b);
        CalmArgsGrow(linear, args, CheckExpr(linear, callee, b).b);
      case Throw(inner) => CalmGrows(linear, inner, b);
      case Try(inner) => CalmGrows(linear, inner, b);
      case If(cond, thenE, elseE) =>
        CalmGrows(linear, cond, b);
        CalmGrows(linear, thenE, CheckExpr(linear, cond, b).b);
      case Match(scrutinee, arms) =>
        CalmGrows(linear, scrutinee, b);
        CalmGuardsGrow(linear, arms, CheckExpr(linear, scrutinee, b).b);
      case Block(stmts) => CalmBlockGrows(linear, stmts, b);
    }
  }

  lemma {:induction false} CalmBlockGrows(linear: set<nat>, stmts: seq<Stmt>, b: Bindings)
    requires forall s | s in stmts :: CalmStmt(s)
    ensures Grows(b, CheckBlock(linear, stmts, b).b)
    decreases stmts, 0
  {
    if stmts != [] {
      var n := |stmts| - 1;
      CalmBlockGrows(linear, stmts[..n], b);
      CalmStmtGrows(linear, stmts[n], CheckBlock(linear, stmts[..n], b).b);
    }
  }

  lemma {:induction false} CalmStmtGrows(linear: set<nat>, s: Stmt, b: Bindings)
    requires CalmStmt(s)
    ensures Grows(b, CheckStmt(linear, s, b).b)
    decreases s, 2
  {
    match s {
      case Bind(_, value) => if value.Some? { CalmGrows(linear, value.value, b); }
      case Do(e) => CalmGrows(linear, e, b);
      case Return(value) => if value.Some? { CalmGrows(linear, value.value, b); }
      case Assign(_, rhs) => CalmGrows(linear, rhs, b);
      case AssignInto(target, rhs) =>
        CalmGrows(linear, rhs, b);
        CalmGrows(linear, target, CheckExpr(linear, rhs, b).b);
    }
  }

  lemma {:induction false} CalmAllGrows(linear: set<nat>, es: seq<Expr>, b: Bindings)
    requires forall x | x in es :: Calm(x)
    ensures Grows(b, CheckAll(linear, es, b).b)
    decreases es, 0
  {
    if es != [] {
      var n := |es| - 1;
      CalmAllGrows(linear, es[..n], b);
      CalmGrows(linear, es[n], CheckAll(linear, es[..n], b).b);
    }
  }

  lemma {:induction false} CalmArgsGrow(linear: set<nat>, args: seq<Arg>, b: Bindings)
    requires forall a | a in args :: CalmArg(a)
    ensures Grows(b, CheckArgs(linear, args, b).b)
    decreases args, 0
  {
    if args != [] {
      var n := |args| - 1;
      CalmArgsGrow(linear, args[..n], b);
      CalmArgGrows(linear, args[n], CheckArgs(linear, args[..n], b).b);
    }
  }

  lemma {:induction false} CalmArgGrows(linear: set<nat>, a: Arg, b: Bindings)
    requires CalmArg(a)
    ensures Grows(b, CheckArg(linear, a, b).b)
    decreases a, 2
  {
    CalmGrows(linear, a.value, b);
  }

  lemma {:induction false} CalmGuardsGrow(linear: set<nat>, arms: seq<Arm>, b: Bindings)
    requires forall a | a in arms :: a.guard.Some? ==> Calm(a.guard.value)
    ensures Grows(b, CheckGuards(linear, arms, b).b)
    decreases arms, 0
  {
    if arms != [] {
      var n := |arms| - 1;
      CalmGuardsGrow(linear, arms[..n], b);
      CalmGuardGrows(linear, arms[n], CheckGuards(linear, arms[..n], b).b);
    }
  }

  lemma {:induction false} CalmGuardGrows(linear: set<nat>, arm: Arm, b: Bindings)
    requires arm.guard.Some? ==> Calm(arm.guard.value)
    ensures Grows(b, CheckGuard(linear, arm, b).b)
    decreases arm, 2
  {
    if arm.guard.Some? { CalmGrows(linear, arm.guard.value, b); }
  }

  // ------------------------------------------------------------- soundness

  /** Everything moved on this path is marked as consumed. */
  ghost predicate Covers(b: Bindings, trace: seq<Event>) {
    forall x :: Tracked(x) && Moved(trace, x) ==> Gone(b, x)
  }

  /** Fault-free so far, and covered unless the function has been left. */
  ghost predicate Good(b: Bindings, r: Run) {
    Faults(r.trace) == [] && (r.done || Covers(b, r.trace))
  }

  lemma TraceGrows(trace: seq<Event>, e: Event)
    ensures Faults(trace + [e]) == Faults(trace) + FaultsAt(trace, e)
    ensures forall x :: Moved(trace + [e], x) <==>
      (if e.x == x then !e.Fresh? && (e.Move? || Moved(trace, x)) else Moved(trace, x))
  {
    assert (trace + [e])[..|trace + [e]| - 1] == trace;
  }

  lemma ReadGood(b: Bindings, r: Run, x: Symbol)
    requires Good(b, r) && CheckUse(b, x).moves == []
    ensures Good(b, Log(r, Read(x)))
  {
    if !r.done { TraceGrows(r.trace, Read(x)); }
  }

  lemma MoveGood(b: Bindings, r: Run, x: Option<Symbol>)
    requires Good(b, r) && Consume(b, x).moves == [] && (x.Some? ==> Tracked(x.value))
    ensures Good(Consume(b, x).b, LogMove(r, x))
  {
    if x.Some? && !r.done { TraceGrows(r.trace, Move(x.value)); }
  }

  /** A binding that has just been bound or reassigned may be marked live. */
  lemma FreshGood(b: Bindings, r: Run, x: Symbol, c: Bindings)
    requires Good(b, r) && forall y :: y != x && Gone(b, y) ==> Gone(c, y)
    ensures Good(c, Log(r, Fresh(x)))
  {
    if !r.done { TraceGrows(r.trace, Fresh(x)); }
  }

  lemma GoodGrows(b: Bindings, c: Bindings, r: Run)
    requires Good(b, r) && Grows(b, c)
    ensures Good(c, r)
  {
  }

  lemma {:induction false} ExprSound(linear: set<nat>, e: Expr, b: Bindings, r: Run)
    requires Supported(e) && Good(b, r) && CheckExpr(linear, e, b).moves == []
    ensures Good(CheckExpr(linear, e, b).b, RunExpr(e, r))
    decreases e, 1
  {
    if !r.done {
      match e {
        case Leaf(_) =>
        case Use(x) => ReadGood(b, r, x);
        case Paren(inner) => ExprSound(linear, inner, b, r);
        case Walk(es) => AllSound(linear, es, b, r);
        case Short(_, _) => ShortSound(linear, e, b, r);
        case Call(callee, args) =>
          ExprSound(linear, callee, b, r);
          ArgsSound(linear, args, CheckExpr(linear, callee, b).b, RunExpr(callee, r));
        case Throw(inner) => ExprSound(linear, inner, b, r);
        case Try(inner) => ExprSound(linear, inner, b, r);
        case If(_, _, _) => IfSound(linear, e, b, r);
        case Match(_, _) => MatchSound(linear, e, b, r);
        case Block(stmts) => BlockSound(linear, stmts, b, r);
      }
    }
  }

  lemma {:induction false} ShortSound(linear: set<nat>, e: Expr, b: Bindings, r: Run)
    requires e.Short? && Supported(e) && Good(b, r) && CheckExpr(linear, e, b).moves == []
    ensures Good(CheckExpr(linear, e, b).b, RunExpr(e, r))
    decreases e, 0
  {
    ExprSound(linear, e.lhs, b, r);
    var c, r1 := CheckExpr(linear, e.lhs, b), RunExpr(e.lhs, r);
    ExprSound(linear, e.rhs, c.b, Picked(r1));
    CalmGrows(linear, e.rhs, c.b);
  }

  lemma {:induction false} IfSound(linear: set<nat>, e: Expr, b: Bindings, r: Run)
    requires e.If? && Supported(e) && Good(b, r) && CheckExpr(linear, e, b).moves == []
    ensures Good(CheckExpr(linear, e, b).b, RunExpr(e, r))
    decreases e, 0
  {
    ExprSound(linear, e.cond, b, r);
    var c, r1 := CheckExpr(linear, e.cond, b), RunExpr(e.cond, r);
    var t := CheckExpr(linear, e.thenE, c.b);
    var f := if e.elseE.Some? then CheckExpr(linear, e.elseE.value, c.b) else Quiet(c.b);
    ExprSound(linear, e.thenE, c.b, Picked(r1));
    if e.elseE.Some? { ExprSound(linear, e.elseE.value, c.b, Picked(r1)); }
    assert Grows(t.b, Merge(f.b, t.b)) && Grows(f.b, Merge(f.b, t.b));
  }

  lemma {:induction false} MatchSound(linear: set<nat>, e: Expr, b: Bindings, r: Run)
    requires e.Match? && Supported(e) && Good(b, r) && CheckExpr(linear, e, b).moves == []
    ensures Good(CheckExpr(linear, e, b).b, RunExpr(e, r))
    decreases e, 0
  {
    ExprSound(linear, e.scrutinee, b, r);
    var c := CheckExpr(linear, e.scrutinee, b);
    var g, bodies := CheckGuards(linear, e.arms, c.b), CheckBodies(linear, e.arms, CheckGuards(linear, e.arms, c.b).b);
    CalmGuardsGrow(linear, e.arms, c.b);
    var merged := MergeAll(g.b, bodies.states);
    forall i | 0 <= i < |e.arms|
      ensures Grows(bodies.states[i], merged)
    {
    }
    ArmsSound(linear, e.arms, 0, c.b, merged, RunExpr(e.scrutinee, r));
    assert e.arms[0..] == e.arms;
  }

  /** From arm `k` on, any arm may be selected after some of the guards. */
  lemma {:induction false} ArmsSound(linear: set<nat>, arms: seq<Arm>, k: nat, b: Bindings, merged: Bindings, r: Run)
    requires k <= |arms| && forall a | a in arms :: SupportedArm(a)
    requires CheckGuards(linear, arms, b).moves == []
    requires var g := CheckGuards(linear, arms, b).b; var bodies := CheckBodies(linear, arms, g);
      && bodies.moves == [] && Grows(g, merged)
      && forall i | 0 <= i < |arms| :: Grows(bodies.states[i], merged)
    requires Good(CheckGuards(linear, arms[..k], b).b, r)
    ensures Good(merged, RunArms(arms[k..], r))
    decreases arms, 1, |arms| - k
  {
    var g := CheckGuards(linear, arms, b).b;
    GuardsPrefix(linear, arms, b, k);
    if k < |arms| && !r.done {
      var arm := arms[k];
      var r0 := if k + 1 < |arms| then Picked(r) else r;
      var r1 := RunGuard(arm, r0);
      GuardTurnSound(linear, arms, k, b, r0);
      ArmsSound(linear, arms, k + 1, b, merged, Picked(r));
      ArmsSound(linear, arms, k + 1, b, merged, Picked(r1));
      BodySound(linear, arms, k, g, merged, r1);
      BodySound(linear, arms, k, g, merged, Picked(r1));
      ArmsTurn(arms, k, r, r1);
    }
  }

  lemma {:induction false} GuardTurnSound(linear: set<nat>, arms: seq<Arm>, k: nat, b: Bindings, r: Run)
    requires k < |arms| && forall a | a in arms :: SupportedArm(a)
    requires CheckGuards(linear, arms, b).moves == [] && Good(CheckGuards(linear, arms[..k], b).b, r)
    ensures var next := CheckGuards(linear, arms[..k + 1], b).b; Good(next, r) && Good(next, RunGuard(arms[k], r))
    ensures Good(CheckGuards(linear, arms, b).b, RunGuard(arms[k], r))
    decreases arms, 0, 1
  {
    var arm, here := arms[k], CheckGuards(linear, arms[..k], b).b;
    assert arm in arms;
    GuardsPrefix(linear, arms, b, k + 1);
    GuardsStep(linear, arms, b, k);
    CalmGuardGrows(linear, arm, here);
    GuardSound(linear, arm, here, r);
    GoodGrows(CheckGuards(linear, arms[..k + 1], b).b, CheckGuards(linear, arms, b).b, RunGuard(arm, r));
  }

  lemma {:induction false} GuardSound(linear: set<nat>, arm: Arm, b: Bindings, r: Run)
    requires SupportedArm(arm) && Good(b, r) && CheckGuard(linear, arm, b).moves == []
    ensures Good(CheckGuard(linear, arm, b).b, RunGuard(arm, r))
    decreases arm, 2
  {
    if arm.guard.Some? { ExprSound(linear, arm.guard.value, b, r); }
  }

  lemma {:induction false} BodySound(linear: set<nat>, arms: seq<Arm>, k: nat, b: Bindings, merged: Bindings, r: Run)
    requires k < |arms| && SupportedArm(arms[k]) && Good(b, r)
    requires var bodies := CheckBodies(linear, arms, b); bodies.moves == [] && Grows(bodies.states[k], merged)
    ensures Good(merged, RunBody(arms[k], r))
    decreases arms, 0
  {
    BodiesAt(linear, arms, b, k);
    TakenSound(linear, arms[k], b, r);
    GoodGrows(CheckBody(linear, arms[k], b).b, merged, RunBody(arms[k], r));
  }

  lemma {:induction false} TakenSound(linear: set<nat>, arm: Arm, b: Bindings, r: Run)
    requires SupportedArm(arm) && Good(b, r) && CheckBody(linear, arm, b).moves == []
    ensures Good(CheckBody(linear, arm, b).b, RunBody(arm, r))
    decreases arm, 2
  {
    ExprSound(linear, arm.body, b, r);
  }

  lemma GuardsStep(linear: set<nat>, arms: seq<Arm>, b: Bindings, k: nat)
    requires k < |arms|
    ensures var c := CheckGuards(linear, arms[..k], b);
      CheckGuards(linear, arms[..k + 1], b) == Then(c, CheckGuard(linear, arms[k], c.b))
  {
    assert arms[..k + 1][..k] == arms[..k];
  }

  lemma {:induction false} GuardsPrefix(linear: set<nat>, arms: seq<Arm>, b: Bindings, k: nat)
    requires k <= |arms| && CheckGuards(linear, arms, b).moves == []
    requires forall a | a in arms :: a.guard.Some? ==> Calm(a.guard.value)
    ensures CheckGuards(linear, arms[..k], b).moves == []
    ensures Grows(CheckGuards(linear, arms[..k], b).b, CheckGuards(linear, arms, b).b)
    decreases |arms|
  {
    if k == |arms| {
      assert arms[..k] == arms;
    } else {
      var n := |arms| - 1;
      GuardsPrefix(linear, arms[..n], b, k);
      assert arms[..n][..k] == arms[..k];
      CalmGuardGrows(linear, arms[n], CheckGuards(linear, arms[..n], b).b);
    }
  }

  lemma {:induction false} BodiesAt(linear: set<nat>, arms: seq<Arm>, b: Bindings, k: nat)
    requires k < |arms|
    ensures var all, c := CheckBodies(linear, arms, b), CheckBody(linear, arms[k], b);
      && all.states[k] == c.b && c.diverging <= all.diverging
      && (all.moves == [] ==> c.moves == [])
    decreases |arms|
  {
    var n := |arms| - 1;
    if k < n { BodiesAt(linear, arms[..n], b, k); }
  }

  lemma {:induction false} AllSound(linear: set<nat>, es: seq<Expr>, b: Bindings, r: Run)
    requires (forall x | x in es :: Supported(x)) && Good(b, r) && CheckAll(linear, es, b).moves == []
    ensures Good(CheckAll(linear, es, b).b, RunAll(es, r))
    decreases es, 0
  {
    if es != [] {
      var n := |es| - 1;
      AllSound(linear, es[..n], b, r);
      ExprSound(linear, es[n], CheckAll(linear, es[..n], b).b, RunAll(es[..n], r));
    }
  }

  lemma {:induction false} ArgsSound(linear: set<nat>, args: seq<Arg>, b: Bindings, r: Run)
    requires (forall a | a in args :: SupportedArg(a)) && Good(b, r) && CheckArgs(linear, args, b).moves == []
    ensures Good(CheckArgs(linear, args, b).b, RunArgs(args, r))
    decreases args, 0
  {
    if args != [] {
      var n := |args| - 1;
      ArgsSound(linear, args[..n], b, r);
      ArgSound(linear, args[n], CheckArgs(linear, args[..n], b).b, RunArgs(args[..n], r));
    }
  }

  lemma {:induction false} ArgSound(linear: set<nat>, a: Arg, b: Bindings, r: Run)
    requires SupportedArg(a) && Good(b, r) && CheckArg(linear, a, b).moves == []
    ensures Good(CheckArg(linear, a, b).b, RunArg(a, r))
    decreases a, 2
  {
    if a.sinks { MovedSound(linear, a.value, b, r); } else { ExprSound(linear, a.value, b, r); }
  }

  lemma {:induction false} MovedSound(linear: set<nat>, e: Expr, b: Bindings, r: Run)
    requires Supported(e) && Good(b, r) && CheckMoved(linear, e, b).moves == []
    ensures Good(CheckMoved(linear, e, b).b, RunMoved(e, r))
    decreases e, 2
  {
    ExprSound(linear, e, b, r);
    MoveGood(CheckExpr(linear, e, b).b, RunExpr(e, r), Place(e));
  }

  lemma {:induction false} BlockSound(linear: set<nat>, stmts: seq<Stmt>, b: Bindings, r: Run)
    requires (forall s | s in stmts :: SupportedStmt(s)) && Good(b, r) && CheckBlock(linear, stmts, b).moves == []
    ensures Good(CheckBlock(linear, stmts, b).b, RunBlock(stmts, r))
    decreases stmts, 0
  {
    if stmts != [] {
      var n := |stmts| - 1;
      BlockSound(linear, stmts[..n], b, r);
      StmtSound(linear, stmts[n], CheckBlock(linear, stmts[..n], b).b, RunBlock(stmts[..n], r));
    }
  }

  lemma {:induction false} StmtSound(linear: set<nat>, s: Stmt, b: Bindings, r: Run)
    requires SupportedStmt(s) && Good(b, r) && CheckStmt(linear, s, b).moves == []
    ensures Good(CheckStmt(linear, s, b).b, RunStmt(s, r))
    decreases s, 0
  {
    match s {
      case Bind(x, value) =>
        if value.Some? {
          MovedSound(linear, value.value, b, r);
          var c := CheckMoved(linear, value.value, b).b;
          FreshGood(c, RunMoved(value.value, r), x, Register(linear, c, x));
        } else {
          FreshGood(b, r, x, Register(linear, b, x));
        }
      case Do(e) => ExprSound(linear, e, b, r);
      case Return(value) => if value.Some? { MovedSound(linear, value.value, b, r); }
      case Assign(x, rhs) =>
        ExprSound(linear, rhs, b, r);
        FreshGood(CheckExpr(linear, rhs, b).b, RunExpr(rhs, r), x, CheckStmt(linear, s, b).b);
      case AssignInto(target, rhs) =>
        ExprSound(linear, rhs, b, r);
        ExprSound(linear, target, CheckExpr(linear, rhs, b).b, RunExpr(rhs, r));
    }
  }

  /** With no move error reported, no path through the body reads or moves a tracked binding
      that was moved and not bound or reassigned since. */
  lemma NoUseAfterMove(linear: set<nat>, body: Expr, picks: seq<bool>)
    requires Supported(body) && CheckExpr(linear, body, map[]).moves == []
    ensures forall i, j, x :: Tracked(x) ==> !ReusedAt(RunExpr(body, Run([], false, picks)).trace, i, j, x)
  {
    ExprSound(linear, body, map[], Run([], false, picks));
    FaultFreeIff(RunExpr(body, Run([], false, picks)).trace);
  }

  // ------------------------------------------------------------- its limits

  /** A function, or another name that is not tracked. */
  predicate IsPlain(f: Symbol) { f.kind.OtherKind? }

  /** `f(x)`, where `f` takes ownership. */
  function Take(f: Symbol, x: Symbol): Stmt { Do(Call(Use(f), [Arg(Use(x), true)])) }

  lemma TakeStep(linear: set<nat>, f: Symbol, x: Symbol, b: Bindings, r: Run)
    requires IsPlain(f) && Tracked(x) && !r.done
    ensures RunStmt(Take(f, x), r) == r.(trace := r.trace + [Read(f)] + [Read(x)] + [Move(x)])
    ensures !Gone(b, x) ==> CheckStmt(linear, Take(f, x), b) == Quiet(b[x := Consumed])
  {
    var args := [Arg(Use(x), true)];
    var r1 := Log(r, Read(f));
    assert args[..0] == [];
    assert RunExpr(Use(x), r1) == Log(r1, Read(x)) && Place(Use(x)) == Some(x);
    assert RunMoved(Use(x), r1) == LogMove(Log(r1, Read(x)), Some(x));
    assert RunArgs(args, r1) == RunArg(args[0], r1);
    assert RunExpr(Call(Use(f), args), r) == RunArgs(args, r1);
    assert CheckMoved(linear, Use(x), b) == Then(CheckUse(b, x), Consume(b, Some(x)));
    assert CheckArgs(linear, args, b) == Then(Quiet(b), CheckArg(linear, args[0], b));
    assert CheckExpr(linear, Call(Use(f), args), b) == Then(Quiet(b), CheckArgs(linear, args, b));
  }

  /** `c && { x = g(); true }`. */
  function MaybeRevive(c: Symbol, g: Symbol, x: Symbol): Stmt { Do(Short(Use(c), Revival(g, x))) }

  function Revival(g: Symbol, x: Symbol): Expr { Block([Assign(x, Call(Use(g), [])), Do(Leaf("true"))]) }

  lemma RevivalStep(linear: set<nat>, g: Symbol, x: Symbol, b: Bindings)
    requires IsPlain(g) && x in b
    ensures CheckExpr(linear, Revival(g, x), b) == Quiet(b[x := Live])
  {
    var first, last := Assign(x, Call(Use(g), [])), Do(Leaf("true"));
    var stmts := [first, last];
    assert CheckExpr(linear, Call(Use(g), []), b) == Then(Quiet(b), CheckArgs(linear, [], b));
    assert CheckStmt(linear, first, b) == Quiet(b[x := Live]);
    assert stmts[..1] == [first] && [first][..0] == [];
    assert CheckBlock(linear, [first], b) == Then(Quiet(b), CheckStmt(linear, first, b));
    assert CheckBlock(linear, stmts, b) == Then(Quiet(b[x := Live]), CheckStmt(linear, last, b[x := Live]));
  }

  lemma MaybeReviveStep(linear: set<nat>, c: Symbol, g: Symbol, x: Symbol, b: Bindings, r: Run)
    requires IsPlain(c) && IsPlain(g) && x in b && !r.done && !Next(r)
    ensures RunStmt(MaybeRevive(c, g, x), r) == Picked(r.(trace := r.trace + [Read(c)]))
    ensures CheckStmt(linear, MaybeRevive(c, g, x), b) == Quiet(b[x := Live])
  {
    RevivalStep(linear, g, x, b);
    assert RunExpr(Use(c), r) == Log(r, Read(c));
    assert RunExpr(Short(Use(c), Revival(g, x)), r) == Picked(Log(r, Read(c)));
    var known := CheckExpr(linear, Use(c), b);
    assert known == Quiet(b);
    assert CheckExpr(linear, Short(Use(c), Revival(g, x)), b) == Then(known, CheckExpr(linear, Revival(g, x), b));
  }

  /** `f(x); c && { x = g(); true }; f(x)`: the reassignment is counted although it may be skipped,
      so the second move is accepted, and on the path that skips it `x` is moved twice. */
  lemma SkippedReassignmentIsMissed(linear: set<nat>, f: Symbol, c: Symbol, g: Symbol, x: Symbol)
    requires IsPlain(f) && IsPlain(c) && IsPlain(g) && Tracked(x)
    ensures var body := [Take(f, x), MaybeRevive(c, g, x), Take(f, x)];
      && CheckBlock(linear, body, map[]).moves == []
      && Faults(RunBlock(body, Run([], false, [false])).trace) == [UsedAfterMove(x), MovedTwice(x)]
  {
    var empty: Bindings := map[];
    var r := Run([], false, [false]);
    var r1 := Run([Read(f), Read(x), Move(x)], false, [false]);
    var r2 := Run([Read(f), Read(x), Move(x), Read(c)], false, []);
    TakeStep(linear, f, x, empty, r);
    assert [] + [Read(f)] + [Read(x)] + [Move(x)] == r1.trace;
    MaybeReviveStep(linear, c, g, x, empty[x := Consumed], r1);
    assert r1.trace + [Read(c)] == r2.trace && Picked(r1.(trace := r2.trace)) == r2;
    TakeStep(linear, f, x, empty[x := Live], r2);
    assert empty[x := Consumed][x := Live] == empty[x := Live];
    ThreeStmts(linear, Take(f, x), MaybeRevive(c, g, x), Take(f, x), empty, r);
    TakenTwice(f, c, x);
    assert r2.trace + [Read(f)] + [Read(x)] + [Move(x)] == [Read(f), Read(x), Move(x), Read(c), Read(f), Read(x), Move(x)];
  }

  lemma OneStmt(linear: set<nat>, s1: Stmt, b: Bindings, r: Run)
    ensures RunBlock([s1], r) == RunStmt(s1, r)
    ensures var c, c1 := CheckBlock(linear, [s1], b), CheckStmt(linear, s1, b); c.b == c1.b && c.moves == c1.moves
  {
    assert [s1][..0] == [];
  }

  lemma TwoStmts(linear: set<nat>, s1: Stmt, s2: Stmt, b: Bindings, r: Run)
    ensures RunBlock([s1, s2], r) == RunStmt(s2, RunStmt(s1, r))
    ensures var c, c1 := CheckBlock(linear, [s1, s2], b), CheckStmt(linear, s1, b);
      var c2 := CheckStmt(linear, s2, c1.b);
      c.b == c2.b && c.moves == c1.moves + c2.moves
  {
    OneStmt(linear, s1, b, r);
    assert [s1, s2][..1] == [s1];
  }

  lemma ThreeStmts(linear: set<nat>, s1: Stmt, s2: Stmt, s3: Stmt, b: Bindings, r: Run)
    ensures RunBlock([s1, s2, s3], r) == RunStmt(s3, RunStmt(s2, RunStmt(s1, r)))
    ensures var c1 := CheckStmt(linear, s1, b);
      var c2 := CheckStmt(linear, s2, c1.b);
      CheckBlock(linear, [s1, s2, s3], b).moves == c1.moves + c2.moves + CheckStmt(linear, s3, c2.b).moves
  {
    TwoStmts(linear, s1, s2, b, r);
    assert [s1, s2, s3][..2] == [s1, s2];
  }

  lemma TakenTwice(f: Symbol, c: Symbol, x: Symbol)
    requires IsPlain(f) && IsPlain(c) && Tracked(x)
    ensures Faults([Read(f), Read(x), Move(x), Read(c), Read(f), Read(x), Move(x)]) == [UsedAfterMove(x), MovedTwice(x)]
  {
    var t0: seq<Event> := [];
    var t1 := t0 + [Read(f)];
    var t2 := t1 + [Read(x)];
    var t3 := t2 + [Move(x)];
    var t4 := t3 + [Read(c)];
    var t5 := t4 + [Read(f)];
    var t6 := t5 + [Read(x)];
    TraceGrows(t0, Read(f));
    TraceGrows(t1, Read(x));
    TraceGrows(t2, Move(x));
    TraceGrows(t3, Read(c));
    TraceGrows(t4, Read(f));
    TraceGrows(t5, Read(x));
    TraceGrows(t6, Move(x));
    assert t6 + [Move(x)] == [Read(f), Read(x), Move(x), Read(c), Read(f), Read(x), Move(x)];
  }
}
