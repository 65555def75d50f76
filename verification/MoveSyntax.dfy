/** Function bodies as the ownership checker sees them, and the traces their runs leave. */
module MoveSyntax {
  import opened Wrappers

  datatype SymbolKind = Local | Parameter | OtherKind

  /** A struct type names its declaration; `TrivialType` covers the copyable scalars and types
      that were not resolved. */
  datatype Type = TrivialType | Struct(decl: nat) | OtherType

  datatype Symbol = Symbol(id: nat, kind: SymbolKind, ty: Type)

  /** Moves are tracked for locals and parameters of non-trivial type. */
  predicate Tracked(x: Symbol) { !x.kind.OtherKind? && !x.ty.TrivialType? }

  predicate IsLinear(linear: set<nat>, x: Symbol) { x.ty.Struct? && x.ty.decl in linear }

  datatype Expr =
    | Leaf(text: string)                // literals, `self`, closures: nothing is walked
    | Use(x: Symbol)
    | Paren(inner: Expr)
    | Walk(operands: seq<Expr>)         // operators, members, indexing, `copy`, `await`, casts
    | Short(lhs: Expr, rhs: Expr)       // the right operand may not run
    | Call(callee: Expr, args: seq<Arg>)
    | Throw(inner: Expr)
    | Try(inner: Expr)                  // may leave the function
    | If(cond: Expr, thenE: Expr, elseE: Option<Expr>)
    | Match(scrutinee: Expr, arms: seq<Arm>)
    | Block(stmts: seq<Stmt>)

  /** `sinks`: the parameter, or the field of the value built, takes ownership. */
  datatype Arg = Arg(value: Expr, sinks: bool)

  datatype Arm = Arm(guard: Option<Expr>, body: Expr)

  datatype Stmt =
    | Bind(x: Symbol, value: Option<Expr>)      // `let`, `var`
    | Do(e: Expr)
    | Return(value: Option<Expr>)
    | Assign(x: Symbol, rhs: Expr)              // to a binding
    | AssignInto(target: Expr, rhs: Expr)       // to a member or an element

  /** The binding that consuming `e` moves. */
  function Place(e: Expr): (r: Option<Symbol>)
    ensures r.Some? ==> Tracked(r.value)
  {
    match e
    case Paren(inner) => Place(inner)
    case Use(x) => if Tracked(x) then Some(x) else None
    case _ => None
  }

  // --------------------------------------------------------------- traces

  datatype Event = Read(x: Symbol) | Move(x: Symbol) | Fresh(x: Symbol)  // bound or reassigned

  datatype Report = UsedAfterMove(x: Symbol) | MovedTwice(x: Symbol)

  /** `x` was moved and has not been bound or reassigned since. */
  predicate Moved(trace: seq<Event>, x: Symbol) {
    if trace == [] then false
    else
      var init := trace[..|trace| - 1];
      match trace[|trace| - 1]
      case Read(_) => Moved(init, x)
      case Move(y) => y == x || Moved(init, x)
      case Fresh(y) => y != x && Moved(init, x)
  }

  /** What goes wrong at the next event. */
  function FaultsAt(trace: seq<Event>, e: Event): seq<Report> {
    if !Tracked(e.x) || !Moved(trace, e.x) then []
    else
      match e
      case Read(x) => [UsedAfterMove(x)]
      case Move(x) => [MovedTwice(x)]
      case Fresh(_) => []
  }

  /** Every read or move of a binding that was already moved, in order. */
  function Faults(trace: seq<Event>): seq<Report> {
    if trace == [] then []
    else
      var init := trace[..|trace| - 1];
      Faults(init) + FaultsAt(init, trace[|trace| - 1])
  }

  /** `x` is moved at `i` and read or moved again at `j`, with no fresh value between. */
  predicate ReusedAt(trace: seq<Event>, i: nat, j: nat, x: Symbol) {
    && i < j < |trace|
    && trace[i] == Move(x) && (trace[j] == Read(x) || trace[j] == Move(x))
    && forall k :: i < k < j ==> trace[k] != Fresh(x)
  }

  lemma {:induction false} MovedIff(trace: seq<Event>, x: Symbol)
    ensures Moved(trace, x) <==>
      exists i :: 0 <= i < |trace| && trace[i] == Move(x) && forall k :: i < k < |trace| ==> trace[k] != Fresh(x)
  {
    if trace != [] {
      var init, last := trace[..|trace| - 1], trace[|trace| - 1];
      MovedIff(init, x);
      if Moved(init, x) && last != Fresh(x) {
        var i :| 0 <= i < |init| && init[i] == Move(x) && forall k :: i < k < |init| ==> init[k] != Fresh(x);
        assert trace[i] == Move(x);
      }
      if i :| 0 <= i < |trace| && trace[i] == Move(x) && forall k :: i < k < |trace| ==> trace[k] != Fresh(x) {
        if i < |init| {
          assert init[i] == Move(x) && forall k :: i < k < |init| ==> init[k] == trace[k];
        }
      }
    }
  }

  /** A trace has no faults exactly when no tracked binding is reused after a move. */
  lemma {:induction false} FaultFreeIff(trace: seq<Event>)
    ensures Faults(trace) == [] <==> forall i, j, x :: Tracked(x) ==> !ReusedAt(trace, i, j, x)
  {
    if trace != [] {
      var n := |trace| - 1;
      var init, last := trace[..n], trace[n];
      FaultFreeIff(init);
      MovedIff(init, last.x);
      forall i: nat, j: nat, x | j < n
        ensures ReusedAt(init, i, j, x) <==> ReusedAt(trace, i, j, x)
      {
        if i < j { assert forall k :: i <= k <= j ==> init[k] == trace[k]; }
      }
      if Tracked(last.x) && Moved(init, last.x) && !last.Fresh? {
        var i :| 0 <= i < n && init[i] == Move(last.x) && forall k :: i < k < n ==> init[k] != Fresh(last.x);
        assert forall k :: i <= k < n ==> init[k] == trace[k];
        assert ReusedAt(trace, i, n, last.x);
      }
      forall i: nat, x | Tracked(x) && ReusedAt(trace, i, n, x)
        ensures FaultsAt(init, last) != []
      {
        assert init[i] == trace[i] && forall k :: i < k < n ==> init[k] == trace[k];
        assert Moved(init, x);
      }
    }
  }

  // ----------------------------------------------------------------- runs

  /** A run so far.  `picks` decides every branch still ahead; once `done`, the function has
      been left. */
  datatype Run = Run(trace: seq<Event>, done: bool, picks: seq<bool>)

  function Log(r: Run, e: Event): Run {
    if r.done then r else r.(trace := r.trace + [e])
  }

  function LogMove(r: Run, x: Option<Symbol>): Run {
    if x.None? then r else Log(r, Move(x.value))
  }

  function Next(r: Run): bool { r.picks != [] && r.picks[0] }

  function Picked(r: Run): Run { if r.picks == [] then r else r.(picks := r.picks[1..]) }

  function RunExpr(e: Expr, r: Run): Run
    decreases e, 0
  {
    if r.done then r
    else
      match e
      case Leaf(_) => r
      case Use(x) => Log(r, Read(x))
      case Paren(inner) => RunExpr(inner, r)
      case Walk(operands) => RunAll(operands, r)
      case Short(lhs, rhs) =>
        var r1 := RunExpr(lhs, r);
        if Next(r1) then RunExpr(rhs, Picked(r1)) else Picked(r1)
      case Call(callee, args) => RunArgs(args, RunExpr(callee, r))
      case Throw(inner) => RunExpr(inner, r).(done := true)
      case Try(inner) =>
        var r1 := RunExpr(inner, r);
        Picked(r1).(done := r1.done || Next(r1))
      case If(cond, thenE, elseE) =>
        var r1 := RunExpr(cond, r);
        if Next(r1) then RunExpr(thenE, Picked(r1))
        else if elseE.Some? then RunExpr(elseE.value, Picked(r1)) else Picked(r1)
      case Match(scrutinee, arms) => RunArms(arms, RunExpr(scrutinee, r))
      case Block(stmts) => RunBlock(stmts, r)
  }

  /** Operands run from left to right. */
  function RunAll(es: seq<Expr>, r: Run): Run
    decreases es, 0
  {
    if es == [] then r
    else
      var n := |es| - 1;
      RunExpr(es[n], RunAll(es[..n], r))
  }

  function RunArgs(args: seq<Arg>, r: Run): Run
    decreases args, 0
  {
    if args == [] then r
    else
      var n := |args| - 1;
      RunArg(args[n], RunArgs(args[..n], r))
  }

  function RunArg(a: Arg, r: Run): Run
    decreases a, 0
  {
    if a.sinks then RunMoved(a.value, r) else RunExpr(a.value, r)
  }

  /** The arms are tried in order; a guard runs only where its pattern matches, and the last arm
      left is taken. */
  function RunArms(arms: seq<Arm>, r: Run): Run
    decreases arms, 0
  {
    if arms == [] || r.done then r
    else if |arms| > 1 && !Next(r) then RunArms(arms[1..], Picked(r))
    else
      var arm := arms[0];
      var r1 := RunGuard(arm, if |arms| > 1 then Picked(r) else r);
      if |arms| == 1 || arm.guard.None? then RunBody(arm, r1)
      else if Next(r1) then RunBody(arm, Picked(r1))
      else RunArms(arms[1..], Picked(r1))
  }

  /** One arm tried: it is passed over, taken, or its guard fails; the last one is taken. */
  lemma ArmsTurn(arms: seq<Arm>, k: nat, r: Run, r1: Run)
    requires k < |arms| && !r.done
    requires r1 == RunGuard(arms[k], if k + 1 < |arms| then Picked(r) else r)
    ensures var final := RunArms(arms[k..], r);
      || final == RunBody(arms[k], r1)
      || final == RunBody(arms[k], Picked(r1))
      || (k + 1 < |arms| && (final == RunArms(arms[k + 1..], Picked(r)) || final == RunArms(arms[k + 1..], Picked(r1))))
  {
    var rest := arms[k..];
    assert rest[0] == arms[k];
    if k + 1 < |arms| { assert rest[1..] == arms[k + 1..]; }
  }

  function RunGuard(arm: Arm, r: Run): Run
    decreases arm, 0
  {
    if arm.guard.Some? then RunExpr(arm.guard.value, r) else r
  }

  function RunBody(arm: Arm, r: Run): Run
    decreases arm, 0
  {
    RunExpr(arm.body, r)
  }

  function RunBlock(stmts: seq<Stmt>, r: Run): Run
    decreases stmts, 0
  {
    if stmts == [] then r
    else
      var n := |stmts| - 1;
      RunStmt(stmts[n], RunBlock(stmts[..n], r))
  }

  function RunStmt(s: Stmt, r: Run): Run
    decreases s, 0
  {
    match s
    case Bind(x, value) => Log(if value.Some? then RunMoved(value.value, r) else r, Fresh(x))
    case Do(e) => RunExpr(e, r)
    case Return(value) => (if value.Some? then RunMoved(value.value, r) else r).(done := true)
    case Assign(x, rhs) => Log(RunExpr(rhs, r), Fresh(x))
    case AssignInto(target, rhs) => RunExpr(target, RunExpr(rhs, r))
  }

  /** Evaluate, and hand the value on. */
  function RunMoved(e: Expr, r: Run): Run
    decreases e, 1
  {
    LogMove(RunExpr(e, r), Place(e))
  }
}
