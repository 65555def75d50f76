/** Folding agrees with the meaning of the code. */
module ComptimeSound {
  import opened Wrappers
  import opened Comptime
  import opened ComptimeMeaning

  // ----------------------------------------------------- after a return

  /** Once the function has returned, its result stays. */
  lemma {:induction false} ResultStays(p: Program, e: Expr, frame: Frame, depth: nat)
    requires frame.returned.Some?
    ensures Fold(p, e, frame, depth).frame.returned == frame.returned
    decreases Left(depth), e, 1
  {
    if depth <= MAX_DEPTH {
      match e {
        case IntLit(_) =>
        case BoolLit(_) =>
        case Ident(_) =>
        case Paren(inner) => ResultStays(p, inner, frame, depth);
        case VecLit(elements) => ResultStaysAll(p, elements, frame, depth);
        case Index(base, at) =>
          ResultStays(p, base, frame, depth);
          ResultStays(p, at, Fold(p, base, frame, depth).frame, depth);
        case Neg(operand) => ResultStays(p, operand, frame, depth);
        case Not(operand) => ResultStays(p, operand, frame, depth);
        case BitNot(operand) => ResultStays(p, operand, frame, depth);
        case Logic(_, lhs, rhs) =>
          ResultStays(p, lhs, frame, depth);
          ResultStays(p, rhs, Fold(p, lhs, frame, depth).frame, depth);
        case Binary(_, lhs, rhs) =>
          ResultStays(p, lhs, frame, depth);
          ResultStays(p, rhs, Fold(p, lhs, frame, depth).frame, depth);
        case If(cond, thenE, elseE) =>
          ResultStays(p, cond, frame, depth);
          var r := Fold(p, cond, frame, depth).frame;
          ResultStays(p, thenE, r, depth);
          if elseE.Some? { ResultStays(p, elseE.value, r, depth); }
        case Block(stmts) => ResultStaysBlock(p, stmts, frame, depth);
        case Call(_, args) => ResultStaysAll(p, args, frame, depth + 1);
      }
    }
  }

  lemma {:induction false} ResultStaysAll(p: Program, es: seq<Expr>, frame: Frame, depth: nat)
    requires frame.returned.Some?
    ensures FoldAll(p, es, frame, depth).frame.returned == frame.returned
    decreases Left(depth), es, 1
  {
    if es != [] {
      var n := |es| - 1;
      ResultStaysAll(p, es[..n], frame, depth);
      ResultStays(p, es[n], FoldAll(p, es[..n], frame, depth).frame, depth);
    }
  }

  lemma {:induction false} ResultStaysBlock(p: Program, stmts: seq<Stmt>, frame: Frame, depth: nat)
    requires frame.returned.Some?
    ensures FoldBlock(p, stmts, frame, depth).frame.returned == frame.returned
    decreases Left(depth), stmts, 1
  {
    if stmts != [] && |stmts| == 1 && stmts[0].Do? { ResultStaysLast(p, stmts[0], frame, depth); }
  }

  lemma {:induction false} ResultStaysLast(p: Program, s: Stmt, frame: Frame, depth: nat)
    requires frame.returned.Some? && s.Do?
    ensures FoldLast(p, s, frame, depth).frame.returned == frame.returned
    decreases Left(depth), s, 1
  {
    ResultStays(p, s.e, frame, depth);
  }

  lemma {:induction false} TurnsStay(p: Program, s: Stmt, items: Items, k: nat, frame: Frame, depth: nat)
    requires s.For? && frame.returned.Some?
    ensures FoldTurns(p, s, items, k, frame, depth).frame.returned == frame.returned
  {
    if k < Size(items) && k < MAX_TURNS {
      ResultStays(p, s.body, frame.(locals := BindTo(frame.locals, s.binder, At(items, k))), depth);
    }
  }

  // ---------------------------------------------------------- agreement

  /** The folder knows every name in scope; what else it remembers is not a constant. */
  ghost predicate Sync(p: Program, env: Names, locals: Names) {
    && (forall x | x in env :: x in locals && locals[x] == env[x])
    && (forall x | x in locals :: x in env || x !in p.consts)
  }

  predicate Fails(o: Outcome) { o.Trap? || o.Stuck? }

  /** A return was made exactly as the code means it, and a value that was folded is its value. */
  ghost predicate Agrees(p: Program, env: Names, r: Folded, o: Outcome) {
    Fails(o)
    || (match r.frame.returned
        case Some(v) => o == Returned(v)
        case None => r.v.Some? ==>
          o.Done? && o.v == r.v.value && o.env.Keys == env.Keys && Sync(p, o.env, r.frame.locals))
  }

  /** The setting of every lemma below. */
  ghost predicate Ready(p: Program, env: Names, frame: Frame, depth: nat, fuel: Fuel) {
    WellFormed(p) && frame.returned.None? && Sync(p, env, frame.locals) && fuel.calls >= Left(depth) && fuel.turns >= MAX_TURNS
  }

  lemma {:induction false} FoldAgrees(p: Program, e: Expr, env: Names, frame: Frame, depth: nat, fuel: Fuel)
    requires Ready(p, env, frame, depth, fuel) && Regular(p, e, env.Keys)
    ensures Agrees(p, env, Fold(p, e, frame, depth), Eval(p, fuel, e, env))
    decreases Left(depth), e, 2
  {
    if depth <= MAX_DEPTH {
      match e {
        case IntLit(_) =>
        case BoolLit(_) =>
        case Ident(_) =>
        case Paren(inner) => FoldAgrees(p, inner, env, frame, depth, fuel);
        case VecLit(elements) => AllAgrees(p, elements, env, frame, depth, fuel);
        case Index(_, _) => IndexAgrees(p, e, env, frame, depth, fuel);
        case Neg(_) => UnaryAgrees(p, e, env, frame, depth, fuel);
        case Not(_) => UnaryAgrees(p, e, env, frame, depth, fuel);
        case BitNot(_) => UnaryAgrees(p, e, env, frame, depth, fuel);
        case Logic(_, _, _) => LogicAgrees(p, e, env, frame, depth, fuel);
        case Binary(_, _, _) => BinaryAgrees(p, e, env, frame, depth, fuel);
        case If(_, _, _) => IfAgrees(p, e, env, frame, depth, fuel);
        case Block(stmts) => BlockAgrees(p, stmts, env, frame, depth, fuel);
        case Call(_, _) => CallAgrees(p, e, env, frame, depth, fuel);
      }
    }
  }

  /** Two operands in a row, as far as the folder gets. */
  lemma {:induction false} PairAgrees(p: Program, whole: Expr, e1: Expr, e2: Expr, env: Names, frame: Frame, depth: nat, fuel: Fuel)
    requires e1 < whole && e2 < whole
    requires Ready(p, env, frame, depth, fuel) && Regular(p, e1, env.Keys) && Regular(p, e2, env.Keys)
    ensures var r, o := Fold(p, e1, frame, depth), Eval(p, fuel, e1, env);
      && Agrees(p, env, r, o)
      && (r.frame.returned.Some? ==> Fold(p, e2, r.frame, depth).frame.returned == r.frame.returned)
      && (r.frame.returned.None? && r.v.Some? && o.Done? ==>
            Agrees(p, env, Fold(p, e2, r.frame, depth), Eval(p, fuel, e2, o.env)))
    decreases Left(depth), whole, 0
  {
    FoldAgrees(p, e1, env, frame, depth, fuel);
    var r, o := Fold(p, e1, frame, depth), Eval(p, fuel, e1, env);
    if r.frame.returned.Some? {
      ResultStays(p, e2, r.frame, depth);
    } else if r.v.Some? && o.Done? {
      FoldAgrees(p, e2, o.env, r.frame, depth, fuel);
    }
  }

  lemma {:induction false} UnaryAgrees(p: Program, e: Expr, env: Names, frame: Frame, depth: nat, fuel: Fuel)
    requires (e.Neg? || e.Not? || e.BitNot?) && Ready(p, env, frame, depth, fuel) && Regular(p, e, env.Keys)
    ensures Agrees(p, env, Fold(p, e, frame, depth), Eval(p, fuel, e, env))
    decreases Left(depth), e, 1
  {
    FoldAgrees(p, e.operand, env, frame, depth, fuel);
  }

  lemma {:induction false} IndexAgrees(p: Program, e: Expr, env: Names, frame: Frame, depth: nat, fuel: Fuel)
    requires e.Index? && Ready(p, env, frame, depth, fuel) && Regular(p, e, env.Keys)
    ensures Agrees(p, env, Fold(p, e, frame, depth), Eval(p, fuel, e, env))
    decreases Left(depth), e, 1
  {
    if depth <= MAX_DEPTH { PairAgrees(p, e, e.base, e.at, env, frame, depth, fuel); }
  }

  lemma {:induction false} LogicAgrees(p: Program, e: Expr, env: Names, frame: Frame, depth: nat, fuel: Fuel)
    requires e.Logic? && Ready(p, env, frame, depth, fuel) && Regular(p, e, env.Keys)
    ensures Agrees(p, env, Fold(p, e, frame, depth), Eval(p, fuel, e, env))
    decreases Left(depth), e, 1
  {
    if depth <= MAX_DEPTH { PairAgrees(p, e, e.lhs, e.rhs, env, frame, depth, fuel); }
  }

  lemma {:induction false} BinaryAgrees(p: Program, e: Expr, env: Names, frame: Frame, depth: nat, fuel: Fuel)
    requires e.Binary? && Ready(p, env, frame, depth, fuel) && Regular(p, e, env.Keys)
    ensures Agrees(p, env, Fold(p, e, frame, depth), Eval(p, fuel, e, env))
    decreases Left(depth), e, 1
  {
    if depth <= MAX_DEPTH {
      PairAgrees(p, e, e.lhs, e.rhs, env, frame, depth, fuel);
    }
  }

  lemma {:induction false} IfAgrees(p: Program, e: Expr, env: Names, frame: Frame, depth: nat, fuel: Fuel)
    requires e.If? && Ready(p, env, frame, depth, fuel) && Regular(p, e, env.Keys)
    ensures Agrees(p, env, Fold(p, e, frame, depth), Eval(p, fuel, e, env))
    decreases Left(depth), e, 1
  {
    if depth <= MAX_DEPTH {
      PairAgrees(p, e, e.cond, e.thenE, env, frame, depth, fuel);
      if e.elseE.Some? { PairAgrees(p, e, e.cond, e.elseE.value, env, frame, depth, fuel); }
    }
  }

  // ------------------------------------------------------------- sequences

  ghost predicate AgreesAll(p: Program, env: Names, r: FoldedAll, o: Outcome) {
    Fails(o)
    || (match r.frame.returned
        case Some(v) => o == Returned(v)
        case None => r.vs.Some? ==>
          o.Done? && o.v == Vec(r.vs.value) && o.env.Keys == env.Keys && Sync(p, o.env, r.frame.locals))
  }

  lemma {:induction false} AllAgrees(p: Program, es: seq<Expr>, env: Names, frame: Frame, depth: nat, fuel: Fuel)
    requires Ready(p, env, frame, depth, fuel) && forall e | e in es :: Regular(p, e, env.Keys)
    ensures AgreesAll(p, env, FoldAll(p, es, frame, depth), EvalAll(p, fuel, es, env))
    decreases Left(depth), es, 2
  {
    if es != [] {
      var n := |es| - 1;
      AllAgrees(p, es[..n], env, frame, depth, fuel);
      var r, o := FoldAll(p, es[..n], frame, depth), EvalAll(p, fuel, es[..n], env);
      if r.frame.returned.Some? {
        ResultStays(p, es[n], r.frame, depth);
      } else if r.vs.Some? && o.Done? {
        FoldAgrees(p, es[n], o.env, r.frame, depth, fuel);
      }
    }
  }

  lemma {:induction false} BoundKeys(params: seq<string>, vs: seq<Value>)
    requires |params| == |vs|
    ensures Bound(params, vs).Keys == set x | x in params
    decreases params
  {
    if params != [] {
      var n := |params| - 1;
      BoundKeys(params[..n], vs[..n]);
      assert params == params[..n] + [params[n]];
    }
  }

  /** The arguments are read in the caller's scope, and the body runs with the parameters alone. */
  lemma {:induction false} CallAgrees(p: Program, e: Expr, env: Names, frame: Frame, depth: nat, fuel: Fuel)
    requires e.Call? && Ready(p, env, frame, depth, fuel) && Regular(p, e, env.Keys)
    ensures Agrees(p, env, Fold(p, e, frame, depth), Eval(p, fuel, e, env))
    decreases Left(depth), e, 1
  {
    if depth <= MAX_DEPTH && e.callee in p.funcs && |e.args| == |p.funcs[e.callee].params| {
      var fn := p.funcs[e.callee];
      AllAgrees(p, e.args, env, frame, depth + 1, fuel);
      var r, o := FoldAll(p, e.args, frame, depth + 1), EvalAll(p, fuel, e.args, env);
      if r.vs.Some? {
        BoundKeys(fn.params, r.vs.value);
        var inner := Bound(fn.params, r.vs.value);
        FoldAgrees(p, fn.body, inner, Frame(inner, None), depth + 1, fuel.(calls := fuel.calls - 1));
        BlockGivesResult(p, fn.body, Frame(inner, None), depth + 1);
      }
    }
  }

  /** A block that has returned gives what was returned. */
  lemma BlockGivesResult(p: Program, e: Expr, frame: Frame, depth: nat)
    requires e.Block?
    ensures var r := Fold(p, e, frame, depth);
      frame.returned.None? && r.v.Some? && r.frame.returned.Some? ==> r.v == r.frame.returned
  {
    if depth <= MAX_DEPTH { StatementsGiveResult(p, e.stmts, frame, depth); }
  }

  lemma {:induction false} StatementsGiveResult(p: Program, stmts: seq<Stmt>, frame: Frame, depth: nat)
    ensures var r := FoldBlock(p, stmts, frame, depth);
      r.v.Some? && r.frame.returned.Some? ==> r.v == r.frame.returned
    decreases stmts
  {
    if stmts != [] && !(|stmts| == 1 && stmts[0].Do?) {
      StatementsGiveResult(p, stmts[1..], FoldStmt(p, stmts[0], frame, depth).frame, depth);
    }
  }

  // ---------------------------------------------------------------- blocks

  /** As `Agrees`, with names that the code has bound still in scope. */
  ghost predicate AgreesOpen(p: Program, env: Names, r: Folded, o: Outcome) {
    Fails(o)
    || (match r.frame.returned
        case Some(v) => o == Returned(v)
        case None => r.v.Some? ==>
          o.Done? && o.v == r.v.value && Grown(p, env, o.env) && Sync(p, o.env, r.frame.locals))
  }

  ghost predicate Grown(p: Program, env: Names, later: Names) {
    env.Keys <= later.Keys && forall x | x in later :: x in env || x !in p.consts
  }

  lemma {:induction false} BlockAgrees(p: Program, stmts: seq<Stmt>, env: Names, frame: Frame, depth: nat, fuel: Fuel)
    requires Ready(p, env, frame, depth, fuel) && RegularBlock(p, stmts, env.Keys)
    ensures Agrees(p, env, FoldBlock(p, stmts, frame, depth), Leave(env, EvalBlock(p, fuel, stmts, env)))
    decreases Left(depth), stmts, 3
  {
    StatementsAgree(p, stmts, env, frame, depth, fuel);
  }

  lemma {:induction false} StatementsAgree(p: Program, stmts: seq<Stmt>, env: Names, frame: Frame, depth: nat, fuel: Fuel)
    requires Ready(p, env, frame, depth, fuel) && RegularBlock(p, stmts, env.Keys)
    ensures AgreesOpen(p, env, FoldBlock(p, stmts, frame, depth), EvalBlock(p, fuel, stmts, env))
    decreases Left(depth), stmts, 2
  {
    if stmts != [] {
      StmtAgrees(p, stmts[0], env, frame, depth, fuel);
      var r, o := FoldStmt(p, stmts[0], frame, depth), EvalStmt(p, fuel, stmts[0], env);
      if |stmts| == 1 && stmts[0].Do? {
        assert FoldLast(p, stmts[0], frame, depth) == r;
      } else if r.v.Some? && r.frame.returned.None? && o.Done? {
        StatementsAgree(p, stmts[1..], o.env, r.frame, depth, fuel);
      }
    }
  }

  /** As `AgreesOpen`; only the value of an expression statement matters. */
  ghost predicate AgreesStmt(p: Program, s: Stmt, env: Names, r: Folded, o: Outcome) {
    Fails(o)
    || (match r.frame.returned
        case Some(v) => o == Returned(v)
        case None => r.v.Some? ==>
          && o.Done? && (s.Do? ==> o.v == r.v.value) && o.env.Keys == ScopeAfter(s, env.Keys)
          && Sync(p, o.env, r.frame.locals))
  }

  lemma {:induction false} StmtAgrees(p: Program, s: Stmt, env: Names, frame: Frame, depth: nat, fuel: Fuel)
    requires Ready(p, env, frame, depth, fuel) && RegularStmt(p, s, env.Keys)
    ensures AgreesStmt(p, s, env, FoldStmt(p, s, frame, depth), EvalStmt(p, fuel, s, env))
    decreases Left(depth), s, 3
  {
    match s {
      case Bind(_, init) => FoldAgrees(p, init, env, frame, depth, fuel);
      case Do(e) => FoldAgrees(p, e, env, frame, depth, fuel);
      case Return(_) => ReturnAgrees(p, s, env, frame, depth, fuel);
      case Assign(_, _, _) => AssignAgrees(p, s, env, frame, depth, fuel);
      case AssignIndex(_, _, _, _) => SlotAgrees(p, s, env, frame, depth, fuel);
      case For(_, _, _) => ForAgrees(p, s, env, frame, depth, fuel);
      case While(_, _) => WhileAgrees(p, s, 0, env, frame, depth, fuel);
      case Jump(_) =>
    }
  }

  lemma {:induction false} AssignAgrees(p: Program, s: Stmt, env: Names, frame: Frame, depth: nat, fuel: Fuel)
    requires s.Assign? && Ready(p, env, frame, depth, fuel) && RegularStmt(p, s, env.Keys)
    ensures AgreesStmt(p, s, env, FoldStmt(p, s, frame, depth), EvalStmt(p, fuel, s, env))
    decreases Left(depth), s, 2
  {
    FoldAgrees(p, s.rhs, env, frame, depth, fuel);
  }

  lemma {:induction false} ReturnAgrees(p: Program, s: Stmt, env: Names, frame: Frame, depth: nat, fuel: Fuel)
    requires s.Return? && Ready(p, env, frame, depth, fuel) && RegularStmt(p, s, env.Keys)
    ensures AgreesStmt(p, s, env, FoldStmt(p, s, frame, depth), EvalStmt(p, fuel, s, env))
    decreases Left(depth), s, 2
  {
    if s.result.Some? {
      FoldAgrees(p, s.result.value, env, frame, depth, fuel);
      ResultPassed(p, s.result.value, frame, depth);
    }
  }

  lemma SlotMatches(p: Program, op: Option<Op>, name: string, i: int, v: Value, env: Names, frame: Frame)
    requires InVec(env, name, i) && Sync(p, env, frame.locals)
    ensures var r, o := FoldSlot(op, name, i, v, frame), EvalSlot(op, name, i, v, env);
      && r.frame.returned == frame.returned
      && (Fails(o) || (o.Done? && r.v.Some? && o.env.Keys == env.Keys && Sync(p, o.env, r.frame.locals)))
  {
  }

  lemma {:induction false} SlotAgrees(p: Program, s: Stmt, env: Names, frame: Frame, depth: nat, fuel: Fuel)
    requires s.AssignIndex? && Ready(p, env, frame, depth, fuel) && RegularStmt(p, s, env.Keys)
    ensures AgreesStmt(p, s, env, FoldStmt(p, s, frame, depth), EvalStmt(p, fuel, s, env))
    decreases Left(depth), s, 2
  {
    FoldAgrees(p, s.at, env, frame, depth, fuel);
    var r, o := Fold(p, s.at, frame, depth), Eval(p, fuel, s.at, env);
    if r.frame.returned.Some? {
      ResultStays(p, s.rhs, r.frame, depth);
    } else if r.v.Some? && o.Done? {
      FoldAgrees(p, s.rhs, o.env, r.frame, depth, fuel);
      var t, q := Fold(p, s.rhs, r.frame, depth), Eval(p, fuel, s.rhs, o.env);
      if t.v.Some? && q.Done? && o.v.Int? && InVec(q.env, s.name, o.v.i) && t.frame.returned.None? {
        SlotMatches(p, s.op, s.name, o.v.i, q.v, q.env, t.frame);
      }
    }
  }

  // ------------------------------------------------------------------ loops

  /** A value, or a return, unless the code goes wrong. */
  predicate Folds(r: Folded, o: Outcome) { Fails(o) || r.frame.returned.Some? || r.v.Some? }

  lemma {:induction false} SteadyFolds(p: Program, e: Expr, env: Names, frame: Frame, depth: nat, fuel: Fuel)
    requires Ready(p, env, frame, depth, fuel) && Regular(p, e, env.Keys) && Steady(e) && depth <= MAX_DEPTH
    ensures Folds(Fold(p, e, frame, depth), Eval(p, fuel, e, env))
    decreases Left(depth), e, 3
  {
    match e {
      case IntLit(_) =>
      case BoolLit(_) =>
      case Ident(_) =>
      case Paren(inner) => SteadyFolds(p, inner, env, frame, depth, fuel);
      case VecLit(elements) => SteadyFoldsAll(p, elements, env, frame, depth, fuel);
      case Index(_, _) => SteadyIndex(p, e, env, frame, depth, fuel);
      case Neg(_) => SteadyUnary(p, e, env, frame, depth, fuel);
      case Not(_) => SteadyUnary(p, e, env, frame, depth, fuel);
      case BitNot(_) => SteadyUnary(p, e, env, frame, depth, fuel);
      case Logic(_, _, _) => SteadyLogic(p, e, env, frame, depth, fuel);
      case Binary(_, _, _) => SteadyBinary(p, e, env, frame, depth, fuel);
      case If(_, _, _) => SteadyIf(p, e, env, frame, depth, fuel);
      case Block(stmts) => SteadyFoldsBlock(p, stmts, env, frame, depth, fuel);
    }
  }

  lemma {:induction false} SteadyUnary(p: Program, e: Expr, env: Names, frame: Frame, depth: nat, fuel: Fuel)
    requires (e.Neg? || e.Not? || e.BitNot?) && Ready(p, env, frame, depth, fuel)
    requires Regular(p, e, env.Keys) && Steady(e) && depth <= MAX_DEPTH
    ensures Folds(Fold(p, e, frame, depth), Eval(p, fuel, e, env))
    decreases Left(depth), e, 2, 1
  {
    SteadyOperand(p, e, e.operand, env, frame, depth, fuel);
  }

  lemma {:induction false} SteadyIndex(p: Program, e: Expr, env: Names, frame: Frame, depth: nat, fuel: Fuel)
    requires e.Index? && Ready(p, env, frame, depth, fuel) && Regular(p, e, env.Keys) && Steady(e) && depth <= MAX_DEPTH
    ensures Folds(Fold(p, e, frame, depth), Eval(p, fuel, e, env))
    decreases Left(depth), e, 2, 1
  {
    SteadyPair(p, e, e.base, e.at, env, frame, depth, fuel);
  }

  lemma {:induction false} SteadyLogic(p: Program, e: Expr, env: Names, frame: Frame, depth: nat, fuel: Fuel)
    requires e.Logic? && Ready(p, env, frame, depth, fuel) && Regular(p, e, env.Keys) && Steady(e) && depth <= MAX_DEPTH
    ensures Folds(Fold(p, e, frame, depth), Eval(p, fuel, e, env))
    decreases Left(depth), e, 2, 1
  {
    SteadyPair(p, e, e.lhs, e.rhs, env, frame, depth, fuel);
  }

  lemma {:induction false} SteadyBinary(p: Program, e: Expr, env: Names, frame: Frame, depth: nat, fuel: Fuel)
    requires e.Binary? && Ready(p, env, frame, depth, fuel) && Regular(p, e, env.Keys) && Steady(e) && depth <= MAX_DEPTH
    ensures Folds(Fold(p, e, frame, depth), Eval(p, fuel, e, env))
    decreases Left(depth), e, 2, 1
  {
    SteadyPair(p, e, e.lhs, e.rhs, env, frame, depth, fuel);
  }

  lemma {:induction false} SteadyIf(p: Program, e: Expr, env: Names, frame: Frame, depth: nat, fuel: Fuel)
    requires e.If? && Ready(p, env, frame, depth, fuel) && Regular(p, e, env.Keys) && Steady(e) && depth <= MAX_DEPTH
    ensures Folds(Fold(p, e, frame, depth), Eval(p, fuel, e, env))
    decreases Left(depth), e, 2, 1
  {
    SteadyPair(p, e, e.cond, e.thenE, env, frame, depth, fuel);
    if e.elseE.Some? { SteadyPair(p, e, e.cond, e.elseE.value, env, frame, depth, fuel); }
  }

  lemma {:induction false} SteadyOperand(p: Program, whole: Expr, e: Expr, env: Names, frame: Frame, depth: nat, fuel: Fuel)
    requires e < whole && depth <= MAX_DEPTH
    requires Ready(p, env, frame, depth, fuel) && Regular(p, e, env.Keys) && Steady(e)
    ensures Agrees(p, env, Fold(p, e, frame, depth), Eval(p, fuel, e, env))
    ensures Folds(Fold(p, e, frame, depth), Eval(p, fuel, e, env))
    decreases Left(depth), whole, 1
  {
    FoldAgrees(p, e, env, frame, depth, fuel);
    SteadyFolds(p, e, env, frame, depth, fuel);
  }

  lemma {:induction false} SteadyPair(p: Program, whole: Expr, e1: Expr, e2: Expr, env: Names, frame: Frame, depth: nat, fuel: Fuel)
    requires e1 < whole && e2 < whole && depth <= MAX_DEPTH && Steady(e1) && Steady(e2)
    requires Ready(p, env, frame, depth, fuel) && Regular(p, e1, env.Keys) && Regular(p, e2, env.Keys)
    ensures var r, o := Fold(p, e1, frame, depth), Eval(p, fuel, e1, env);
      && Agrees(p, env, r, o) && Folds(r, o)
      && (r.frame.returned.Some? ==> Fold(p, e2, r.frame, depth).frame.returned == r.frame.returned)
      && (r.frame.returned.None? && o.Done? ==>
            && Agrees(p, env, Fold(p, e2, r.frame, depth), Eval(p, fuel, e2, o.env))
            && Folds(Fold(p, e2, r.frame, depth), Eval(p, fuel, e2, o.env)))
    decreases Left(depth), whole, 2, 0
  {
    SteadyOperand(p, whole, e1, env, frame, depth, fuel);
    var r, o := Fold(p, e1, frame, depth), Eval(p, fuel, e1, env);
    if r.frame.returned.Some? {
      ResultStays(p, e2, r.frame, depth);
    } else if o.Done? {
      SteadyOperand(p, whole, e2, o.env, r.frame, depth, fuel);
    }
  }

  lemma {:induction false} SteadyFoldsAll(p: Program, es: seq<Expr>, env: Names, frame: Frame, depth: nat, fuel: Fuel)
    requires Ready(p, env, frame, depth, fuel) && depth <= MAX_DEPTH
    requires forall e | e in es :: Regular(p, e, env.Keys) && Steady(e)
    ensures var r, o := FoldAll(p, es, frame, depth), EvalAll(p, fuel, es, env);
      Fails(o) || r.frame.returned.Some? || r.vs.Some?
    decreases Left(depth), es, 3
  {
    if es != [] {
      var n := |es| - 1;
      AllAgrees(p, es[..n], env, frame, depth, fuel);
      SteadyFoldsAll(p, es[..n], env, frame, depth, fuel);
      var r, o := FoldAll(p, es[..n], frame, depth), EvalAll(p, fuel, es[..n], env);
      if r.frame.returned.Some? {
        ResultStays(p, es[n], r.frame, depth);
      } else if r.vs.Some? && o.Done? {
        SteadyFolds(p, es[n], o.env, r.frame, depth, fuel);
        FoldAgrees(p, es[n], o.env, r.frame, depth, fuel);
      }
    }
  }

  lemma {:induction false} SteadyFoldsBlock(p: Program, stmts: seq<Stmt>, env: Names, frame: Frame, depth: nat, fuel: Fuel)
    requires Ready(p, env, frame, depth, fuel) && depth <= MAX_DEPTH && RegularBlock(p, stmts, env.Keys)
    requires (forall s | s in stmts :: SteadyStmt(s)) && stmts != []
    requires stmts[|stmts| - 1].Do? || stmts[|stmts| - 1].Return?
    ensures Folds(FoldBlock(p, stmts, frame, depth), EvalBlock(p, fuel, stmts, env))
    decreases Left(depth), stmts, 3
  {
    StmtAgrees(p, stmts[0], env, frame, depth, fuel);
    SteadyStmtFolds(p, stmts[0], env, frame, depth, fuel);
    var r, o := FoldStmt(p, stmts[0], frame, depth), EvalStmt(p, fuel, stmts[0], env);
    if |stmts| == 1 && stmts[0].Do? {
      assert FoldLast(p, stmts[0], frame, depth) == r;
    } else if r.v.Some? && r.frame.returned.None? && o.Done? {
      SteadyFoldsBlock(p, stmts[1..], o.env, r.frame, depth, fuel);
    }
  }

  lemma {:induction false} SteadyStmtFolds(p: Program, s: Stmt, env: Names, frame: Frame, depth: nat, fuel: Fuel)
    requires Ready(p, env, frame, depth, fuel) && depth <= MAX_DEPTH && RegularStmt(p, s, env.Keys) && SteadyStmt(s)
    ensures Folds(FoldStmt(p, s, frame, depth), EvalStmt(p, fuel, s, env))
    decreases Left(depth), s, 4
  {
    match s {
      case Bind(_, init) => SteadyFolds(p, init, env, frame, depth, fuel);
      case Do(e) => SteadyFolds(p, e, env, frame, depth, fuel);
      case Return(result) => if result.Some? { SteadyFolds(p, result.value, env, frame, depth, fuel); }
      case Assign(_, _, rhs) =>
        SteadyFolds(p, rhs, env, frame, depth, fuel);
        FoldAgrees(p, rhs, env, frame, depth, fuel);
      case AssignIndex(_, _, _, _) => SlotFolds(p, s, env, frame, depth, fuel);
      case For(_, _, _) => ForFolds(p, s, env, frame, depth, fuel);
    }
  }

  lemma {:induction false} ForFolds(p: Program, s: Stmt, env: Names, frame: Frame, depth: nat, fuel: Fuel)
    requires s.For? && Ready(p, env, frame, depth, fuel) && depth <= MAX_DEPTH && RegularStmt(p, s, env.Keys) && SteadyStmt(s)
    ensures Folds(FoldStmt(p, s, frame, depth), EvalStmt(p, fuel, s, env))
    decreases Left(depth), s, 3
  {
    var lo, hi := s.iter.lo, s.iter.hi;
    var items := UpTo(lo.i, if s.iter.inclusive then hi.i + 1 else hi.i);
    assert Fold(p, lo, frame, depth) == Folded(Some(Int(lo.i)), frame);
    assert Fold(p, hi, frame, depth) == Folded(Some(Int(hi.i)), frame);
    assert s.iter.inclusive ==> Wrap(hi.i + 1) == hi.i + 1;
    assert FoldItems(p, s, frame, depth) == FoldedItems(Some(items), frame);
    assert EvalItems(p, fuel, s, env) == Over(items, env);
    TurnsAgree(p, s, items, 0, env, frame, depth, fuel);
  }

  lemma {:induction false} PlainFolds(p: Program, e: Expr, env: Names, frame: Frame, depth: nat, fuel: Fuel)
    requires Ready(p, env, frame, depth, fuel) && depth <= MAX_DEPTH && Plain(e)
    ensures var r, o := Fold(p, e, frame, depth), Eval(p, fuel, e, env);
      r.frame == frame && (Fails(o) || (o.Done? && o.env == env && r.v == Some(o.v)))
    decreases e, 1
  {
    match e {
      case IntLit(_) =>
      case BoolLit(_) =>
      case Ident(_) =>
      case Paren(inner) => PlainFolds(p, inner, env, frame, depth, fuel);
      case VecLit(elements) => PlainFoldsAll(p, elements, env, frame, depth, fuel);
      case Index(_, _) => PlainIndex(p, e, env, frame, depth, fuel);
      case Neg(_) => PlainUnary(p, e, env, frame, depth, fuel);
      case Not(_) => PlainUnary(p, e, env, frame, depth, fuel);
      case BitNot(_) => PlainUnary(p, e, env, frame, depth, fuel);
      case Logic(_, _, _) => PlainLogic(p, e, env, frame, depth, fuel);
      case Binary(_, _, _) => PlainBinary(p, e, env, frame, depth, fuel);
      case If(_, _, _) => PlainIf(p, e, env, frame, depth, fuel);
    }
  }

  lemma {:induction false} PlainUnary(p: Program, e: Expr, env: Names, frame: Frame, depth: nat, fuel: Fuel)
    requires (e.Neg? || e.Not? || e.BitNot?) && Ready(p, env, frame, depth, fuel) && depth <= MAX_DEPTH && Plain(e)
    ensures var r, o := Fold(p, e, frame, depth), Eval(p, fuel, e, env);
      r.frame == frame && (Fails(o) || (o.Done? && o.env == env && r.v == Some(o.v)))
    decreases e, 0
  {
    PlainFolds(p, e.operand, env, frame, depth, fuel);
  }

  lemma {:induction false} PlainIndex(p: Program, e: Expr, env: Names, frame: Frame, depth: nat, fuel: Fuel)
    requires e.Index? && Ready(p, env, frame, depth, fuel) && depth <= MAX_DEPTH && Plain(e)
    ensures var r, o := Fold(p, e, frame, depth), Eval(p, fuel, e, env);
      r.frame == frame && (Fails(o) || (o.Done? && o.env == env && r.v == Some(o.v)))
    decreases e, 0
  {
    PlainFolds(p, e.base, env, frame, depth, fuel);
    PlainFolds(p, e.at, env, frame, depth, fuel);
  }

  lemma {:induction false} PlainLogic(p: Program, e: Expr, env: Names, frame: Frame, depth: nat, fuel: Fuel)
    requires e.Logic? && Ready(p, env, frame, depth, fuel) && depth <= MAX_DEPTH && Plain(e)
    ensures var r, o := Fold(p, e, frame, depth), Eval(p, fuel, e, env);
      r.frame == frame && (Fails(o) || (o.Done? && o.env == env && r.v == Some(o.v)))
    decreases e, 0
  {
    PlainFolds(p, e.lhs, env, frame, depth, fuel);
    PlainFolds(p, e.rhs, env, frame, depth, fuel);
  }

  lemma {:induction false} PlainBinary(p: Program, e: Expr, env: Names, frame: Frame, depth: nat, fuel: Fuel)
    requires e.Binary? && Ready(p, env, frame, depth, fuel) && depth <= MAX_DEPTH && Plain(e)
    ensures var r, o := Fold(p, e, frame, depth), Eval(p, fuel, e, env);
      r.frame == frame && (Fails(o) || (o.Done? && o.env == env && r.v == Some(o.v)))
    decreases e, 0
  {
    PlainFolds(p, e.lhs, env, frame, depth, fuel);
    PlainFolds(p, e.rhs, env, frame, depth, fuel);
  }

  lemma {:induction false} PlainIf(p: Program, e: Expr, env: Names, frame: Frame, depth: nat, fuel: Fuel)
    requires e.If? && Ready(p, env, frame, depth, fuel) && depth <= MAX_DEPTH && Plain(e)
    ensures var r, o := Fold(p, e, frame, depth), Eval(p, fuel, e, env);
      r.frame == frame && (Fails(o) || (o.Done? && o.env == env && r.v == Some(o.v)))
    decreases e, 0
  {
    PlainFolds(p, e.cond, env, frame, depth, fuel);
    PlainFolds(p, e.thenE, env, frame, depth, fuel);
    if e.elseE.Some? { PlainFolds(p, e.elseE.value, env, frame, depth, fuel); }
  }

  lemma {:induction false} PlainFoldsAll(p: Program, es: seq<Expr>, env: Names, frame: Frame, depth: nat, fuel: Fuel)
    requires Ready(p, env, frame, depth, fuel) && depth <= MAX_DEPTH && forall e | e in es :: Plain(e)
    ensures var r, o := FoldAll(p, es, frame, depth), EvalAll(p, fuel, es, env);
      r.frame == frame && (Fails(o) || (o.Done? && o.env == env && r.vs.Some? && o.v == Vec(r.vs.value)))
    decreases es, 0
  {
    if es != [] {
      var n := |es| - 1;
      PlainFoldsAll(p, es[..n], env, frame, depth, fuel);
      PlainFolds(p, es[n], env, frame, depth, fuel);
    }
  }

  lemma SlotFolds(p: Program, s: Stmt, env: Names, frame: Frame, depth: nat, fuel: Fuel)
    requires s.AssignIndex? && SteadyStmt(s) && Ready(p, env, frame, depth, fuel) && depth <= MAX_DEPTH
    ensures Folds(FoldStmt(p, s, frame, depth), EvalStmt(p, fuel, s, env))
  {
    PlainFolds(p, s.at, env, frame, depth, fuel);
    PlainFolds(p, s.rhs, env, frame, depth, fuel);
  }

  ghost predicate AgreesItems(p: Program, env: Names, r: FoldedItems, o: Iterated) {
    (o.Other? && Fails(o.other))
    || (match r.frame.returned
        case Some(v) => o == Other(Returned(v))
        case None => r.items.Some? ==>
          o.Over? && o.items == r.items.value && o.env.Keys == env.Keys && Sync(p, o.env, r.frame.locals))
  }

  /** Where the lower bound does not fold the upper one is folded even so, but returns nothing. */
  lemma {:induction false} ItemsAgree(p: Program, s: Stmt, env: Names, frame: Frame, depth: nat, fuel: Fuel)
    requires s.For? && Ready(p, env, frame, depth, fuel) && RegularIter(p, s.iter, env.Keys)
    ensures AgreesItems(p, env, FoldItems(p, s, frame, depth), EvalItems(p, fuel, s, env))
    decreases Left(depth), s, 0
  {
    match s.iter {
      case Each(of) => FoldAgrees(p, of, env, frame, depth, fuel);
      case Range(lo, hi, _) =>
        FoldAgrees(p, lo, env, frame, depth, fuel);
        var r, o := Fold(p, lo, frame, depth), Eval(p, fuel, lo, env);
        if r.frame.returned.Some? {
          ResultStays(p, hi, r.frame, depth);
        } else {
          NoReturnMade(p, hi, r.frame, depth);
          if r.v.Some? && o.Done? { FoldAgrees(p, hi, o.env, r.frame, depth, fuel); }
        }
    }
  }

  /** A loop within the limit folds; if it folds, it has done what the code means. */
  ghost predicate AgreesTurns(p: Program, env: Names, size: nat, r: Folded, o: Outcome) {
    Fails(o)
    || (match r.frame.returned
        case Some(v) => o == Returned(v)
        case None =>
          && (size <= MAX_TURNS ==> r.v.Some?)
          && (r.v.Some? ==> o.Done? && o.env.Keys == env.Keys && Sync(p, o.env, r.frame.locals)))
  }

  lemma {:induction false} TurnsAgree(p: Program, s: Stmt, items: Items, k: nat, env: Names, frame: Frame, depth: nat, fuel: Fuel)
    requires s.For? && Ready(p, env, frame, depth, fuel) && RegularStmt(p, s, env.Keys) && depth <= MAX_DEPTH
    ensures AgreesTurns(p, env, Size(items), FoldTurns(p, s, items, k, frame, depth), EvalTurns(p, fuel, s, items, k, env))
    decreases Left(depth), s, 1, if k < MAX_TURNS then MAX_TURNS - k else 0
  {
    if k < Size(items) && k < MAX_TURNS {
      var inner := BindTo(env, s.binder, At(items, k));
      var started := frame.(locals := BindTo(frame.locals, s.binder, At(items, k)));
      assert inner.Keys == Binding(s.binder, env.Keys);
      RunsAgree(p, s.body, inner, started, depth, fuel);
      var r, o := Fold(p, s.body, started, depth), Leave(env, Eval(p, fuel, s.body, inner));
      if r.frame.returned.None? && o.Done? {
        assert o.env.Keys == env.Keys;
        TurnsAgree(p, s, items, k + 1, o.env, r.frame, depth, fuel);
      }
    }
  }

  lemma ItemsInDepth(p: Program, s: Stmt, frame: Frame, depth: nat)
    requires s.For? && FoldItems(p, s, frame, depth).items.Some?
    ensures depth <= MAX_DEPTH
  {
    match s.iter {
      case Each(of) => assert Fold(p, of, frame, depth).v.Some?;
      case Range(lo, _, _) => assert Fold(p, lo, frame, depth).v.Some?;
    }
  }

  lemma {:induction false} ForAgrees(p: Program, s: Stmt, env: Names, frame: Frame, depth: nat, fuel: Fuel)
    requires s.For? && Ready(p, env, frame, depth, fuel) && RegularStmt(p, s, env.Keys)
    ensures AgreesStmt(p, s, env, FoldStmt(p, s, frame, depth), EvalStmt(p, fuel, s, env))
    decreases Left(depth), s, 2
  {
    ItemsAgree(p, s, env, frame, depth, fuel);
    var r, o := FoldItems(p, s, frame, depth), EvalItems(p, fuel, s, env);
    if r.items.Some? {
      ItemsInDepth(p, s, frame, depth);
      if r.frame.returned.Some? {
        TurnsStay(p, s, r.items.value, 0, r.frame, depth);
      } else if o.Over? {
        TurnsAgree(p, s, o.items, 0, o.env, r.frame, depth, fuel);
      }
    }
  }

  lemma {:induction false} WhileAgrees(p: Program, s: Stmt, k: nat, env: Names, frame: Frame, depth: nat, fuel: Fuel)
    requires s.While? && Ready(p, env, frame, depth, fuel) && RegularStmt(p, s, env.Keys)
    ensures AgreesStmt(p, s, env, FoldWhile(p, s, k, frame, depth), EvalWhile(p, fuel, s, k, env))
    decreases Left(depth), s, 2, if k < MAX_TURNS then MAX_TURNS - k else 0
  {
    if k < MAX_TURNS {
      FoldAgrees(p, s.cond, env, frame, depth, fuel);
      var c, q := Fold(p, s.cond, frame, depth), Eval(p, fuel, s.cond, env);
      if c.frame.returned.Some? {
        ResultStays(p, s.body, c.frame, depth);
      } else if c.v.Some? && q.Done? && c.v == Some(Bool(true)) {
        RunsAgree(p, s.body, q.env, c.frame, depth, fuel);
        var r, o := Fold(p, s.body, c.frame, depth), Eval(p, fuel, s.body, q.env);
        if r.frame.returned.None? && o.Done? { WhileAgrees(p, s, k + 1, o.env, r.frame, depth, fuel); }
      }
    }
  }

  /** The code has run as it should, whether or not it has a value. */
  ghost predicate Ran(p: Program, env: Names, r: Folded, o: Outcome) {
    Fails(o)
    || (match r.frame.returned
        case Some(v) => o == Returned(v)
        case None => o.Done? && o.env.Keys == env.Keys && Sync(p, o.env, r.frame.locals))
  }

  lemma {:induction false} RunsAgree(p: Program, e: Expr, env: Names, frame: Frame, depth: nat, fuel: Fuel)
    requires Ready(p, env, frame, depth, fuel) && Regular(p, e, env.Keys) && Runs(e) && depth <= MAX_DEPTH
    ensures Ran(p, env, Fold(p, e, frame, depth), Eval(p, fuel, e, env))
    decreases Left(depth), e, 4
  {
    if e.Paren? {
      RunsAgree(p, e.inner, env, frame, depth, fuel);
    } else if e.If? {
      BranchRuns(p, e, env, frame, depth, fuel);
    } else if e.Block? {
      RunsBlockAgree(p, e.stmts, env, frame, depth, fuel);
    } else {
      FoldAgrees(p, e, env, frame, depth, fuel);
      SteadyFolds(p, e, env, frame, depth, fuel);
    }
  }

  lemma {:induction false} BranchRuns(p: Program, e: Expr, env: Names, frame: Frame, depth: nat, fuel: Fuel)
    requires e.If? && Ready(p, env, frame, depth, fuel) && Regular(p, e, env.Keys) && Runs(e) && depth <= MAX_DEPTH
    ensures Ran(p, env, Fold(p, e, frame, depth), Eval(p, fuel, e, env))
    decreases Left(depth), e, 3
  {
    SteadyOperand(p, e, e.cond, env, frame, depth, fuel);
    var r, o := Fold(p, e.cond, frame, depth), Eval(p, fuel, e.cond, env);
    if r.frame.returned.Some? {
      ResultStays(p, e.thenE, r.frame, depth);
      if e.elseE.Some? { ResultStays(p, e.elseE.value, r.frame, depth); }
    } else if o.Done? {
      RunsAgree(p, e.thenE, o.env, r.frame, depth, fuel);
      if e.elseE.Some? { RunsAgree(p, e.elseE.value, o.env, r.frame, depth, fuel); }
    }
  }

  ghost predicate RanOpen(p: Program, env: Names, r: Folded, o: Outcome) {
    Fails(o)
    || (match r.frame.returned
        case Some(v) => o == Returned(v)
        case None => o.Done? && Grown(p, env, o.env) && Sync(p, o.env, r.frame.locals))
  }

  lemma {:induction false} RunsBlockAgree(p: Program, stmts: seq<Stmt>, env: Names, frame: Frame, depth: nat, fuel: Fuel)
    requires Ready(p, env, frame, depth, fuel) && RegularBlock(p, stmts, env.Keys) && RunsBlock(stmts) && depth <= MAX_DEPTH
    ensures RanOpen(p, env, FoldBlock(p, stmts, frame, depth), EvalBlock(p, fuel, stmts, env))
    decreases Left(depth), stmts, 4
  {
    if stmts != [] {
      if |stmts| == 1 && stmts[0].Do? {
        RunsLastAgree(p, stmts[0], env, frame, depth, fuel);
      } else {
        StmtAgrees(p, stmts[0], env, frame, depth, fuel);
        SteadyStmtFolds(p, stmts[0], env, frame, depth, fuel);
        var r, o := FoldStmt(p, stmts[0], frame, depth), EvalStmt(p, fuel, stmts[0], env);
        if r.v.Some? && r.frame.returned.None? && o.Done? {
          RunsBlockAgree(p, stmts[1..], o.env, r.frame, depth, fuel);
        }
      }
    }
  }

  lemma {:induction false} RunsLastAgree(p: Program, s: Stmt, env: Names, frame: Frame, depth: nat, fuel: Fuel)
    requires s.Do? && RunsLast(s) && Ready(p, env, frame, depth, fuel) && RegularStmt(p, s, env.Keys) && depth <= MAX_DEPTH
    ensures Ran(p, env, FoldLast(p, s, frame, depth), EvalStmt(p, fuel, s, env))
    decreases Left(depth), s, 4
  {
    RunsAgree(p, s.e, env, frame, depth, fuel);
  }

  // ------------------------------------------------- returns inside returns

  lemma {:induction false} NoReturnMade(p: Program, e: Expr, frame: Frame, depth: nat)
    requires ReturnFree(e) && frame.returned.None?
    ensures Fold(p, e, frame, depth).frame.returned.None?
    decreases Left(depth), e, 1
  {
    if depth <= MAX_DEPTH {
      match e {
        case IntLit(_) =>
        case BoolLit(_) =>
        case Ident(_) =>
        case Paren(inner) => NoReturnMade(p, inner, frame, depth);
        case VecLit(elements) => NoReturnMadeAll(p, elements, frame, depth);
        case Index(base, at) =>
          NoReturnMade(p, base, frame, depth);
          NoReturnMade(p, at, Fold(p, base, frame, depth).frame, depth);
        case Neg(operand) => NoReturnMade(p, operand, frame, depth);
        case Not(operand) => NoReturnMade(p, operand, frame, depth);
        case BitNot(operand) => NoReturnMade(p, operand, frame, depth);
        case Logic(_, lhs, rhs) =>
          NoReturnMade(p, lhs, frame, depth);
          NoReturnMade(p, rhs, Fold(p, lhs, frame, depth).frame, depth);
        case Binary(_, lhs, rhs) =>
          NoReturnMade(p, lhs, frame, depth);
          NoReturnMade(p, rhs, Fold(p, lhs, frame, depth).frame, depth);
        case If(cond, thenE, elseE) =>
          NoReturnMade(p, cond, frame, depth);
          var r := Fold(p, cond, frame, depth).frame;
          NoReturnMade(p, thenE, r, depth);
          if elseE.Some? { NoReturnMade(p, elseE.value, r, depth); }
        case Block(stmts) => NoReturnMadeBlock(p, stmts, frame, depth);
        case Call(_, args) => NoReturnMadeAll(p, args, frame, depth + 1);
      }
    }
  }

  lemma {:induction false} NoReturnMadeAll(p: Program, es: seq<Expr>, frame: Frame, depth: nat)
    requires (forall e | e in es :: ReturnFree(e)) && frame.returned.None?
    ensures FoldAll(p, es, frame, depth).frame.returned.None?
    decreases Left(depth), es, 1
  {
    if es != [] {
      var n := |es| - 1;
      NoReturnMadeAll(p, es[..n], frame, depth);
      NoReturnMade(p, es[n], FoldAll(p, es[..n], frame, depth).frame, depth);
    }
  }

  lemma {:induction false} NoReturnMadeBlock(p: Program, stmts: seq<Stmt>, frame: Frame, depth: nat)
    requires (forall s | s in stmts :: ReturnFreeStmt(s)) && frame.returned.None?
    ensures FoldBlock(p, stmts, frame, depth).frame.returned.None?
    decreases Left(depth), stmts, 1
  {
    if stmts != [] {
      NoReturnMadeStmt(p, stmts[0], frame, depth);
      if !(|stmts| == 1 && stmts[0].Do?) {
        NoReturnMadeBlock(p, stmts[1..], FoldStmt(p, stmts[0], frame, depth).frame, depth);
      }
    }
  }

  lemma {:induction false} NoReturnMadeStmt(p: Program, s: Stmt, frame: Frame, depth: nat)
    requires ReturnFreeStmt(s) && frame.returned.None?
    ensures FoldStmt(p, s, frame, depth).frame.returned.None?
    decreases Left(depth), s, 1
  {
    match s {
      case Bind(_, init) => NoReturnMade(p, init, frame, depth);
      case Do(e) => NoReturnMade(p, e, frame, depth);
      case Assign(_, _, rhs) => NoReturnMade(p, rhs, frame, depth);
      case AssignIndex(_, at, _, rhs) =>
        NoReturnMade(p, at, frame, depth);
        NoReturnMade(p, rhs, Fold(p, at, frame, depth).frame, depth);
      case For(_, iter, _) =>
        NoReturnItems(p, s, frame, depth);
        var r := FoldItems(p, s, frame, depth);
        if r.items.Some? { NoReturnTurns(p, s, r.items.value, 0, r.frame, depth); }
      case While(_, _) => NoReturnWhile(p, s, 0, frame, depth);
      case Jump(_) =>
    }
  }

  lemma {:induction false} NoReturnItems(p: Program, s: Stmt, frame: Frame, depth: nat)
    requires s.For? && ReturnFreeIter(s.iter) && frame.returned.None?
    ensures FoldItems(p, s, frame, depth).frame.returned.None?
    decreases Left(depth), s, 0
  {
    match s.iter {
      case Each(of) => NoReturnMade(p, of, frame, depth);
      case Range(lo, hi, _) =>
        NoReturnMade(p, lo, frame, depth);
        NoReturnMade(p, hi, Fold(p, lo, frame, depth).frame, depth);
    }
  }

  lemma {:induction false} NoReturnTurns(p: Program, s: Stmt, items: Items, k: nat, frame: Frame, depth: nat)
    requires s.For? && ReturnFree(s.body) && frame.returned.None?
    ensures FoldTurns(p, s, items, k, frame, depth).frame.returned.None?
    decreases Left(depth), s, 0, if k < MAX_TURNS then MAX_TURNS - k else 0
  {
    if k < Size(items) && k < MAX_TURNS {
      var started := frame.(locals := BindTo(frame.locals, s.binder, At(items, k)));
      NoReturnMade(p, s.body, started, depth);
      NoReturnTurns(p, s, items, k + 1, Fold(p, s.body, started, depth).frame, depth);
    }
  }

  lemma {:induction false} NoReturnWhile(p: Program, s: Stmt, k: nat, frame: Frame, depth: nat)
    requires s.While? && ReturnFree(s.cond) && ReturnFree(s.body) && frame.returned.None?
    ensures FoldWhile(p, s, k, frame, depth).frame.returned.None?
    decreases Left(depth), s, 0, if k < MAX_TURNS then MAX_TURNS - k else 0
  {
    if k < MAX_TURNS {
      NoReturnMade(p, s.cond, frame, depth);
      var c := Fold(p, s.cond, frame, depth);
      NoReturnMade(p, s.body, c.frame, depth);
      NoReturnWhile(p, s, k + 1, Fold(p, s.body, c.frame, depth).frame, depth);
    }
  }

  /** Where an expression that passes returns on has returned, its value is what was returned. */
  lemma {:induction false} ResultPassed(p: Program, e: Expr, frame: Frame, depth: nat)
    requires PassesReturn(e) && frame.returned.None?
    ensures var r := Fold(p, e, frame, depth); r.v.Some? && r.frame.returned.Some? ==> r.v == r.frame.returned
    decreases e
  {
    if e.Block? {
      BlockGivesResult(p, e, frame, depth);
    } else if e.Paren? {
      ResultPassed(p, e.inner, frame, depth);
    } else if e.If? {
      NoReturnMade(p, e.cond, frame, depth);
      var r := Fold(p, e.cond, frame, depth).frame;
      ResultPassed(p, e.thenE, r, depth);
      if e.elseE.Some? { ResultPassed(p, e.elseE.value, r, depth); }
    } else {
      NoReturnMade(p, e, frame, depth);
    }
  }
}
