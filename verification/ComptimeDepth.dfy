/** How the depth that is left bears on what folds. */
module ComptimeDepth {
  import opened Wrappers
  import opened Comptime
  import opened ComptimeMeaning
  import opened ComptimeSound

  // ---------------------------------------------------- code without calls

  predicate CallFree(e: Expr)
    decreases e
  {
    match e
    case IntLit(_) => true
    case BoolLit(_) => true
    case Ident(_) => true
    case Paren(inner) => CallFree(inner)
    case VecLit(elements) => forall x | x in elements :: CallFree(x)
    case Index(base, at) => CallFree(base) && CallFree(at)
    case Neg(operand) => CallFree(operand)
    case Not(operand) => CallFree(operand)
    case BitNot(operand) => CallFree(operand)
    case Logic(_, lhs, rhs) => CallFree(lhs) && CallFree(rhs)
    case Binary(_, lhs, rhs) => CallFree(lhs) && CallFree(rhs)
    case If(cond, thenE, elseE) => CallFree(cond) && CallFree(thenE) && (elseE.Some? ==> CallFree(elseE.value))
    case Block(stmts) => forall s | s in stmts :: CallFreeStmt(s)
    case Call(_, _) => false
  }

  predicate CallFreeStmt(s: Stmt)
    decreases s
  {
    match s
    case Bind(_, init) => CallFree(init)
    case Do(e) => CallFree(e)
    case Return(result) => result.Some? ==> CallFree(result.value)
    case Assign(_, _, rhs) => CallFree(rhs)
    case AssignIndex(_, at, _, rhs) => CallFree(at) && CallFree(rhs)
    case For(_, Range(lo, hi, _), body) => CallFree(lo) && CallFree(hi) && CallFree(body)
    case For(_, Each(of), body) => CallFree(of) && CallFree(body)
    case While(cond, body) => CallFree(cond) && CallFree(body)
    case Jump(_) => true
  }

  lemma {:induction false} PlainCallFree(e: Expr)
    requires Plain(e)
    ensures CallFree(e)
    decreases e
  {
    match e {
      case Paren(inner) => PlainCallFree(inner);
      case VecLit(elements) =>
        forall x | x in elements
          ensures CallFree(x)
        {
          PlainCallFree(x);
        }
      case Index(base, at) => PlainCallFree(base); PlainCallFree(at);
      case Neg(operand) => PlainCallFree(operand);
      case Not(operand) => PlainCallFree(operand);
      case BitNot(operand) => PlainCallFree(operand);
      case Logic(_, lhs, rhs) => PlainCallFree(lhs); PlainCallFree(rhs);
      case Binary(_, lhs, rhs) => PlainCallFree(lhs); PlainCallFree(rhs);
      case If(cond, thenE, elseE) =>
        PlainCallFree(cond);
        PlainCallFree(thenE);
        if elseE.Some? { PlainCallFree(elseE.value); }
      case _ =>
    }
  }

  lemma {:induction false} SteadyCallFree(e: Expr)
    requires Steady(e)
    ensures CallFree(e)
    decreases e, 0
  {
    match e {
      case Paren(inner) => SteadyCallFree(inner);
      case VecLit(elements) =>
        forall x | x in elements
          ensures CallFree(x)
        {
          SteadyCallFree(x);
        }
      case Index(base, at) => SteadyCallFree(base); SteadyCallFree(at);
      case Neg(operand) => SteadyCallFree(operand);
      case Not(operand) => SteadyCallFree(operand);
      case BitNot(operand) => SteadyCallFree(operand);
      case Logic(_, lhs, rhs) => SteadyCallFree(lhs); SteadyCallFree(rhs);
      case Binary(_, lhs, rhs) => SteadyCallFree(lhs); SteadyCallFree(rhs);
      case If(cond, thenE, elseE) =>
        SteadyCallFree(cond);
        SteadyCallFree(thenE);
        if elseE.Some? { SteadyCallFree(elseE.value); }
      case Block(stmts) =>
        forall s | s in stmts
          ensures CallFreeStmt(s)
        {
          SteadyStmtCallFree(s);
        }
      case _ =>
    }
  }

  lemma {:induction false} SteadyStmtCallFree(s: Stmt)
    requires SteadyStmt(s)
    ensures CallFreeStmt(s)
    decreases s, 0
  {
    match s {
      case Bind(_, init) => SteadyCallFree(init);
      case Do(e) => SteadyCallFree(e);
      case Return(result) => if result.Some? { SteadyCallFree(result.value); }
      case Assign(_, _, rhs) => SteadyCallFree(rhs);
      case AssignIndex(_, at, _, rhs) => PlainCallFree(at); PlainCallFree(rhs);
      case For(_, _, body) => RunsCallFree(body);
    }
  }

  lemma {:induction false} RunsCallFree(e: Expr)
    requires Runs(e)
    ensures CallFree(e)
    decreases e, 1
  {
    if e.Paren? {
      RunsCallFree(e.inner);
    } else if e.If? {
      SteadyCallFree(e.cond);
      RunsCallFree(e.thenE);
      if e.elseE.Some? { RunsCallFree(e.elseE.value); }
    } else if e.Block? {
      RunsBlockCallFree(e.stmts);
    } else {
      SteadyCallFree(e);
    }
  }

  lemma {:induction false} RunsBlockCallFree(stmts: seq<Stmt>)
    requires RunsBlock(stmts)
    ensures forall s | s in stmts :: CallFreeStmt(s)
    decreases stmts, 0
  {
    if stmts != [] {
      if |stmts| == 1 && stmts[0].Do? {
        RunsLastCallFree(stmts[0]);
      } else {
        SteadyStmtCallFree(stmts[0]);
        RunsBlockCallFree(stmts[1..]);
        assert stmts == [stmts[0]] + stmts[1..];
      }
    }
  }

  lemma {:induction false} RunsLastCallFree(s: Stmt)
    requires s.Do? && RunsLast(s)
    ensures CallFreeStmt(s)
    decreases s, 0
  {
    RunsCallFree(s.e);
  }

  /** Code without calls folds alike at any depth. */
  lemma {:induction false} SameAtAnyDepth(p: Program, e: Expr, frame: Frame, d1: nat, d2: nat)
    requires CallFree(e) && d1 <= MAX_DEPTH && d2 <= MAX_DEPTH
    ensures Fold(p, e, frame, d1) == Fold(p, e, frame, d2)
    decreases e, 1
  {
    match e {
      case IntLit(_) =>
      case BoolLit(_) =>
      case Ident(_) =>
      case Paren(inner) => SameAtAnyDepth(p, inner, frame, d1, d2);
      case VecLit(elements) => SameAll(p, elements, frame, d1, d2);
      case Index(base, at) => SamePair(p, e, base, at, frame, d1, d2);
      case Neg(operand) => SameAtAnyDepth(p, operand, frame, d1, d2);
      case Not(operand) => SameAtAnyDepth(p, operand, frame, d1, d2);
      case BitNot(operand) => SameAtAnyDepth(p, operand, frame, d1, d2);
      case Logic(_, lhs, rhs) => SamePair(p, e, lhs, rhs, frame, d1, d2);
      case Binary(_, lhs, rhs) => SamePair(p, e, lhs, rhs, frame, d1, d2);
      case If(cond, thenE, elseE) =>
        SamePair(p, e, cond, thenE, frame, d1, d2);
        if elseE.Some? { SamePair(p, e, cond, elseE.value, frame, d1, d2); }
      case Block(stmts) => SameBlock(p, stmts, frame, d1, d2);
    }
  }

  lemma {:induction false} SamePair(p: Program, whole: Expr, e1: Expr, e2: Expr, frame: Frame, d1: nat, d2: nat)
    requires e1 < whole && e2 < whole && CallFree(e1) && CallFree(e2) && d1 <= MAX_DEPTH && d2 <= MAX_DEPTH
    ensures var r := Fold(p, e1, frame, d1);
      Fold(p, e1, frame, d2) == r && Fold(p, e2, r.frame, d2) == Fold(p, e2, r.frame, d1)
    decreases whole, 0
  {
    SameAtAnyDepth(p, e1, frame, d1, d2);
    SameAtAnyDepth(p, e2, Fold(p, e1, frame, d1).frame, d1, d2);
  }

  lemma {:induction false} SameAll(p: Program, es: seq<Expr>, frame: Frame, d1: nat, d2: nat)
    requires (forall e | e in es :: CallFree(e)) && d1 <= MAX_DEPTH && d2 <= MAX_DEPTH
    ensures FoldAll(p, es, frame, d1) == FoldAll(p, es, frame, d2)
    decreases es, 0
  {
    if es != [] {
      var n := |es| - 1;
      SameAll(p, es[..n], frame, d1, d2);
      SameAtAnyDepth(p, es[n], FoldAll(p, es[..n], frame, d1).frame, d1, d2);
    }
  }

  lemma {:induction false} SameBlock(p: Program, stmts: seq<Stmt>, frame: Frame, d1: nat, d2: nat)
    requires (forall s | s in stmts :: CallFreeStmt(s)) && d1 <= MAX_DEPTH && d2 <= MAX_DEPTH
    ensures FoldBlock(p, stmts, frame, d1) == FoldBlock(p, stmts, frame, d2)
    decreases stmts, 0
  {
    if stmts != [] {
      if |stmts| == 1 && stmts[0].Do? {
        SameLast(p, stmts[0], frame, d1, d2);
      } else {
        SameStmt(p, stmts[0], frame, d1, d2);
        SameBlock(p, stmts[1..], FoldStmt(p, stmts[0], frame, d1).frame, d1, d2);
      }
    }
  }

  lemma {:induction false} SameLast(p: Program, s: Stmt, frame: Frame, d1: nat, d2: nat)
    requires s.Do? && CallFreeStmt(s) && d1 <= MAX_DEPTH && d2 <= MAX_DEPTH
    ensures FoldLast(p, s, frame, d1) == FoldLast(p, s, frame, d2)
    decreases s, 1
  {
    SameAtAnyDepth(p, s.e, frame, d1, d2);
  }

  lemma {:induction false} SameStmt(p: Program, s: Stmt, frame: Frame, d1: nat, d2: nat)
    requires CallFreeStmt(s) && d1 <= MAX_DEPTH && d2 <= MAX_DEPTH
    ensures FoldStmt(p, s, frame, d1) == FoldStmt(p, s, frame, d2)
    decreases s, 1
  {
    match s {
      case Bind(_, init) => SameAtAnyDepth(p, init, frame, d1, d2);
      case Do(e) => SameAtAnyDepth(p, e, frame, d1, d2);
      case Return(result) => if result.Some? { SameAtAnyDepth(p, result.value, frame, d1, d2); }
      case Assign(_, _, rhs) => SameAtAnyDepth(p, rhs, frame, d1, d2);
      case AssignIndex(_, at, _, rhs) =>
        SameAtAnyDepth(p, at, frame, d1, d2);
        SameAtAnyDepth(p, rhs, Fold(p, at, frame, d1).frame, d1, d2);
      case For(_, _, _) =>
        SameItems(p, s, frame, d1, d2);
        var r := FoldItems(p, s, frame, d1);
        if r.items.Some? { SameTurns(p, s, r.items.value, 0, r.frame, d1, d2); }
      case While(_, _) => SameWhile(p, s, 0, frame, d1, d2);
      case Jump(_) =>
    }
  }

  lemma {:induction false} SameItems(p: Program, s: Stmt, frame: Frame, d1: nat, d2: nat)
    requires s.For? && CallFreeStmt(s) && d1 <= MAX_DEPTH && d2 <= MAX_DEPTH
    ensures FoldItems(p, s, frame, d1) == FoldItems(p, s, frame, d2)
    decreases s, 0
  {
    match s.iter {
      case Each(of) => SameAtAnyDepth(p, of, frame, d1, d2);
      case Range(lo, hi, _) =>
        SameAtAnyDepth(p, lo, frame, d1, d2);
        SameAtAnyDepth(p, hi, Fold(p, lo, frame, d1).frame, d1, d2);
    }
  }

  lemma {:induction false} SameTurns(p: Program, s: Stmt, items: Items, k: nat, frame: Frame, d1: nat, d2: nat)
    requires s.For? && CallFree(s.body) && d1 <= MAX_DEPTH && d2 <= MAX_DEPTH
    ensures FoldTurns(p, s, items, k, frame, d1) == FoldTurns(p, s, items, k, frame, d2)
    decreases s, 0, if k < MAX_TURNS then MAX_TURNS - k else 0
  {
    if k < Size(items) && k < MAX_TURNS {
      var started := frame.(locals := BindTo(frame.locals, s.binder, At(items, k)));
      SameAtAnyDepth(p, s.body, started, d1, d2);
      SameTurns(p, s, items, k + 1, Fold(p, s.body, started, d1).frame, d1, d2);
    }
  }

  lemma {:induction false} SameWhile(p: Program, s: Stmt, k: nat, frame: Frame, d1: nat, d2: nat)
    requires s.While? && CallFree(s.cond) && CallFree(s.body) && d1 <= MAX_DEPTH && d2 <= MAX_DEPTH
    ensures FoldWhile(p, s, k, frame, d1) == FoldWhile(p, s, k, frame, d2)
    decreases s, 0, if k < MAX_TURNS then MAX_TURNS - k else 0
  {
    if k < MAX_TURNS {
      SameAtAnyDepth(p, s.cond, frame, d1, d2);
      var c := Fold(p, s.cond, frame, d1);
      SameAtAnyDepth(p, s.body, c.frame, d1, d2);
      SameWhile(p, s, k + 1, Fold(p, s.body, c.frame, d1).frame, d1, d2);
    }
  }

  // ------------------------------------------ any two depths, regular code

  predicate Quit(r: Folded) { r.v.None? && r.frame.returned.None? }

  /** One has given up before anything was returned, or both have returned the same, or nothing
      tells them apart. */
  predicate Compatible(r: Folded, t: Folded) {
    Quit(r) || Quit(t) || (r.frame.returned.Some? && t.frame.returned == r.frame.returned) || r == t
  }

  lemma {:induction false} DepthsCompatible(p: Program, e: Expr, scope: set<string>, frame: Frame, d1: nat, d2: nat)
    requires WellFormed(p) && Regular(p, e, scope) && frame.returned.None?
    ensures Compatible(Fold(p, e, frame, d1), Fold(p, e, frame, d2))
    decreases Left(d1), e, 2
  {
    if d1 <= MAX_DEPTH && d2 <= MAX_DEPTH {
      match e {
        case IntLit(_) =>
        case BoolLit(_) =>
        case Ident(_) =>
        case Paren(inner) => DepthsCompatible(p, inner, scope, frame, d1, d2);
        case VecLit(elements) => AllCompatible(p, elements, scope, frame, d1, d2);
        case Index(base, at) => PairCompatible(p, e, base, at, scope, frame, d1, d2);
        case Neg(operand) => DepthsCompatible(p, operand, scope, frame, d1, d2);
        case Not(operand) => DepthsCompatible(p, operand, scope, frame, d1, d2);
        case BitNot(operand) => DepthsCompatible(p, operand, scope, frame, d1, d2);
        case Logic(_, lhs, rhs) => PairCompatible(p, e, lhs, rhs, scope, frame, d1, d2);
        case Binary(_, lhs, rhs) => PairCompatible(p, e, lhs, rhs, scope, frame, d1, d2);
        case If(cond, thenE, elseE) =>
          PairCompatible(p, e, cond, thenE, scope, frame, d1, d2);
          if elseE.Some? { PairCompatible(p, e, cond, elseE.value, scope, frame, d1, d2); }
        case Block(stmts) => BlockCompatible(p, stmts, scope, frame, d1, d2);
        case Call(_, _) => CallCompatible(p, e, scope, frame, d1, d2);
      }
    }
  }

  lemma {:induction false} PairCompatible(p: Program, whole: Expr, e1: Expr, e2: Expr, scope: set<string>, frame: Frame, d1: nat, d2: nat)
    requires e1 < whole && e2 < whole && frame.returned.None?
    requires WellFormed(p) && Regular(p, e1, scope) && Regular(p, e2, scope)
    ensures var r, t := Fold(p, e1, frame, d1), Fold(p, e1, frame, d2);
      && Compatible(r, t)
      && (r.frame.returned.Some? ==> Fold(p, e2, r.frame, d1).frame.returned == r.frame.returned)
      && (t.frame.returned.Some? ==> Fold(p, e2, t.frame, d2).frame.returned == t.frame.returned)
      && (r.frame.returned.None? && r == t ==> Compatible(Fold(p, e2, r.frame, d1), Fold(p, e2, t.frame, d2)))
    decreases Left(d1), whole, 1
  {
    DepthsCompatible(p, e1, scope, frame, d1, d2);
    var r, t := Fold(p, e1, frame, d1), Fold(p, e1, frame, d2);
    if r.frame.returned.Some? { ResultStays(p, e2, r.frame, d1); }
    if t.frame.returned.Some? { ResultStays(p, e2, t.frame, d2); }
    if r.frame.returned.None? && r == t { DepthsCompatible(p, e2, scope, r.frame, d1, d2); }
  }

  predicate CompatibleAll(r: FoldedAll, t: FoldedAll) {
    || (r.vs.None? && r.frame.returned.None?) || (t.vs.None? && t.frame.returned.None?)
    || (r.frame.returned.Some? && t.frame.returned == r.frame.returned) || r == t
  }

  lemma {:induction false} AllCompatible(p: Program, es: seq<Expr>, scope: set<string>, frame: Frame, d1: nat, d2: nat)
    requires WellFormed(p) && (forall e | e in es :: Regular(p, e, scope)) && frame.returned.None?
    ensures CompatibleAll(FoldAll(p, es, frame, d1), FoldAll(p, es, frame, d2))
    decreases Left(d1), es, 2
  {
    if es != [] {
      var n := |es| - 1;
      AllCompatible(p, es[..n], scope, frame, d1, d2);
      var r, t := FoldAll(p, es[..n], frame, d1), FoldAll(p, es[..n], frame, d2);
      if r.frame.returned.Some? { ResultStays(p, es[n], r.frame, d1); }
      if t.frame.returned.Some? { ResultStays(p, es[n], t.frame, d2); }
      if r.frame.returned.None? && r == t { DepthsCompatible(p, es[n], scope, r.frame, d1, d2); }
    }
  }

  lemma {:induction false} CallCompatible(p: Program, e: Expr, scope: set<string>, frame: Frame, d1: nat, d2: nat)
    requires e.Call? && WellFormed(p) && Regular(p, e, scope) && frame.returned.None?
    requires d1 <= MAX_DEPTH && d2 <= MAX_DEPTH
    ensures Compatible(Fold(p, e, frame, d1), Fold(p, e, frame, d2))
    decreases Left(d1), e, 1
  {
    if e.callee in p.funcs && |e.args| == |p.funcs[e.callee].params| {
      var fn := p.funcs[e.callee];
      AllCompatible(p, e.args, scope, frame, d1 + 1, d2 + 1);
      var r, t := FoldAll(p, e.args, frame, d1 + 1), FoldAll(p, e.args, frame, d2 + 1);
      if r == t && r.vs.Some? {
        var inner := Frame(Bound(fn.params, r.vs.value), None);
        DepthsCompatible(p, fn.body, (set x | x in fn.params), inner, d1 + 1, d2 + 1);
        BlockGivesResult(p, fn.body, inner, d1 + 1);
        BlockGivesResult(p, fn.body, inner, d2 + 1);
      }
    }
  }

  lemma {:induction false} BlockCompatible(p: Program, stmts: seq<Stmt>, scope: set<string>, frame: Frame, d1: nat, d2: nat)
    requires WellFormed(p) && RegularBlock(p, stmts, scope) && frame.returned.None?
    ensures Compatible(FoldBlock(p, stmts, frame, d1), FoldBlock(p, stmts, frame, d2))
    decreases Left(d1), stmts, 2
  {
    if stmts != [] {
      StmtCompatible(p, stmts[0], scope, frame, d1, d2);
      var r, t := FoldStmt(p, stmts[0], frame, d1), FoldStmt(p, stmts[0], frame, d2);
      if |stmts| == 1 && stmts[0].Do? {
        assert FoldLast(p, stmts[0], frame, d1) == r && FoldLast(p, stmts[0], frame, d2) == t;
      } else if r == t && r.v.Some? && r.frame.returned.None? {
        BlockCompatible(p, stmts[1..], ScopeAfter(stmts[0], scope), r.frame, d1, d2);
      }
    }
  }

  lemma {:induction false} StmtCompatible(p: Program, s: Stmt, scope: set<string>, frame: Frame, d1: nat, d2: nat)
    requires WellFormed(p) && RegularStmt(p, s, scope) && frame.returned.None?
    ensures Compatible(FoldStmt(p, s, frame, d1), FoldStmt(p, s, frame, d2))
    decreases Left(d1), s, 2
  {
    match s {
      case Bind(_, init) => DepthsCompatible(p, init, scope, frame, d1, d2);
      case Do(e) => DepthsCompatible(p, e, scope, frame, d1, d2);
      case Return(result) =>
        if result.Some? {
          DepthsCompatible(p, result.value, scope, frame, d1, d2);
          ResultPassed(p, result.value, frame, d1);
          ResultPassed(p, result.value, frame, d2);
        }
      case Assign(_, _, rhs) => DepthsCompatible(p, rhs, scope, frame, d1, d2);
      case AssignIndex(_, _, _, _) => SlotCompatible(p, s, scope, frame, d1, d2);
      case For(_, _, _) => ForCompatible(p, s, scope, frame, d1, d2);
      case While(_, _) => WhileCompatible(p, s, 0, scope, frame, d1, d2);
      case Jump(_) =>
    }
  }

  lemma {:induction false} SlotCompatible(p: Program, s: Stmt, scope: set<string>, frame: Frame, d1: nat, d2: nat)
    requires s.AssignIndex? && WellFormed(p) && RegularStmt(p, s, scope) && frame.returned.None?
    ensures Compatible(FoldStmt(p, s, frame, d1), FoldStmt(p, s, frame, d2))
    decreases Left(d1), s, 1
  {
    DepthsCompatible(p, s.at, scope, frame, d1, d2);
    var r, t := Fold(p, s.at, frame, d1), Fold(p, s.at, frame, d2);
    if r.frame.returned.Some? { ResultStays(p, s.rhs, r.frame, d1); }
    if t.frame.returned.Some? { ResultStays(p, s.rhs, t.frame, d2); }
    if r.frame.returned.None? && r == t { DepthsCompatible(p, s.rhs, scope, r.frame, d1, d2); }
  }

  predicate CompatibleItems(r: FoldedItems, t: FoldedItems) {
    || (r.items.None? && r.frame.returned.None?) || (t.items.None? && t.frame.returned.None?)
    || (r.frame.returned.Some? && t.frame.returned == r.frame.returned) || r == t
  }

  lemma {:induction false} ItemsCompatible(p: Program, s: Stmt, scope: set<string>, frame: Frame, d1: nat, d2: nat)
    requires s.For? && WellFormed(p) && RegularIter(p, s.iter, scope) && frame.returned.None?
    ensures CompatibleItems(FoldItems(p, s, frame, d1), FoldItems(p, s, frame, d2))
    decreases Left(d1), s, 0
  {
    match s.iter {
      case Each(of) => DepthsCompatible(p, of, scope, frame, d1, d2);
      case Range(lo, hi, _) =>
        DepthsCompatible(p, lo, scope, frame, d1, d2);
        var r, t := Fold(p, lo, frame, d1), Fold(p, lo, frame, d2);
        UpperBound(p, hi, r.frame, d1);
        UpperBound(p, hi, t.frame, d2);
        if r.frame.returned.None? && r == t { DepthsCompatible(p, hi, scope, r.frame, d1, d2); }
    }
  }

  /** Folding the upper bound does not make a result, nor change one. */
  lemma UpperBound(p: Program, hi: Expr, frame: Frame, depth: nat)
    requires ReturnFree(hi)
    ensures Fold(p, hi, frame, depth).frame.returned == frame.returned
  {
    if frame.returned.Some? { ResultStays(p, hi, frame, depth); } else { NoReturnMade(p, hi, frame, depth); }
  }

  lemma {:induction false} ForCompatible(p: Program, s: Stmt, scope: set<string>, frame: Frame, d1: nat, d2: nat)
    requires s.For? && WellFormed(p) && RegularStmt(p, s, scope) && frame.returned.None?
    ensures Compatible(FoldStmt(p, s, frame, d1), FoldStmt(p, s, frame, d2))
    decreases Left(d1), s, 1
  {
    ItemsCompatible(p, s, scope, frame, d1, d2);
    var r, t := FoldItems(p, s, frame, d1), FoldItems(p, s, frame, d2);
    if r.items.Some? && r.frame.returned.Some? { TurnsStay(p, s, r.items.value, 0, r.frame, d1); }
    if t.items.Some? && t.frame.returned.Some? { TurnsStay(p, s, t.items.value, 0, t.frame, d2); }
    if r == t && r.items.Some? && r.frame.returned.None? {
      ItemsInDepth(p, s, frame, d1);
      ItemsInDepth(p, s, frame, d2);
      RunsCallFree(s.body);
      SameTurns(p, s, r.items.value, 0, r.frame, d1, d2);
    }
  }

  lemma {:induction false} WhileCompatible(p: Program, s: Stmt, k: nat, scope: set<string>, frame: Frame, d1: nat, d2: nat)
    requires s.While? && WellFormed(p) && RegularStmt(p, s, scope) && frame.returned.None?
    ensures Compatible(FoldWhile(p, s, k, frame, d1), FoldWhile(p, s, k, frame, d2))
    decreases Left(d1), s, 1, if k < MAX_TURNS then MAX_TURNS - k else 0
  {
    if k < MAX_TURNS {
      DepthsCompatible(p, s.cond, scope, frame, d1, d2);
      var r, t := Fold(p, s.cond, frame, d1), Fold(p, s.cond, frame, d2);
      if r.frame.returned.Some? { ResultStays(p, s.body, r.frame, d1); }
      if t.frame.returned.Some? { ResultStays(p, s.body, t.frame, d2); }
      if r == t && r.v == Some(Bool(true)) && r.frame.returned.None? {
        RunsCallFree(s.body);
        SameAtAnyDepth(p, s.body, r.frame, d1, d2);
        var q := Fold(p, s.body, r.frame, d1);
        if q.frame.returned.None? { WhileCompatible(p, s, k + 1, scope, q.frame, d1, d2); }
      }
    }
  }

  /** Where regular code folds at two depths, it folds to one value; and unless it has returned,
      it has had the same effect. */
  lemma DepthsNeverConflict(p: Program, e: Expr, scope: set<string>, frame: Frame, d1: nat, d2: nat)
    requires WellFormed(p) && Regular(p, e, scope) && frame.returned.None?
    ensures var r, t := Fold(p, e, frame, d1), Fold(p, e, frame, d2);
      r.v.Some? && t.v.Some? ==>
        && r.frame.returned == t.frame.returned
        && (r.frame.returned.None? ==> r == t)
        && (PassesReturn(e) ==> r.v == t.v)
  {
    DepthsCompatible(p, e, scope, frame, d1, d2);
    if PassesReturn(e) {
      ResultPassed(p, e, frame, d1);
      ResultPassed(p, e, frame, d2);
    }
  }

  // ------------------------------------------------- less depth, tidy code

  /** Returns stand as statements, or in the branches of what is bound, assigned or returned. */
  predicate Tidy(e: Expr)
    decreases e
  {
    match e
    case Block(stmts) => forall s | s in stmts :: TidyStmt(s)
    case Paren(inner) => Tidy(inner)
    case If(cond, thenE, elseE) => ReturnFree(cond) && Tidy(thenE) && (elseE.Some? ==> Tidy(elseE.value))
    case _ => ReturnFree(e)
  }

  predicate TidyStmt(s: Stmt)
    decreases s
  {
    match s
    case Bind(_, init) => Tidy(init)
    case Do(e) => Tidy(e)
    case Return(result) => result.Some? ==> Tidy(result.value)
    case Assign(_, op, rhs) => if op.None? then Tidy(rhs) else ReturnFree(rhs)
    case AssignIndex(_, at, _, rhs) => ReturnFree(at) && ReturnFree(rhs)
    case For(_, iter, _) => ReturnFreeIter(iter)
    case While(cond, _) => ReturnFree(cond)
    case Jump(_) => true
  }

  /** The bodies of loops call nothing. */
  predicate Settled(e: Expr)
    decreases e
  {
    match e
    case IntLit(_) => true
    case BoolLit(_) => true
    case Ident(_) => true
    case Paren(inner) => Settled(inner)
    case VecLit(elements) => forall x | x in elements :: Settled(x)
    case Index(base, at) => Settled(base) && Settled(at)
    case Neg(operand) => Settled(operand)
    case Not(operand) => Settled(operand)
    case BitNot(operand) => Settled(operand)
    case Logic(_, lhs, rhs) => Settled(lhs) && Settled(rhs)
    case Binary(_, lhs, rhs) => Settled(lhs) && Settled(rhs)
    case If(cond, thenE, elseE) => Settled(cond) && Settled(thenE) && (elseE.Some? ==> Settled(elseE.value))
    case Block(stmts) => forall s | s in stmts :: SettledStmt(s)
    case Call(_, args) => forall x | x in args :: Settled(x)
  }

  predicate SettledStmt(s: Stmt)
    decreases s
  {
    match s
    case Bind(_, init) => Settled(init)
    case Do(e) => Settled(e)
    case Return(result) => result.Some? ==> Settled(result.value)
    case Assign(_, _, rhs) => Settled(rhs)
    case AssignIndex(_, at, _, rhs) => Settled(at) && Settled(rhs)
    case For(_, Range(lo, hi, _), body) => Settled(lo) && Settled(hi) && CallFree(body)
    case For(_, Each(of), body) => Settled(of) && CallFree(body)
    case While(cond, body) => Settled(cond) && CallFree(body)
    case Jump(_) => true
  }

  predicate TidyProgram(p: Program) {
    forall f | f in p.funcs :: p.funcs[f].body.Block? && Tidy(p.funcs[f].body) && Settled(p.funcs[f].body)
  }

  lemma {:induction false} ReturnFreeTidy(e: Expr)
    requires ReturnFree(e)
    ensures Tidy(e)
    decreases e
  {
    match e {
      case Block(stmts) =>
        forall s | s in stmts
          ensures TidyStmt(s)
        {
          ReturnFreeTidyStmt(s);
        }
      case Paren(inner) => ReturnFreeTidy(inner);
      case If(_, thenE, elseE) =>
        ReturnFreeTidy(thenE);
        if elseE.Some? { ReturnFreeTidy(elseE.value); }
      case _ =>
    }
  }

  lemma {:induction false} ReturnFreeTidyStmt(s: Stmt)
    requires ReturnFreeStmt(s)
    ensures TidyStmt(s)
    decreases s
  {
    match s {
      case Bind(_, init) => ReturnFreeTidy(init);
      case Do(e) => ReturnFreeTidy(e);
      case Assign(_, _, rhs) => ReturnFreeTidy(rhs);
      case AssignIndex(_, _, _, _) =>
      case For(_, _, _) =>
      case While(_, _) =>
      case Jump(_) =>
    }
  }

  /** Tidy code that returns does not bail afterwards, and its value is what was returned. */
  lemma {:induction false} TidyReturns(p: Program, e: Expr, frame: Frame, depth: nat)
    requires Tidy(e) && frame.returned.None?
    ensures var r := Fold(p, e, frame, depth); r.frame.returned.Some? ==> r.v == r.frame.returned
    decreases e, 0
  {
    if depth <= MAX_DEPTH {
      match e {
        case Block(stmts) => TidyReturnsBlock(p, stmts, frame, depth);
        case Paren(inner) => TidyReturns(p, inner, frame, depth);
        case If(cond, thenE, elseE) =>
          NoReturnMade(p, cond, frame, depth);
          var r := Fold(p, cond, frame, depth).frame;
          TidyReturns(p, thenE, r, depth);
          if elseE.Some? { TidyReturns(p, elseE.value, r, depth); }
        case _ => NoReturnMade(p, e, frame, depth);
      }
    }
  }

  lemma {:induction false} TidyReturnsBlock(p: Program, stmts: seq<Stmt>, frame: Frame, depth: nat)
    requires (forall s | s in stmts :: TidyStmt(s)) && frame.returned.None?
    ensures var r := FoldBlock(p, stmts, frame, depth); r.frame.returned.Some? ==> r.v == r.frame.returned
    decreases stmts, 0
  {
    if stmts != [] {
      TidyReturnsStmt(p, stmts[0], frame, depth);
      var r := FoldStmt(p, stmts[0], frame, depth);
      if r.frame.returned.None? { TidyReturnsBlock(p, stmts[1..], r.frame, depth); }
    }
  }

  lemma {:induction false} TidyReturnsStmt(p: Program, s: Stmt, frame: Frame, depth: nat)
    requires TidyStmt(s) && frame.returned.None?
    ensures var r := FoldStmt(p, s, frame, depth); r.frame.returned.Some? ==> r.v.Some?
    decreases s, 0
  {
    match s {
      case Bind(_, init) => TidyReturns(p, init, frame, depth);
      case Do(e) => TidyReturns(p, e, frame, depth);
      case Return(result) => if result.Some? { TidyReturns(p, result.value, frame, depth); }
      case Assign(_, op, rhs) =>
        if op.None? { TidyReturns(p, rhs, frame, depth); } else { NoReturnMade(p, rhs, frame, depth); }
      case AssignIndex(_, at, _, rhs) =>
        NoReturnMade(p, at, frame, depth);
        NoReturnMade(p, rhs, Fold(p, at, frame, depth).frame, depth);
      case For(_, _, _) =>
        NoReturnItems(p, s, frame, depth);
        var r := FoldItems(p, s, frame, depth);
        if r.items.Some? { TurnsEnd(p, s, r.items.value, 0, r.frame, depth); }
      case While(_, _) => WhileEnds(p, s, 0, frame, depth);
      case Jump(_) =>
    }
  }

  /** A loop that returns has folded. */
  lemma {:induction false} TurnsEnd(p: Program, s: Stmt, items: Items, k: nat, frame: Frame, depth: nat)
    requires s.For? && frame.returned.None?
    ensures var r := FoldTurns(p, s, items, k, frame, depth); r.frame.returned.Some? ==> r.v.Some?
    decreases if k < MAX_TURNS then MAX_TURNS - k else 0
  {
    if k < Size(items) && k < MAX_TURNS {
      var r := Fold(p, s.body, frame.(locals := BindTo(frame.locals, s.binder, At(items, k))), depth);
      if r.frame.returned.None? { TurnsEnd(p, s, items, k + 1, r.frame, depth); }
    }
  }

  lemma {:induction false} WhileEnds(p: Program, s: Stmt, k: nat, frame: Frame, depth: nat)
    requires s.While? && ReturnFree(s.cond) && frame.returned.None?
    ensures var r := FoldWhile(p, s, k, frame, depth); r.frame.returned.Some? ==> r.v.Some?
    decreases if k < MAX_TURNS then MAX_TURNS - k else 0
  {
    if k < MAX_TURNS {
      NoReturnMade(p, s.cond, frame, depth);
      var r := Fold(p, s.body, Fold(p, s.cond, frame, depth).frame, depth);
      if r.frame.returned.None? { WhileEnds(p, s, k + 1, r.frame, depth); }
    }
  }

  // ------------------------------------------------------------ more depth

  /** Tidy and settled code that folds at some depth folds alike, effects included, at any smaller one. */
  lemma {:induction false} DepthIrrelevant(p: Program, e: Expr, frame: Frame, depth: nat, less: nat)
    requires less <= depth && TidyProgram(p) && Tidy(e) && Settled(e) && frame.returned.None?
    requires Fold(p, e, frame, depth).v.Some?
    ensures Fold(p, e, frame, less) == Fold(p, e, frame, depth)
    decreases Left(depth), e, 2
  {
    match e {
      case IntLit(_) =>
      case BoolLit(_) =>
      case Ident(_) =>
      case Paren(inner) => DepthIrrelevant(p, inner, frame, depth, less);
      case VecLit(elements) => DepthIrrelevantAll(p, elements, frame, depth, less);
      case Index(base, at) => DepthIrrelevantPair(p, e, base, at, frame, depth, less);
      case Neg(operand) => DepthIrrelevantOperand(p, e, operand, frame, depth, less);
      case Not(operand) => DepthIrrelevantOperand(p, e, operand, frame, depth, less);
      case BitNot(operand) => DepthIrrelevantOperand(p, e, operand, frame, depth, less);
      case Logic(_, lhs, rhs) => DepthIrrelevantPair(p, e, lhs, rhs, frame, depth, less);
      case Binary(_, lhs, rhs) => DepthIrrelevantPair(p, e, lhs, rhs, frame, depth, less);
      case If(cond, thenE, elseE) =>
        DepthIrrelevantOperand(p, e, cond, frame, depth, less);
        var r := Fold(p, cond, frame, depth);
        if r.v.value.b {
          DepthIrrelevant(p, thenE, r.frame, depth, less);
        } else if elseE.Some? {
          DepthIrrelevant(p, elseE.value, r.frame, depth, less);
        }
      case Block(stmts) => DepthIrrelevantBlock(p, stmts, frame, depth, less);
      case Call(_, _) => DepthIrrelevantCall(p, e, frame, depth, less);
    }
  }

  lemma {:induction false} DepthIrrelevantCall(p: Program, e: Expr, frame: Frame, depth: nat, less: nat)
    requires e.Call? && less <= depth && TidyProgram(p) && Tidy(e) && Settled(e) && frame.returned.None?
    requires Fold(p, e, frame, depth).v.Some?
    ensures Fold(p, e, frame, less) == Fold(p, e, frame, depth)
    decreases Left(depth), e, 1
  {
    DepthIrrelevantAll(p, e.args, frame, depth + 1, less + 1);
    var r := FoldAll(p, e.args, frame, depth + 1);
    var inner := Frame(Bound(p.funcs[e.callee].params, r.vs.value), None);
    DepthIrrelevant(p, p.funcs[e.callee].body, inner, depth + 1, less + 1);
  }

  lemma {:induction false} DepthIrrelevantOperand(p: Program, whole: Expr, e: Expr, frame: Frame, depth: nat, less: nat)
    requires e < whole && less <= depth && TidyProgram(p) && ReturnFree(e) && Settled(e) && frame.returned.None?
    requires Fold(p, e, frame, depth).v.Some?
    ensures Fold(p, e, frame, less) == Fold(p, e, frame, depth)
    ensures Fold(p, e, frame, depth).frame.returned.None?
    decreases Left(depth), whole, 0
  {
    ReturnFreeTidy(e);
    NoReturnMade(p, e, frame, depth);
    DepthIrrelevant(p, e, frame, depth, less);
  }

  lemma {:induction false} DepthIrrelevantPair(p: Program, whole: Expr, e1: Expr, e2: Expr, frame: Frame, depth: nat, less: nat)
    requires e1 < whole && e2 < whole && less <= depth && TidyProgram(p)
    requires ReturnFree(e1) && ReturnFree(e2) && Settled(e1) && Settled(e2) && frame.returned.None?
    requires Fold(p, e1, frame, depth).v.Some?
    ensures var r := Fold(p, e1, frame, depth);
      && Fold(p, e1, frame, less) == r
      && (Fold(p, e2, r.frame, depth).v.Some? ==> Fold(p, e2, r.frame, less) == Fold(p, e2, r.frame, depth))
    decreases Left(depth), whole, 1
  {
    DepthIrrelevantOperand(p, whole, e1, frame, depth, less);
    var r := Fold(p, e1, frame, depth);
    if Fold(p, e2, r.frame, depth).v.Some? { DepthIrrelevantOperand(p, whole, e2, r.frame, depth, less); }
  }

  lemma {:induction false} DepthIrrelevantAll(p: Program, es: seq<Expr>, frame: Frame, depth: nat, less: nat)
    requires less <= depth && TidyProgram(p) && (forall e | e in es :: ReturnFree(e) && Settled(e)) && frame.returned.None?
    requires FoldAll(p, es, frame, depth).vs.Some?
    ensures FoldAll(p, es, frame, less) == FoldAll(p, es, frame, depth)
    decreases Left(depth), es, 2
  {
    if es != [] {
      var n := |es| - 1;
      DepthIrrelevantAll(p, es[..n], frame, depth, less);
      NoReturnMadeAll(p, es[..n], frame, depth);
      ReturnFreeTidy(es[n]);
      DepthIrrelevant(p, es[n], FoldAll(p, es[..n], frame, depth).frame, depth, less);
    }
  }

  lemma {:induction false} DepthIrrelevantBlock(p: Program, stmts: seq<Stmt>, frame: Frame, depth: nat, less: nat)
    requires less <= depth && TidyProgram(p) && (forall s | s in stmts :: TidyStmt(s) && SettledStmt(s)) && frame.returned.None?
    requires FoldBlock(p, stmts, frame, depth).v.Some?
    ensures FoldBlock(p, stmts, frame, less) == FoldBlock(p, stmts, frame, depth)
    decreases Left(depth), stmts, 2
  {
    var r := FoldStmt(p, stmts[0], frame, depth);
    TidyReturnsStmt(p, stmts[0], frame, depth);
    DepthIrrelevantStmt(p, stmts[0], frame, depth, less);
    if |stmts| == 1 && stmts[0].Do? {
      assert FoldLast(p, stmts[0], frame, depth) == r && FoldLast(p, stmts[0], frame, less) == r;
    } else if r.frame.returned.None? {
      DepthIrrelevantBlock(p, stmts[1..], r.frame, depth, less);
    }
  }

  lemma {:induction false} DepthIrrelevantStmt(p: Program, s: Stmt, frame: Frame, depth: nat, less: nat)
    requires less <= depth && TidyProgram(p) && TidyStmt(s) && SettledStmt(s) && frame.returned.None?
    requires FoldStmt(p, s, frame, depth).v.Some?
    ensures FoldStmt(p, s, frame, less) == FoldStmt(p, s, frame, depth)
    decreases Left(depth), s, 2
  {
    match s {
      case Bind(_, init) => DepthIrrelevant(p, init, frame, depth, less);
      case Do(e) => DepthIrrelevant(p, e, frame, depth, less);
      case Return(result) => if result.Some? { DepthIrrelevant(p, result.value, frame, depth, less); }
      case Assign(_, op, rhs) =>
        if op.Some? { ReturnFreeTidy(rhs); }
        DepthIrrelevant(p, rhs, frame, depth, less);
      case AssignIndex(_, at, _, rhs) =>
        ReturnFreeTidy(at);
        ReturnFreeTidy(rhs);
        NoReturnMade(p, at, frame, depth);
        DepthIrrelevant(p, at, frame, depth, less);
        DepthIrrelevant(p, rhs, Fold(p, at, frame, depth).frame, depth, less);
      case For(_, _, _) =>
        DepthIrrelevantItems(p, s, frame, depth, less);
        ItemsInDepth(p, s, frame, depth);
        var r := FoldItems(p, s, frame, depth);
        SameTurns(p, s, r.items.value, 0, r.frame, depth, less);
      case While(_, _) => DepthIrrelevantWhile(p, s, 0, frame, depth, less);
    }
  }

  lemma {:induction false} DepthIrrelevantItems(p: Program, s: Stmt, frame: Frame, depth: nat, less: nat)
    requires s.For? && less <= depth && TidyProgram(p) && TidyStmt(s) && SettledStmt(s) && frame.returned.None?
    requires FoldItems(p, s, frame, depth).items.Some?
    ensures FoldItems(p, s, frame, less) == FoldItems(p, s, frame, depth)
    decreases Left(depth), s, 1
  {
    match s.iter {
      case Each(of) =>
        ReturnFreeTidy(of);
        DepthIrrelevant(p, of, frame, depth, less);
      case Range(lo, hi, _) =>
        ReturnFreeTidy(lo);
        ReturnFreeTidy(hi);
        NoReturnMade(p, lo, frame, depth);
        DepthIrrelevant(p, lo, frame, depth, less);
        DepthIrrelevant(p, hi, Fold(p, lo, frame, depth).frame, depth, less);
    }
  }

  lemma {:induction false} DepthIrrelevantWhile(p: Program, s: Stmt, k: nat, frame: Frame, depth: nat, less: nat)
    requires s.While? && less <= depth && TidyProgram(p) && TidyStmt(s) && SettledStmt(s) && frame.returned.None?
    requires FoldWhile(p, s, k, frame, depth).v.Some?
    ensures FoldWhile(p, s, k, frame, less) == FoldWhile(p, s, k, frame, depth)
    decreases Left(depth), s, 1, if k < MAX_TURNS then MAX_TURNS - k else 0
  {
    ReturnFreeTidy(s.cond);
    NoReturnMade(p, s.cond, frame, depth);
    DepthIrrelevant(p, s.cond, frame, depth, less);
    var c := Fold(p, s.cond, frame, depth);
    if c.v.value.b {
      SameAtAnyDepth(p, s.body, c.frame, depth, less);
      var r := Fold(p, s.body, c.frame, depth);
      if r.frame.returned.None? { DepthIrrelevantWhile(p, s, k + 1, r.frame, depth, less); }
    }
  }
}
