/** Inputs on which the folder goes wrong, or depends on the depth that is left. */
module ComptimeFaults {
  import opened Wrappers
  import opened Comptime
  import opened ComptimeMeaning
  import opened ComptimeSound
  import opened ComptimeDepth

  // ------------------------------------------------- returns inside returns

  /** `{ return { return 1 } + e }`. */
  function NestedReturn(e: Expr): Expr {
    Block([Return(Some(Binary(Add, Block([Return(Some(IntLit(1)))]), e)))])
  }

  /** The inner `return` runs, and then whatever `e` folds to decides. */
  lemma NestedReturnFolds(p: Program, e: Expr, locals: Names, depth: nat)
    requires depth <= MAX_DEPTH
    ensures var after := Frame(locals, Some(Int(1))); var r := Fold(p, e, after, depth);
      && (r.v.None? ==> Fold(p, NestedReturn(e), Frame(locals, None), depth) == r)
      && (r.v.Some? && r.v.value.Int? && Fits(1 + r.v.value.i) ==>
            var w := Some(Int(1 + r.v.value.i));
            Fold(p, NestedReturn(e), Frame(locals, None), depth) == Folded(w, r.frame.(returned := w)))
  {
    var frame, after := Frame(locals, None), Frame(locals, Some(Int(1)));
    var inner := [Return(Some(IntLit(1)))];
    assert FoldStmt(p, inner[0], frame, depth) == Folded(Some(Int(1)), after);
    assert FoldBlock(p, inner, frame, depth) == Folded(Some(Int(1)), after);
    var sum := Binary(Add, Block(inner), e);
    assert Fold(p, Block(inner), frame, depth) == Folded(Some(Int(1)), after);
    var r := Fold(p, e, after, depth);
    var outer := [Return(Some(sum))];
    assert Fold(p, NestedReturn(e), frame, depth) == FoldBlock(p, outer, frame, depth);
    if r.v.None? {
      assert Fold(p, sum, frame, depth) == r;
      assert FoldStmt(p, outer[0], frame, depth) == r;
    } else if r.v.value.Int? && Fits(1 + r.v.value.i) {
      assert Fold(p, sum, frame, depth) == Folded(Some(Int(1 + r.v.value.i)), r.frame);
    }
  }

  lemma NestedReturnMeans(p: Program, e: Expr, env: Names, fuel: Fuel)
    ensures Eval(p, fuel, NestedReturn(e), env) == Returned(Int(1))
  {
    var inner := [Return(Some(IntLit(1)))];
    var sum := Binary(Add, Block(inner), e);
    var outer := [Return(Some(sum))];
    assert EvalStmt(p, fuel, inner[0], env) == Returned(Int(1));
    assert EvalBlock(p, fuel, inner, env) == Returned(Int(1));
    assert Eval(p, fuel, sum, env) == Returned(Int(1));
    assert EvalStmt(p, fuel, outer[0], env) == Returned(Int(1));
  }

  /** `{ return { return 1 } + 3 }` means 1, and the outer `return` makes the folder answer 4. */
  lemma OuterReturnOverwrites(p: Program, env: Names, fuel: Fuel)
    ensures Fold(p, NestedReturn(IntLit(3)), Frame(env, None), 0).v == Some(Int(4))
    ensures Eval(p, fuel, NestedReturn(IntLit(3)), env) == Returned(Int(1))
  {
    var after := Frame(env, Some(Int(1)));
    assert Fold(p, IntLit(3), after, 0) == Folded(Some(Int(3)), after);
    NestedReturnFolds(p, IntLit(3), env, 0);
    NestedReturnMeans(p, IntLit(3), env, fuel);
  }

  // ------------------------------------------------------- what depth decides

  /** A function without parameters whose body is the literal `n`. */
  predicate Constant(p: Program, f: string, n: int) {
    f in p.funcs && p.funcs[f] == Func([], Block([Do(IntLit(n))]))
  }

  lemma CallFolds(p: Program, f: string, n: int, frame: Frame, depth: nat)
    requires Constant(p, f, n)
    ensures depth < MAX_DEPTH ==> Fold(p, Call(f, []), frame, depth) == Folded(Some(Int(n)), frame)
    ensures depth == MAX_DEPTH ==> Fold(p, Call(f, []), frame, depth) == Folded(None, frame)
  {
    var body := [Do(IntLit(n))];
    var start := Frame(Bound([], []), None);
    assert FoldAll(p, [], frame, depth + 1) == FoldedAll(Some([]), frame);
    if depth < MAX_DEPTH {
      assert FoldLast(p, body[0], start, depth + 1) == Folded(Some(Int(n)), start);
      assert FoldBlock(p, body, start, depth + 1) == Folded(Some(Int(n)), start);
    }
  }

  /** `{ { return { return 1 } + f() } }`. */
  function Wrapped(f: string): Expr { Block([Do(NestedReturn(Call(f, [])))]) }

  lemma WrappedFolds(p: Program, f: string, locals: Names, depth: nat)
    requires depth <= MAX_DEPTH
    ensures var r := Fold(p, NestedReturn(Call(f, [])), Frame(locals, None), depth);
      Fold(p, Wrapped(f), Frame(locals, None), depth).v == if r.frame.returned.Some? then r.frame.returned else r.v
  {
    var stmts := [Do(NestedReturn(Call(f, [])))];
    var frame := Frame(locals, None);
    assert FoldLast(p, stmts[0], frame, depth) == Fold(p, NestedReturn(Call(f, [])), frame, depth);
    assert Fold(p, Wrapped(f), frame, depth) == FoldBlock(p, stmts, frame, depth);
  }

  /** With `f` returning 5, this folds to 6 at depth 0, and to 1 where the call runs out of
      depth: outside regular code, two depths can give two values. */
  lemma DepthChangesTheValue(p: Program, f: string, locals: Names)
    requires Constant(p, f, 5)
    ensures Fold(p, Wrapped(f), Frame(locals, None), 0).v == Some(Int(6))
    ensures Fold(p, Wrapped(f), Frame(locals, None), MAX_DEPTH).v == Some(Int(1))
  {
    var after := Frame(locals, Some(Int(1)));
    CallFolds(p, f, 5, after, 0);
    CallFolds(p, f, 5, after, MAX_DEPTH);
    NestedReturnFolds(p, Call(f, []), locals, 0);
    NestedReturnFolds(p, Call(f, []), locals, MAX_DEPTH);
    WrappedFolds(p, f, locals, 0);
    WrappedFolds(p, f, locals, MAX_DEPTH);
  }

  /** `{ x = { return 1 } + f(); 0 }`, as the last expression of a block. */
  function Assigning(x: string, f: string): Expr { Block([Do(Block(AssignFirst(x, f)))]) }

  function AssignFirst(x: string, f: string): seq<Stmt> { [AssignSum(x, f), Do(IntLit(0))] }

  function AssignSum(x: string, f: string): Stmt { Assign(x, None, Binary(Add, Block([Return(Some(IntLit(1)))]), Call(f, []))) }

  lemma AssigningFolds(p: Program, x: string, f: string, locals: Names, depth: nat)
    requires depth <= MAX_DEPTH && Constant(p, f, -1)
    ensures var later := if depth < MAX_DEPTH then locals[x := Int(0)] else locals;
      Fold(p, Assigning(x, f), Frame(locals, None), depth) == Folded(Some(Int(1)), Frame(later, Some(Int(1))))
  {
    var frame, after := Frame(locals, None), Frame(locals, Some(Int(1)));
    var one := [Return(Some(IntLit(1)))];
    assert FoldStmt(p, one[0], frame, depth) == Folded(Some(Int(1)), after);
    assert FoldBlock(p, one, frame, depth) == Folded(Some(Int(1)), after);
    assert Fold(p, Block(one), frame, depth) == Folded(Some(Int(1)), after);
    CallFolds(p, f, -1, after, depth);
    var sum := Binary(Add, Block(one), Call(f, []));
    assert Fold(p, sum, frame, depth) == Folded(if depth < MAX_DEPTH then Some(Int(0)) else None, after);
    var inner, outer := AssignFirst(x, f), [Do(Block(AssignFirst(x, f)))];
    var last := Frame(if depth < MAX_DEPTH then locals[x := Int(0)] else locals, Some(Int(1)));
    assert FoldStmt(p, inner[0], frame, depth).frame == last;
    assert FoldBlock(p, inner, frame, depth).frame == last;
    assert Fold(p, Block(inner), frame, depth).frame == last;
    assert FoldLast(p, outer[0], frame, depth).frame == last;
    assert Fold(p, Assigning(x, f), frame, depth) == FoldBlock(p, outer, frame, depth);
  }

  /** `{ let z = { { x = { return 1 } + f(); 0 } } + 10 / x; 0 }`. */
  function LateFailure(x: string, z: string, f: string): Expr {
    Block([LateBind(x, z, f), Do(IntLit(0))])
  }

  function LateBind(x: string, z: string, f: string): Stmt {
    Bind(z, Binary(Add, Assigning(x, f), Binary(Div, IntLit(10), Ident(x))))
  }

  /** With `x` at 1 and `f` returning -1, this regular code folds to 1 where the call runs out of
      depth, and at depth 0 not at all: after the `return` the division goes on, and now fails. */
  lemma DepthChangesTheFailure(p: Program, x: string, z: string, f: string)
    requires Constant(p, f, -1) && x != z && z !in p.consts
    ensures Regular(p, LateFailure(x, z, f), {x})
    ensures Fold(p, LateFailure(x, z, f), Frame(map[x := Int(1)], None), MAX_DEPTH).v == Some(Int(1))
    ensures Fold(p, LateFailure(x, z, f), Frame(map[x := Int(1)], None), 0).v == None
  {
    LateFailureRegular(p, x, z, f);
    LateFailureFolds(p, x, z, f, map[x := Int(1)], 0);
    LateFailureFolds(p, x, z, f, map[x := Int(1)], MAX_DEPTH);
  }

  lemma AssigningRegular(p: Program, x: string, f: string, scope: set<string>)
    ensures Regular(p, Assigning(x, f), scope)
  {
    var one, inner, outer := [Return(Some(IntLit(1)))], AssignFirst(x, f), [Do(Block(AssignFirst(x, f)))];
    assert RegularStmt(p, one[0], scope) && RegularBlock(p, one[1..], scope);
    assert RegularBlock(p, one, scope);
    assert RegularStmt(p, inner[0], scope) && RegularStmt(p, inner[1], scope);
    assert RegularBlock(p, inner[1..][1..], scope);
    assert RegularBlock(p, inner[1..], scope);
    assert RegularBlock(p, inner, scope);
    assert RegularStmt(p, outer[0], scope) && RegularBlock(p, outer[1..], scope);
  }

  lemma LateFailureRegular(p: Program, x: string, z: string, f: string)
    requires x != z && z !in p.consts
    ensures Regular(p, LateFailure(x, z, f), {x})
  {
    var scope := {x};
    AssigningRegular(p, x, f, scope);
    var ten, divisor := IntLit(10), Ident(x);
    assert Regular(p, ten, scope) && Regular(p, divisor, scope);
    assert Regular(p, Binary(Div, ten, divisor), scope);
    assert Regular(p, Binary(Add, Assigning(x, f), Binary(Div, ten, divisor)), scope);
    var all := [LateBind(x, z, f), Do(IntLit(0))];
    assert RegularStmt(p, all[0], scope);
    assert ScopeAfter(all[0], scope) == {x, z};
    assert RegularStmt(p, all[1], {x, z}) && RegularBlock(p, all[1..][1..], {x, z});
    assert RegularBlock(p, all[1..], {x, z});
  }

  lemma LateFailureFolds(p: Program, x: string, z: string, f: string, locals: Names, depth: nat)
    requires depth <= MAX_DEPTH && Constant(p, f, -1) && x != z && x in locals && locals[x] == Int(1)
    ensures Fold(p, LateFailure(x, z, f), Frame(locals, None), depth).v == if depth < MAX_DEPTH then None else Some(Int(1))
  {
    var frame := Frame(locals, None);
    AssigningFolds(p, x, f, locals, depth);
    var r := Fold(p, Assigning(x, f), frame, depth);
    var ratio := Binary(Div, IntLit(10), Ident(x));
    assert Fold(p, IntLit(10), r.frame, depth) == Folded(Some(Int(10)), r.frame);
    assert Fold(p, Ident(x), r.frame, depth) == Folded(Some(Int(if depth < MAX_DEPTH then 0 else 1)), r.frame);
    assert Fold(p, ratio, r.frame, depth).v == if depth < MAX_DEPTH then None else Some(Int(10));
    assert Fold(p, ratio, r.frame, depth).frame == r.frame;
    var all := [LateBind(x, z, f), Do(IntLit(0))];
    assert FoldStmt(p, all[0], frame, depth).v == if depth < MAX_DEPTH then None else Some(Int(11));
    assert Fold(p, LateFailure(x, z, f), frame, depth) == FoldBlock(p, all, frame, depth);
  }

  // ------------------------------------------------------- bodies that fail

  /** `{ if true { y = 1 }; y = 5 }`: the `if` has no value, so the statement does not fold. */
  function FailingBody(y: string): Expr {
    Block([SetInIf(y), Assign(y, None, IntLit(5))])
  }

  function SetInIf(y: string): Stmt { Do(If(BoolLit(true), Block([Assign(y, None, IntLit(1))]), None)) }

  lemma FailingBodyFolds(p: Program, y: string, locals: Names, depth: nat)
    requires depth <= MAX_DEPTH
    ensures Fold(p, FailingBody(y), Frame(locals, None), depth) == Folded(None, Frame(locals[y := Int(1)], None))
  {
    var frame, later := Frame(locals, None), Frame(locals[y := Int(1)], None);
    var one := [Assign(y, None, IntLit(1))];
    assert FoldStmt(p, one[0], frame, depth) == Folded(Some(Int(1)), later);
    assert FoldBlock(p, one[1..], later, depth) == Folded(None, later);
    assert FoldBlock(p, one, frame, depth) == Folded(None, later);
    var all := [SetInIf(y), Assign(y, None, IntLit(5))];
    assert Fold(p, BoolLit(true), frame, depth) == Folded(Some(Bool(true)), frame);
    assert Fold(p, Block(one), frame, depth) == Folded(None, later);
    assert Fold(p, If(BoolLit(true), Block(one), None), frame, depth) == Folded(None, later);
    assert FoldStmt(p, all[0], frame, depth) == Folded(None, later);
    assert Fold(p, FailingBody(y), frame, depth) == FoldBlock(p, all, frame, depth);
  }

  lemma FailingBodyMeans(p: Program, y: string, env: Names, fuel: Fuel)
    requires y in env
    ensures Eval(p, fuel, FailingBody(y), env) == Done(Unit, env[y := Int(5)])
  {
    var one := [Assign(y, None, IntLit(1))];
    var mid := env[y := Int(1)];
    assert EvalStmt(p, fuel, one[0], env) == Done(Int(1), mid);
    assert EvalBlock(p, fuel, one[1..], mid) == Done(Unit, mid);
    assert EvalBlock(p, fuel, one, env) == Done(Unit, mid);
    assert Leave(env, Done(Unit, mid)) == Done(Unit, mid);
    var all := [SetInIf(y), Assign(y, None, IntLit(5))];
    assert Eval(p, fuel, BoolLit(true), env) == Done(Bool(true), env);
    assert Eval(p, fuel, Block(one), env) == Done(Unit, mid);
    assert EvalStmt(p, fuel, all[0], env) == Done(Unit, mid);
    var end := env[y := Int(5)];
    assert mid[y := Int(5)] == end;
    assert EvalStmt(p, fuel, all[1], mid) == Done(Int(5), end);
    assert EvalBlock(p, fuel, all[1..][1..], end) == Done(Unit, end);
    assert EvalBlock(p, fuel, all[1..], mid) == Done(Unit, end);
    assert EvalBlock(p, fuel, all, env) == Done(Unit, end);
    assert Leave(env, Done(Unit, end)) == Done(Unit, end);
  }

  /** `for _ in 0 ..< 1 { if true { y = 1 }; y = 5 }`. */
  function Once(y: string): Stmt { For(None, Range(IntLit(0), IntLit(1), false), FailingBody(y)) }

  /** The loop folds although its body does not: `y` is 1 afterwards, and the code means 5. */
  lemma FailedBodyIsDropped(p: Program, y: string, locals: Names, env: Names, depth: nat, fuel: Fuel)
    requires depth <= MAX_DEPTH && y in env && fuel.turns > 0
    ensures FoldStmt(p, Once(y), Frame(locals, None), depth) == Folded(Some(Unit), Frame(locals[y := Int(1)], None))
    ensures EvalStmt(p, fuel, Once(y), env) == Done(Unit, env[y := Int(5)])
  {
    var s, items := Once(y), UpTo(0, 1);
    var frame, later := Frame(locals, None), Frame(locals[y := Int(1)], None);
    FailingBodyFolds(p, y, locals, depth);
    assert FoldItems(p, s, frame, depth) == FoldedItems(Some(items), frame);
    assert FoldTurns(p, s, items, 1, later, depth) == Folded(Some(Unit), later);
    assert FoldTurns(p, s, items, 0, frame, depth) == Folded(Some(Unit), later);
    FailingBodyMeans(p, y, env, fuel);
    var end := env[y := Int(5)];
    assert EvalItems(p, fuel, s, env) == Over(items, env);
    assert Leave(env, Done(Unit, end)) == Done(Unit, end);
    assert EvalTurns(p, fuel, s, items, 1, end) == Done(Unit, end);
    assert EvalTurns(p, fuel, s, items, 0, env) == Done(Unit, end);
  }

  /** `{ y += 1; break }`. */
  function CountOnce(y: string): Expr { Block(CountStmts(y)) }

  function CountStmts(y: string): seq<Stmt> { [Assign(y, Some(Add), IntLit(1)), Jump(true)] }

  lemma CountOnceFolds(p: Program, y: string, n: int, locals: Names, depth: nat)
    requires depth <= MAX_DEPTH && y in locals && locals[y] == Int(n) && Fits(n + 1)
    ensures Fold(p, CountOnce(y), Frame(locals, None), depth) == Folded(None, Frame(locals[y := Int(n + 1)], None))
  {
    var frame, later := Frame(locals, None), Frame(locals[y := Int(n + 1)], None);
    var all := CountStmts(y);
    assert Fold(p, IntLit(1), frame, depth) == Folded(Some(Int(1)), frame);
    assert FoldStmt(p, all[0], frame, depth) == Folded(Some(Int(n + 1)), later);
    assert FoldStmt(p, all[1], later, depth) == Folded(None, later);
    assert FoldBlock(p, all[1..], later, depth) == Folded(None, later);
    assert FoldBlock(p, all, frame, depth) == Folded(None, later);
  }

  lemma CountOnceMeans(p: Program, y: string, n: int, env: Names, fuel: Fuel)
    requires y in env && env[y] == Int(n) && Fits(n + 1)
    ensures Eval(p, fuel, CountOnce(y), env) == Jumped(true, env[y := Int(n + 1)])
  {
    var all, end := CountStmts(y), env[y := Int(n + 1)];
    assert Eval(p, fuel, IntLit(1), env) == Done(Int(1), env);
    assert EvalStmt(p, fuel, all[0], env) == Done(Int(n + 1), end);
    assert EvalBlock(p, fuel, all[1..], end) == Jumped(true, end);
    assert EvalBlock(p, fuel, all, env) == Jumped(true, end);
    assert Leave(env, Jumped(true, end)) == Jumped(true, end);
  }

  /** `for _ in 0 ..< 2 { y += 1; break }`. */
  function CountTwice(y: string): Stmt { For(None, Range(IntLit(0), IntLit(2), false), CountOnce(y)) }

  /** A `break` does not fold, and the loop turns on: from 0, `y` becomes 2, and the code means 1. */
  lemma BreakIsDropped(p: Program, y: string, locals: Names, env: Names, depth: nat, fuel: Fuel)
    requires depth <= MAX_DEPTH && fuel.turns > 0
    requires y in env && env[y] == Int(0) && y in locals && locals[y] == Int(0)
    ensures FoldStmt(p, CountTwice(y), Frame(locals, None), depth) == Folded(Some(Unit), Frame(locals[y := Int(2)], None))
    ensures EvalStmt(p, fuel, CountTwice(y), env) == Done(Unit, env[y := Int(1)])
  {
    var s, items := CountTwice(y), UpTo(0, 2);
    var frame, once, twice := Frame(locals, None), Frame(locals[y := Int(1)], None), Frame(locals[y := Int(2)], None);
    CountOnceFolds(p, y, 0, locals, depth);
    CountOnceFolds(p, y, 1, once.locals, depth);
    assert once.locals[y := Int(2)] == twice.locals;
    assert FoldItems(p, s, frame, depth) == FoldedItems(Some(items), frame);
    assert FoldTurns(p, s, items, 2, twice, depth) == Folded(Some(Unit), twice);
    assert FoldTurns(p, s, items, 1, once, depth) == Folded(Some(Unit), twice);
    assert FoldTurns(p, s, items, 0, frame, depth) == Folded(Some(Unit), twice);
    CountOnceMeans(p, y, 0, env, fuel);
    var end := env[y := Int(1)];
    assert EvalItems(p, fuel, s, env) == Over(items, env);
    assert Leave(env, Jumped(true, end)) == Jumped(true, end);
    assert EvalTurns(p, fuel, s, items, 0, env) == Done(Unit, end);
  }
}
