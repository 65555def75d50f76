/** What comptime code means: a big-step evaluation with lexical scopes and checked arithmetic. */
module ComptimeMeaning {
  import opened Wrappers
  import opened Comptime

  /** `Trap`: overflow, division by zero, an index out of range.  `Stuck`: ill-typed or unbound.
      `NoFuel`: calls nest deeper, or loops turn longer, than was asked for.  `Jumped`: on the way
      out of the loop, or to its next turn. */
  datatype Outcome =
    | Done(v: Value, env: Names)
    | Returned(v: Value)
    | Jumped(out: bool, env: Names)
    | Trap | Stuck | NoFuel

  /** How deep calls may nest, and how often a loop may turn. */
  datatype Fuel = Fuel(calls: nat, turns: nat)

  function Checked(n: int, env: Names): Outcome { if Fits(n) then Done(Int(n), env) else Trap }

  function Apply(op: Op, a: Value, b: Value, env: Names): Outcome {
    if a.Int? && b.Int? then
      if IsCompare(op) then Done(Bool(Compare(op, a.i, b.i)), env)
      else
        var n := Exact(op, a.i, b.i);
        if n.Some? then Checked(n.value, env) else Trap
    else if a.Bool? && b.Bool? && (op.Eq? || op.Ne?) then Done(Bool((a.b == b.b) == op.Eq?), env)
    else Stuck
  }

  function Eval(p: Program, fuel: Fuel, e: Expr, env: Names): Outcome
    decreases fuel.calls, e, 0, 0
  {
    match e
    case IntLit(i) => Done(Int(i), env)
    case BoolLit(b) => Done(Bool(b), env)
    case Ident(name) =>
      if name in env then Done(env[name], env) else if name in p.consts then Done(p.consts[name], env) else Stuck
    case Paren(inner) => Eval(p, fuel, inner, env)
    case VecLit(elements) => EvalAll(p, fuel, elements, env)
    case Index(base, at) =>
      var o := Eval(p, fuel, base, env);
      if !o.Done? then o
      else if !o.v.Vec? then Stuck
      else
        var q := Eval(p, fuel, at, o.env);
        if !q.Done? then q
        else if !q.v.Int? then Stuck
        else if 0 <= q.v.i < |o.v.elements| then Done(o.v.elements[q.v.i], q.env)
        else Trap
    case Neg(operand) =>
      var o := Eval(p, fuel, operand, env);
      if !o.Done? then o else if o.v.Int? then Checked(-o.v.i, o.env) else Stuck
    case Not(operand) =>
      var o := Eval(p, fuel, operand, env);
      if !o.Done? then o else if o.v.Bool? then Done(Bool(!o.v.b), o.env) else Stuck
    case BitNot(operand) =>
      var o := Eval(p, fuel, operand, env);
      if !o.Done? then o else if o.v.Int? then Checked(-1 - o.v.i, o.env) else Stuck
    case Logic(isAnd, lhs, rhs) =>
      var o := Eval(p, fuel, lhs, env);
      if !o.Done? then o
      else if !o.v.Bool? then Stuck
      else if o.v.b != isAnd then o
      else
        var q := Eval(p, fuel, rhs, o.env);
        if q.Done? && !q.v.Bool? then Stuck else q
    case Binary(op, lhs, rhs) =>
      var o := Eval(p, fuel, lhs, env);
      if !o.Done? then o
      else
        var q := Eval(p, fuel, rhs, o.env);
        if q.Done? then Apply(op, o.v, q.v, q.env) else q
    case If(cond, thenE, elseE) =>
      var o := Eval(p, fuel, cond, env);
      if !o.Done? then o
      else if !o.v.Bool? then Stuck
      else if o.v.b then Eval(p, fuel, thenE, o.env)
      else if elseE.Some? then Eval(p, fuel, elseE.value, o.env)
      else Done(Unit, o.env)
    case Block(stmts) => Leave(env, EvalBlock(p, fuel, stmts, env))
    case Call(callee, args) =>
      if callee !in p.funcs || |args| != |p.funcs[callee].params| then Stuck
      else
        var o := EvalAll(p, fuel, args, env);
        if !o.Done? then o
        else if !o.v.Vec? || |o.v.elements| != |p.funcs[callee].params| then Stuck
        else if fuel.calls == 0 then NoFuel
        else
          var q := Eval(p, fuel.(calls := fuel.calls - 1), p.funcs[callee].body, Bound(p.funcs[callee].params, o.v.elements));
          if q.Done? || q.Returned? then Done(q.v, o.env) else if q.Jumped? then Stuck else q
  }

  /** The names bound inside a block go out of scope at its end. */
  function Leave(outer: Names, o: Outcome): Outcome {
    if o.Done? || o.Jumped? then o.(env := map x | x in outer && x in o.env :: o.env[x]) else o
  }

  /** From left to right; the values as one vector. */
  function EvalAll(p: Program, fuel: Fuel, es: seq<Expr>, env: Names): Outcome
    decreases fuel.calls, es, 0, 0
  {
    if es == [] then Done(Vec([]), env)
    else
      var n := |es| - 1;
      var o := EvalAll(p, fuel, es[..n], env);
      if !o.Done? || !o.v.Vec? then o
      else
        var q := Eval(p, fuel, es[n], o.env);
        if q.Done? then Done(Vec(o.v.elements + [q.v]), q.env) else q
  }

  function EvalBlock(p: Program, fuel: Fuel, stmts: seq<Stmt>, env: Names): Outcome
    decreases fuel.calls, stmts, 0, 0
  {
    if stmts == [] then Done(Unit, env)
    else
      var o := EvalStmt(p, fuel, stmts[0], env);
      if |stmts| == 1 && stmts[0].Do? then o
      else if o.Done? then EvalBlock(p, fuel, stmts[1..], o.env)
      else o
  }

  function EvalStmt(p: Program, fuel: Fuel, s: Stmt, env: Names): Outcome
    decreases fuel.calls, s, 1, 0
  {
    match s
    case Bind(name, init) =>
      var o := Eval(p, fuel, init, env);
      if o.Done? then Done(o.v, o.env[name := o.v]) else o
    case Do(e) => Eval(p, fuel, e, env)
    case Return(result) =>
      if result.None? then Returned(Unit)
      else
        var o := Eval(p, fuel, result.value, env);
        if o.Done? then Returned(o.v) else o
    case Assign(name, op, rhs) =>
      var o := Eval(p, fuel, rhs, env);
      if !o.Done? then o
      else if name !in o.env then Stuck
      else if op.None? then Done(o.v, o.env[name := o.v])
      else EvalCompound(op.value, name, o.v, o.env)
    case AssignIndex(name, at, op, rhs) =>
      var o := Eval(p, fuel, at, env);
      if !o.Done? then o
      else
        var q := Eval(p, fuel, rhs, o.env);
        if !q.Done? then q
        else if !o.v.Int? || name !in q.env || !q.env[name].Vec? then Stuck
        else if InVec(q.env, name, o.v.i) then EvalSlot(op, name, o.v.i, q.v, q.env)
        else Trap
    case For(_, _, _) =>
      var o := EvalItems(p, fuel, s, env);
      if o.Over? then EvalTurns(p, fuel, s, o.items, 0, o.env) else o.other
    case While(_, _) => EvalWhile(p, fuel, s, 0, env)
    case Jump(out) => Jumped(out, env)
  }

  function EvalCompound(op: Op, name: string, v: Value, env: Names): Outcome
    requires name in env
  {
    var o := Combine(op, env[name], v, env);
    if o.Done? then Done(o.v, env[name := o.v]) else o
  }

  /** `+=` also joins vectors. */
  function Combine(op: Op, current: Value, v: Value, env: Names): Outcome {
    if op.Add? && current.Vec? && v.Vec? then Done(Vec(current.elements + v.elements), env)
    else if IsCompare(op) then Stuck
    else Apply(op, current, v, env)
  }

  function EvalSlot(op: Option<Op>, name: string, i: int, v: Value, env: Names): Outcome
    requires InVec(env, name, i)
  {
    var o := if op.None? then Done(v, env) else Combine(op.value, env[name].elements[i], v, env);
    if o.Done? then Done(o.v, SetSlot(env, name, i, o.v)) else o
  }

  datatype Iterated = Over(items: Items, env: Names) | Other(other: Outcome)

  /** The bounds in order; an upper bound that is reached must have a successor. */
  function EvalItems(p: Program, fuel: Fuel, s: Stmt, env: Names): Iterated
    requires s.For?
    decreases fuel.calls, s, 0, 0
  {
    match s.iter
    case Range(lo, hi, inclusive) =>
      var o := Eval(p, fuel, lo, env);
      if !o.Done? then Other(o)
      else
        var q := Eval(p, fuel, hi, o.env);
        if !q.Done? then Other(q)
        else if !o.v.Int? || !q.v.Int? then Other(Stuck)
        else
          var end := if inclusive then q.v.i + 1 else q.v.i;
          if inclusive && !Fits(end) then Other(Trap) else Over(UpTo(o.v.i, end), q.env)
    case Each(of) =>
      var o := Eval(p, fuel, of, env);
      if !o.Done? then Other(o) else if o.v.Vec? then Over(Listed(o.v.elements), o.env) else Other(Stuck)
  }

  predicate GoesOn(o: Outcome) { o.Done? || (o.Jumped? && !o.out) }

  /** The loop after a turn that was its last. */
  function Ended(o: Outcome): Outcome { if o.Jumped? then Done(Unit, o.env) else o }

  /** Each turn has its own binding of the loop variable, and its own scope. */
  function EvalTurns(p: Program, fuel: Fuel, s: Stmt, items: Items, k: nat, env: Names): Outcome
    requires s.For?
    decreases fuel.calls, s, 0, if k < fuel.turns then fuel.turns - k else 0
  {
    if k >= Size(items) then Done(Unit, env)
    else if k >= fuel.turns then NoFuel
    else
      var o := Leave(env, Eval(p, fuel, s.body, BindTo(env, s.binder, At(items, k))));
      if GoesOn(o) then EvalTurns(p, fuel, s, items, k + 1, o.env) else Ended(o)
  }

  function EvalWhile(p: Program, fuel: Fuel, s: Stmt, k: nat, env: Names): Outcome
    requires s.While?
    decreases fuel.calls, s, 0, if k < fuel.turns then fuel.turns - k else 0
  {
    if k >= fuel.turns then NoFuel
    else
      var c := Eval(p, fuel, s.cond, env);
      if !c.Done? then c
      else if !c.v.Bool? then Stuck
      else if !c.v.b then Done(Unit, c.env)
      else
        var o := Eval(p, fuel, s.body, c.env);
        if GoesOn(o) then EvalWhile(p, fuel, s, k + 1, o.env) else Ended(o)
  }

  // ------------------------------------------------------ the code covered

  /** No `return` in the code of this function. */
  predicate ReturnFree(e: Expr)
    decreases e
  {
    match e
    case IntLit(_) => true
    case BoolLit(_) => true
    case Ident(_) => true
    case Paren(inner) => ReturnFree(inner)
    case VecLit(elements) => forall x | x in elements :: ReturnFree(x)
    case Index(base, at) => ReturnFree(base) && ReturnFree(at)
    case Neg(operand) => ReturnFree(operand)
    case Not(operand) => ReturnFree(operand)
    case BitNot(operand) => ReturnFree(operand)
    case Logic(_, lhs, rhs) => ReturnFree(lhs) && ReturnFree(rhs)
    case Binary(_, lhs, rhs) => ReturnFree(lhs) && ReturnFree(rhs)
    case If(cond, thenE, elseE) => ReturnFree(cond) && ReturnFree(thenE) && (elseE.Some? ==> ReturnFree(elseE.value))
    case Block(stmts) => forall s | s in stmts :: ReturnFreeStmt(s)
    case Call(_, args) => forall x | x in args :: ReturnFree(x)
  }

  predicate ReturnFreeStmt(s: Stmt)
    decreases s
  {
    match s
    case Bind(_, init) => ReturnFree(init)
    case Do(e) => ReturnFree(e)
    case Return(_) => false
    case Assign(_, _, rhs) => ReturnFree(rhs)
    case AssignIndex(_, at, _, rhs) => ReturnFree(at) && ReturnFree(rhs)
    case For(_, iter, body) => ReturnFreeIter(iter) && ReturnFree(body)
    case While(cond, body) => ReturnFree(cond) && ReturnFree(body)
    case Jump(_) => true
  }

  predicate ReturnFreeIter(iter: Iter)
    decreases iter
  {
    match iter
    case Range(lo, hi, _) => ReturnFree(lo) && ReturnFree(hi)
    case Each(of) => ReturnFree(of)
  }

  /** Where a `return` runs inside `e`, what it returns is also the value of `e`. */
  predicate PassesReturn(e: Expr) {
    match e
    case Block(_) => true
    case Paren(inner) => PassesReturn(inner)
    case If(cond, thenE, elseE) => ReturnFree(cond) && PassesReturn(thenE) && (elseE.Some? ==> PassesReturn(elseE.value))
    case _ => ReturnFree(e)
  }

  // A loop takes no notice of a body that does not fold, so only bodies that always fold are
  // covered: they call nothing, for a call may nest too deeply, and skip no statement.

  /** No blocks and no calls: nothing is bound, assigned or returned. */
  predicate Plain(e: Expr)
    decreases e, 0
  {
    match e
    case IntLit(_) => true
    case BoolLit(_) => true
    case Ident(_) => true
    case Paren(inner) => Plain(inner)
    case VecLit(elements) => forall x | x in elements :: Plain(x)
    case Index(base, at) => Plain(base) && Plain(at)
    case Neg(operand) => Plain(operand)
    case Not(operand) => Plain(operand)
    case BitNot(operand) => Plain(operand)
    case Logic(_, lhs, rhs) => Plain(lhs) && Plain(rhs)
    case Binary(_, lhs, rhs) => Plain(lhs) && Plain(rhs)
    case If(cond, thenE, elseE) => Plain(cond) && Plain(thenE) && (elseE.Some? ==> Plain(elseE.value))
    case Block(_) => false
    case Call(_, _) => false
  }

  /** Folds to a value, unless the code goes wrong. */
  predicate Steady(e: Expr)
    decreases e, 0
  {
    match e
    case IntLit(_) => true
    case BoolLit(_) => true
    case Ident(_) => true
    case Paren(inner) => Steady(inner)
    case VecLit(elements) => forall x | x in elements :: Steady(x)
    case Index(base, at) => Steady(base) && Steady(at)
    case Neg(operand) => Steady(operand)
    case Not(operand) => Steady(operand)
    case BitNot(operand) => Steady(operand)
    case Logic(_, lhs, rhs) => Steady(lhs) && Steady(rhs)
    case Binary(_, lhs, rhs) => Steady(lhs) && Steady(rhs)
    case If(cond, thenE, elseE) => Steady(cond) && Steady(thenE) && (elseE.Some? ==> Steady(elseE.value))
    case Block(stmts) =>
      (forall s | s in stmts :: SteadyStmt(s)) && stmts != [] && (stmts[|stmts| - 1].Do? || stmts[|stmts| - 1].Return?)
    case Call(_, _) => false
  }

  predicate SteadyStmt(s: Stmt)
    decreases s, 0
  {
    match s
    case Bind(_, init) => Steady(init)
    case Do(e) => Steady(e)
    case Return(result) => result.Some? ==> Steady(result.value)
    case Assign(_, _, rhs) => Steady(rhs)
    case AssignIndex(_, at, _, rhs) => Plain(at) && Plain(rhs)
    case For(_, iter, body) => IsShort(iter) && Runs(body)
    case While(_, _) => false
    case Jump(_) => false
  }

  /** A range between literals, within the limit on turns. */
  predicate IsShort(iter: Iter) {
    iter.Range? && iter.lo.IntLit? && iter.hi.IntLit? && Fits(iter.hi.i + 1) && iter.hi.i - iter.lo.i < MAX_TURNS
  }

  /** Runs to its end, unless the code goes wrong; it need not have a value. */
  predicate Runs(e: Expr)
    decreases e, 1
  {
    match e
    case Paren(inner) => Runs(inner)
    case If(cond, thenE, elseE) => Steady(cond) && Runs(thenE) && (elseE.Some? ==> Runs(elseE.value))
    case Block(stmts) => RunsBlock(stmts)
    case _ => Steady(e)
  }

  predicate RunsBlock(stmts: seq<Stmt>)
    decreases stmts, 0
  {
    stmts == [] ||
    if |stmts| == 1 && stmts[0].Do? then RunsLast(stmts[0]) else SteadyStmt(stmts[0]) && RunsBlock(stmts[1..])
  }

  predicate RunsLast(s: Stmt)
    requires s.Do?
    decreases s, 0
  {
    Runs(s.e)
  }

  /** Blocks bind no name that is already in scope and no constant's name, no operand of a
      returned expression returns by itself, nor does the upper bound of a range, and the bodies
      of loops run to their end. */
  predicate Regular(p: Program, e: Expr, scope: set<string>)
    decreases e
  {
    match e
    case IntLit(_) => true
    case BoolLit(_) => true
    case Ident(_) => true
    case Paren(inner) => Regular(p, inner, scope)
    case VecLit(elements) => forall x | x in elements :: Regular(p, x, scope)
    case Index(base, at) => Regular(p, base, scope) && Regular(p, at, scope)
    case Neg(operand) => Regular(p, operand, scope)
    case Not(operand) => Regular(p, operand, scope)
    case BitNot(operand) => Regular(p, operand, scope)
    case Logic(_, lhs, rhs) => Regular(p, lhs, scope) && Regular(p, rhs, scope)
    case Binary(_, lhs, rhs) => Regular(p, lhs, scope) && Regular(p, rhs, scope)
    case If(cond, thenE, elseE) =>
      Regular(p, cond, scope) && Regular(p, thenE, scope) && (elseE.Some? ==> Regular(p, elseE.value, scope))
    case Block(stmts) => RegularBlock(p, stmts, scope)
    case Call(_, args) => forall x | x in args :: Regular(p, x, scope)
  }

  predicate RegularBlock(p: Program, stmts: seq<Stmt>, scope: set<string>)
    decreases stmts
  {
    stmts == [] ||
    (RegularStmt(p, stmts[0], scope) && RegularBlock(p, stmts[1..], ScopeAfter(stmts[0], scope)))
  }

  function ScopeAfter(s: Stmt, scope: set<string>): set<string> {
    if s.Bind? then scope + {s.name} else scope
  }

  predicate RegularStmt(p: Program, s: Stmt, scope: set<string>)
    decreases s
  {
    match s
    case Bind(name, init) => Regular(p, init, scope) && name !in scope && name !in p.consts
    case Do(e) => Regular(p, e, scope)
    case Return(result) => result.Some? ==> Regular(p, result.value, scope) && PassesReturn(result.value)
    case Assign(_, _, rhs) => Regular(p, rhs, scope)
    case AssignIndex(_, at, _, rhs) => Regular(p, at, scope) && Regular(p, rhs, scope)
    case For(binder, iter, body) =>
      && RegularIter(p, iter, scope) && Runs(body) && Regular(p, body, Binding(binder, scope))
      && (binder.Some? ==> binder.value !in scope && binder.value !in p.consts)
    case While(cond, body) => Regular(p, cond, scope) && Runs(body) && Regular(p, body, scope)
    case Jump(_) => true
  }

  function Binding(binder: Option<string>, scope: set<string>): set<string> {
    if binder.Some? then scope + {binder.value} else scope
  }

  predicate RegularIter(p: Program, iter: Iter, scope: set<string>)
    decreases iter
  {
    match iter
    case Range(lo, hi, _) => Regular(p, lo, scope) && Regular(p, hi, scope) && ReturnFree(hi)
    case Each(of) => Regular(p, of, scope)
  }

  /** Function bodies are regular blocks. */
  predicate WellFormed(p: Program) {
    forall f | f in p.funcs ::
      p.funcs[f].body.Block? && Regular(p, p.funcs[f].body, set x | x in p.funcs[f].params)
  }
}
