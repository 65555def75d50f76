/** Compile-time folding: expressions, the folder, and the meaning they should have. */
module Comptime {
  import opened Wrappers

  datatype Value = Unit | Int(i: int) | Bool(b: bool) | Vec(elements: seq<Value>)

  datatype Op = Add | Sub | Mul | Div | Mod | Eq | Ne | Lt | Le | Gt | Ge

  datatype Expr =
    | IntLit(i: int)
    | BoolLit(b: bool)
    | Ident(name: string)
    | Paren(inner: Expr)
    | VecLit(elements: seq<Expr>)
    | Index(base: Expr, at: Expr)
    | Neg(operand: Expr) | Not(operand: Expr) | BitNot(operand: Expr)
    | Logic(isAnd: bool, lhs: Expr, rhs: Expr)
    | Binary(op: Op, lhs: Expr, rhs: Expr)
    | If(cond: Expr, thenE: Expr, elseE: Option<Expr>)
    | Block(stmts: seq<Stmt>)
    | Call(callee: string, args: seq<Expr>)

  datatype Stmt =
    | Bind(name: string, init: Expr)
    | Do(e: Expr)
    | Return(result: Option<Expr>)
    | Assign(name: string, op: Option<Op>, rhs: Expr)
    | AssignIndex(name: string, at: Expr, op: Option<Op>, rhs: Expr)
    | For(binder: Option<string>, iter: Iter, body: Expr)
    | While(cond: Expr, body: Expr)
    | Jump(out: bool)  // `break`, or else `continue`

  /** `lo ..< hi`, `lo .. hi`, or the elements of a vector. */
  datatype Iter = Range(lo: Expr, hi: Expr, inclusive: bool) | Each(of: Expr)

  datatype Func = Func(params: seq<string>, body: Expr)

  type Names = map<string, Value>

  /** The comptime functions of the unit, and its constants. */
  datatype Program = Program(funcs: map<string, Func>, consts: Names)

  const MAX_DEPTH: nat := 64

  const MAX_TURNS: nat := 1_000_000

  const TWO63 := 0x8000_0000_0000_0000
  const TWO64 := 0x1_0000_0000_0000_0000

  predicate Fits(n: int) { -TWO63 <= n < TWO63 }

  /** Two's complement, 64 bits. */
  function Wrap(n: int): (r: int)
    ensures Fits(r) && (n - r) % TWO64 == 0 && (Fits(n) ==> r == n)
  {
    var m := n % TWO64;
    if m >= TWO63 then m - TWO64 else m
  }

  /** Division truncates toward zero. */
  function Quotient(a: int, b: int): int
    requires b != 0
  {
    if a >= 0 then a / b else -((-a) / b)
  }

  /** The remainder has the sign of the dividend, and is smaller than the divisor. */
  lemma QuotientTruncates(a: int, b: int)
    requires b != 0
    ensures var r := a - Quotient(a, b) * b;
      (-b < r < b || b < r < -b) && (a >= 0 ==> r >= 0) && (a <= 0 ==> r <= 0)
  {
    var m := if a >= 0 then a else -a;
    var q, r := m / b, m % b;
    assert m == q * b + r;
    if a < 0 {
      assert Quotient(a, b) == -q;
      assert -q * b == -(q * b);
    }
  }

  /** The exact result of an arithmetic operator. */
  function Exact(op: Op, a: int, b: int): Option<int> {
    match op
    case Add => Some(a + b)
    case Sub => Some(a - b)
    case Mul => Some(a * b)
    case Div => if b == 0 then None else Some(Quotient(a, b))
    case Mod => if b == 0 then None else Some(a - Quotient(a, b) * b)
    case _ => None
  }

  function Compare(op: Op, a: int, b: int): bool {
    match op
    case Eq => a == b
    case Ne => a != b
    case Lt => a < b
    case Le => a <= b
    case Gt => a > b
    case Ge => a >= b
    case _ => false
  }

  predicate IsCompare(op: Op) { op.Eq? || op.Ne? || op.Lt? || op.Le? || op.Gt? || op.Ge? }

  // ------------------------------------------------- what a loop goes over

  datatype Items = Counting(start: int, count: nat) | Listed(vs: seq<Value>)

  function Size(items: Items): nat {
    match items
    case Counting(_, count) => count
    case Listed(vs) => |vs|
  }

  function At(items: Items, k: nat): Value
    requires k < Size(items)
  {
    match items
    case Counting(start, _) => Int(start + k)
    case Listed(vs) => vs[k]
  }

  /** From `lo` up to, and without, `end`. */
  function UpTo(lo: int, end: int): Items { Counting(lo, if lo < end then end - lo else 0) }

  function BindTo(locals: Names, binder: Option<string>, v: Value): Names {
    if binder.Some? then locals[binder.value := v] else locals
  }

  /** After the loop its variable has the value it had before, or none. */
  function Restore(locals: Names, binder: Option<string>, before: Names): Names {
    if binder.None? then locals
    else if binder.value in before then locals[binder.value := before[binder.value]]
    else locals - {binder.value}
  }

  // ------------------------------------------------------------- the folder

  /** The bindings of the function being folded, and its result once it has returned. */
  datatype Frame = Frame(locals: Names, returned: Option<Value>)

  datatype Folded = Folded(v: Option<Value>, frame: Frame)

  function IntOf(v: Value): int { if v.Int? then v.i else 0 }

  predicate BoolOf(v: Value) { v.Bool? && v.b }

  /** Arithmetic is on two integers; `==` and `!=` look at the kind of the left operand only. */
  function FoldOp(op: Op, a: Value, b: Value): Option<Value> {
    if !(a.Int? && b.Int?) && !op.Eq? && !op.Ne? then None
    else if !IsCompare(op) then
      var n := Exact(op, IntOf(a), IntOf(b));
      if n.Some? then Some(Int(Wrap(n.value))) else None
    else if a.Int? then Some(Bool(Compare(op, a.i, IntOf(b))))
    else if a.Bool? then Some(Bool((a.b == BoolOf(b)) == op.Eq?))
    else None
  }

  /** A compound assignment; `+=` also joins vectors. */
  function FoldCompound(op: Op, current: Value, rhs: Value): Option<Value> {
    if current.Int? && rhs.Int? && !IsCompare(op) then
      var n := Exact(op, current.i, rhs.i);
      if n.Some? then Some(Int(Wrap(n.value))) else None
    else if op.Add? && current.Vec? && rhs.Vec? then Some(Vec(current.elements + rhs.elements))
    else None
  }

  function Left(depth: nat): nat { if depth > MAX_DEPTH then 0 else MAX_DEPTH + 1 - depth }

  /** `fold_with`: the depth grows in the arguments and the body of a call. */
  function Fold(p: Program, e: Expr, frame: Frame, depth: nat): Folded
    decreases Left(depth), e, 0, 0
  {
    if depth > MAX_DEPTH then Folded(None, frame)
    else
      match e
      case IntLit(i) => Folded(Some(Int(i)), frame)
      case BoolLit(b) => Folded(Some(Bool(b)), frame)
      case Ident(name) =>
        Folded(if name in frame.locals then Some(frame.locals[name])
             else if name in p.consts then Some(p.consts[name]) else None, frame)
      case Paren(inner) => Fold(p, inner, frame, depth)
      case VecLit(elements) =>
        var r := FoldAll(p, elements, frame, depth);
        Folded(if r.vs.Some? then Some(Vec(r.vs.value)) else None, r.frame)
      case Index(base, at) =>
        var r := Fold(p, base, frame, depth);
        if r.v.None? || !r.v.value.Vec? then Folded(None, r.frame)
        else
          var s := Fold(p, at, r.frame, depth);
          if s.v.None? || !s.v.value.Int? || !(0 <= s.v.value.i < |r.v.value.elements|) then Folded(None, s.frame)
          else Folded(Some(r.v.value.elements[s.v.value.i]), s.frame)
      case Neg(operand) =>
        var r := Fold(p, operand, frame, depth);
        Folded(if r.v.Some? && r.v.value.Int? then Some(Int(Wrap(-r.v.value.i))) else None, r.frame)
      case Not(operand) =>
        var r := Fold(p, operand, frame, depth);
        Folded(if r.v.Some? && r.v.value.Bool? then Some(Bool(!r.v.value.b)) else None, r.frame)
      case BitNot(operand) =>
        var r := Fold(p, operand, frame, depth);
        Folded(if r.v.Some? && r.v.value.Int? then Some(Int(Wrap(-r.v.value.i - 1))) else None, r.frame)
      case Logic(isAnd, lhs, rhs) =>
        var r := Fold(p, lhs, frame, depth);
        if r.v.None? || !r.v.value.Bool? then Folded(None, r.frame)
        else if r.v.value.b != isAnd then r
        else
          var s := Fold(p, rhs, r.frame, depth);
          Folded(if s.v.Some? && s.v.value.Bool? then s.v else None, s.frame)
      case Binary(op, lhs, rhs) =>
        var r := Fold(p, lhs, frame, depth);
        if r.v.None? then r
        else
          var s := Fold(p, rhs, r.frame, depth);
          Folded(if s.v.Some? then FoldOp(op, r.v.value, s.v.value) else None, s.frame)
      case If(cond, thenE, elseE) =>
        var r := Fold(p, cond, frame, depth);
        if r.v.None? || !r.v.value.Bool? then Folded(None, r.frame)
        else if r.v.value.b then Fold(p, thenE, r.frame, depth)
        else if elseE.Some? then Fold(p, elseE.value, r.frame, depth)
        else Folded(Some(Unit), r.frame)
      case Block(stmts) => FoldBlock(p, stmts, frame, depth)
      case Call(callee, args) =>
        if callee !in p.funcs || |args| != |p.funcs[callee].params| then Folded(None, frame)
        else
          var fn := p.funcs[callee];
          var r := FoldAll(p, args, frame, depth + 1);
          if r.vs.None? then Folded(None, r.frame)
          else
            var s := Fold(p, fn.body, Frame(Bound(fn.params, r.vs.value), None), depth + 1);
            Folded(s.v, r.frame)
  }

  datatype FoldedAll = FoldedAll(vs: Option<seq<Value>>, frame: Frame)

  /** From left to right, until one does not fold. */
  function FoldAll(p: Program, es: seq<Expr>, frame: Frame, depth: nat): (r: FoldedAll)
    ensures r.vs.Some? ==> |r.vs.value| == |es|
    decreases Left(depth), es, 0, 0
  {
    if es == [] then FoldedAll(Some([]), frame)
    else
      var n := |es| - 1;
      var r := FoldAll(p, es[..n], frame, depth);
      if r.vs.None? then r
      else
        var s := Fold(p, es[n], r.frame, depth);
        FoldedAll(if s.v.Some? then Some(r.vs.value + [s.v.value]) else None, s.frame)
  }

  function Bound(params: seq<string>, vs: seq<Value>): Names
    requires |params| == |vs|
  {
    if params == [] then map[]
    else
      var n := |params| - 1;
      Bound(params[..n], vs[..n])[params[n] := vs[n]]
  }

  /** Statements in order, until one does not fold or the function has returned; the value is
      that of a trailing expression. */
  function FoldBlock(p: Program, stmts: seq<Stmt>, frame: Frame, depth: nat): Folded
    decreases Left(depth), stmts, 0, 0
  {
    if stmts == [] then Folded(None, frame)
    else if |stmts| == 1 && stmts[0].Do? then
      var r := FoldLast(p, stmts[0], frame, depth);
      if r.frame.returned.Some? then Folded(r.frame.returned, r.frame) else r
    else
      var r := FoldStmt(p, stmts[0], frame, depth);
      if r.v.None? then r
      else if r.frame.returned.Some? then Folded(r.frame.returned, r.frame)
      else FoldBlock(p, stmts[1..], r.frame, depth)
  }

  function FoldLast(p: Program, s: Stmt, frame: Frame, depth: nat): Folded
    requires s.Do?
    decreases Left(depth), s, 0, 0
  {
    Fold(p, s.e, frame, depth)
  }

  /** `fold_stmt`: `Some` says that the statement folded; nothing happens after a return. */
  function FoldStmt(p: Program, s: Stmt, frame: Frame, depth: nat): Folded
    decreases Left(depth), s, 1, 0
  {
    if frame.returned.Some? then Folded(Some(Unit), frame)
    else
      match s
      case Bind(name, init) =>
        var r := Fold(p, init, frame, depth);
        if r.v.None? then r else Folded(r.v, r.frame.(locals := r.frame.locals[name := r.v.value]))
      case Do(e) => Fold(p, e, frame, depth)
      case Return(result) =>
        if result.None? then Folded(Some(Unit), frame.(returned := Some(Unit)))
        else
          var r := Fold(p, result.value, frame, depth);
          if r.v.None? then r else Folded(r.v, r.frame.(returned := r.v))
      case Assign(name, op, rhs) =>
        var r := Fold(p, rhs, frame, depth);
        if r.v.None? then r
        else if op.None? then Folded(r.v, r.frame.(locals := r.frame.locals[name := r.v.value]))
        else if name !in r.frame.locals then Folded(None, r.frame)
        else
          var v := FoldCompound(op.value, r.frame.locals[name], r.v.value);
          if v.None? then Folded(None, r.frame) else Folded(v, r.frame.(locals := r.frame.locals[name := v.value]))
      case AssignIndex(name, at, op, rhs) =>
        if name !in frame.locals || !frame.locals[name].Vec? then Folded(None, frame)
        else
          var r := Fold(p, at, frame, depth);
          if r.v.None? || !r.v.value.Int? || !InVec(r.frame.locals, name, r.v.value.i) then Folded(None, r.frame)
          else
            var s := Fold(p, rhs, r.frame, depth);
            if s.v.None? || !InVec(s.frame.locals, name, r.v.value.i) then Folded(None, s.frame)
            else FoldSlot(op, name, r.v.value.i, s.v.value, s.frame)
      case For(binder, _, _) =>
        var r := FoldItems(p, s, frame, depth);
        if r.items.None? then Folded(None, r.frame)
        else
          var t := FoldTurns(p, s, r.items.value, 0, r.frame, depth);
          if t.v.None? then t else Folded(t.v, t.frame.(locals := Restore(t.frame.locals, binder, frame.locals)))
      case While(_, _) => FoldWhile(p, s, 0, frame, depth)
      case Jump(_) => Folded(None, frame)
  }

  function FoldSlot(op: Option<Op>, name: string, i: int, v: Value, frame: Frame): Folded
    requires InVec(frame.locals, name, i)
  {
    var w := if op.None? then Some(v) else FoldCompound(op.value, frame.locals[name].elements[i], v);
    if w.None? then Folded(None, frame) else Folded(w, frame.(locals := SetSlot(frame.locals, name, i, w.value)))
  }

  datatype FoldedItems = FoldedItems(items: Option<Items>, frame: Frame)

  /** Both bounds of a range are folded before either is looked at. */
  function FoldItems(p: Program, s: Stmt, frame: Frame, depth: nat): FoldedItems
    requires s.For?
    decreases Left(depth), s, 0, 0
  {
    match s.iter
    case Range(lo, hi, inclusive) =>
      var r := Fold(p, lo, frame, depth);
      var t := Fold(p, hi, r.frame, depth);
      if r.v.None? || t.v.None? || !r.v.value.Int? || !t.v.value.Int? then FoldedItems(None, t.frame)
      else FoldedItems(Some(UpTo(r.v.value.i, if inclusive then Wrap(t.v.value.i + 1) else t.v.value.i)), t.frame)
    case Each(of) =>
      var r := Fold(p, of, frame, depth);
      FoldedItems(if r.v.Some? && r.v.value.Vec? then Some(Listed(r.v.value.elements)) else None, r.frame)
  }

  /** The loop from item `k` on.  Whether its body folds is not looked at. */
  function FoldTurns(p: Program, s: Stmt, items: Items, k: nat, frame: Frame, depth: nat): Folded
    requires s.For?
    decreases Left(depth), s, 0, if k < MAX_TURNS then MAX_TURNS - k else 0
  {
    if k >= Size(items) then Folded(Some(Unit), frame)
    else if k >= MAX_TURNS then Folded(None, frame)
    else
      var r := Fold(p, s.body, frame.(locals := BindTo(frame.locals, s.binder, At(items, k))), depth);
      if r.frame.returned.Some? then Folded(Some(Unit), r.frame)
      else FoldTurns(p, s, items, k + 1, r.frame, depth)
  }

  function FoldWhile(p: Program, s: Stmt, k: nat, frame: Frame, depth: nat): Folded
    requires s.While?
    decreases Left(depth), s, 0, if k < MAX_TURNS then MAX_TURNS - k else 0
  {
    if k >= MAX_TURNS then Folded(None, frame)
    else
      var c := Fold(p, s.cond, frame, depth);
      if c.v.None? || !c.v.value.Bool? then Folded(None, c.frame)
      else if !c.v.value.b then Folded(Some(Unit), c.frame)
      else
        var r := Fold(p, s.body, c.frame, depth);
        if r.frame.returned.Some? then Folded(Some(Unit), r.frame) else FoldWhile(p, s, k + 1, r.frame, depth)
  }

  predicate InVec(locals: Names, name: string, i: int) {
    name in locals && locals[name].Vec? && 0 <= i < |locals[name].elements|
  }

  function SetSlot(locals: Names, name: string, i: int, v: Value): Names
    requires InVec(locals, name, i)
  {
    locals[name := Vec(locals[name].elements[i := v])]
  }
}
