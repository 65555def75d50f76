/** The folder as it runs: a frame of locals that is updated while expressions are walked. */
module ComptimeFolder {
  import opened Wrappers
  import opened Comptime

  /** The frame of one call. */
  class CallFrame {
    var locals: Names
    var returned: Option<Value>

    constructor (locals: Names)
      ensures View() == Frame(locals, None)
    {
      this.locals, returned := locals, None;
    }

    function View(): Frame
      reads this
    {
      Frame(locals, returned)
    }
  }

  class Folder {
    const program: Program

    constructor (program: Program)
      ensures this.program == program
    {
      this.program := program;
    }

    /** Fold an expression on its own, in a fresh frame. */
    method FoldTop(e: Expr) returns (v: Option<Value>)
      ensures v == Fold(program, e, Frame(map[], None), 0).v
    {
      var frame := new CallFrame(map[]);
      v := FoldWith(e, frame, 0);
    }

    method FoldWith(e: Expr, frame: CallFrame, depth: nat) returns (v: Option<Value>)
      modifies frame
      ensures Folded(v, frame.View()) == Fold(program, e, old(frame.View()), depth)
      decreases Left(depth), e, 3
    {
      if depth > MAX_DEPTH { return None; }
      match e
      case IntLit(i) => v := Some(Int(i));
      case BoolLit(b) => v := Some(Bool(b));
      case Ident(name) =>
        v := if name in frame.locals then Some(frame.locals[name])
             else if name in program.consts then Some(program.consts[name]) else None;
      case Paren(inner) => v := FoldWith(inner, frame, depth);
      case VecLit(elements) =>
        var vs := FoldElements(elements, frame, depth);
        v := if vs.Some? then Some(Vec(vs.value)) else None;
      case Index(_, _) => v := FoldIndex(e, frame, depth);
      case Neg(operand) =>
        v := FoldWith(operand, frame, depth);
        v := if v.Some? && v.value.Int? then Some(Int(Wrap(-v.value.i))) else None;
      case Not(operand) =>
        v := FoldWith(operand, frame, depth);
        v := if v.Some? && v.value.Bool? then Some(Bool(!v.value.b)) else None;
      case BitNot(operand) =>
        v := FoldWith(operand, frame, depth);
        v := if v.Some? && v.value.Int? then Some(Int(Wrap(-v.value.i - 1))) else None;
      case Logic(_, _, _) => v := FoldLogic(e, frame, depth);
      case Binary(_, _, _) => v := FoldBinary(e, frame, depth);
      case If(_, _, _) => v := FoldIf(e, frame, depth);
      case Block(stmts) => v := FoldStatements(stmts, frame, depth);
      case Call(_, _) => v := FoldCall(e, frame, depth);
    }

    method FoldIndex(e: Expr, frame: CallFrame, depth: nat) returns (v: Option<Value>)
      requires e.Index? && depth <= MAX_DEPTH
      modifies frame
      ensures Folded(v, frame.View()) == Fold(program, e, old(frame.View()), depth)
      decreases Left(depth), e, 2
    {
      var base := FoldWith(e.base, frame, depth);
      if base.None? || !base.value.Vec? { return None; }
      var at := FoldWith(e.at, frame, depth);
      if at.None? || !at.value.Int? { return None; }
      if !(0 <= at.value.i < |base.value.elements|) { return None; }
      v := Some(base.value.elements[at.value.i]);
    }

    /** The right operand is folded only where it decides. */
    method FoldLogic(e: Expr, frame: CallFrame, depth: nat) returns (v: Option<Value>)
      requires e.Logic? && depth <= MAX_DEPTH
      modifies frame
      ensures Folded(v, frame.View()) == Fold(program, e, old(frame.View()), depth)
      decreases Left(depth), e, 2
    {
      var lhs := FoldWith(e.lhs, frame, depth);
      if lhs.None? || !lhs.value.Bool? { return None; }
      if lhs.value.b != e.isAnd { return lhs; }
      var rhs := FoldWith(e.rhs, frame, depth);
      v := if rhs.Some? && rhs.value.Bool? then rhs else None;
    }

    method FoldBinary(e: Expr, frame: CallFrame, depth: nat) returns (v: Option<Value>)
      requires e.Binary? && depth <= MAX_DEPTH
      modifies frame
      ensures Folded(v, frame.View()) == Fold(program, e, old(frame.View()), depth)
      decreases Left(depth), e, 2
    {
      var lhs := FoldWith(e.lhs, frame, depth);
      if lhs.None? { return None; }
      var rhs := FoldWith(e.rhs, frame, depth);
      if rhs.None? { return None; }
      v := FoldOp(e.op, lhs.value, rhs.value);
    }

    /** Only the chosen branch is folded. */
    method FoldIf(e: Expr, frame: CallFrame, depth: nat) returns (v: Option<Value>)
      requires e.If? && depth <= MAX_DEPTH
      modifies frame
      ensures Folded(v, frame.View()) == Fold(program, e, old(frame.View()), depth)
      decreases Left(depth), e, 2
    {
      var cond := FoldWith(e.cond, frame, depth);
      if cond.None? || !cond.value.Bool? { return None; }
      if cond.value.b {
        v := FoldWith(e.thenE, frame, depth);
      } else if e.elseE.Some? {
        v := FoldWith(e.elseE.value, frame, depth);
      } else {
        v := Some(Unit);
      }
    }

    method FoldElements(es: seq<Expr>, frame: CallFrame, depth: nat) returns (vs: Option<seq<Value>>)
      modifies frame
      ensures FoldedAll(vs, frame.View()) == FoldAll(program, es, old(frame.View()), depth)
      decreases Left(depth), es, 1
    {
      var values := [];
      for i := 0 to |es|
        invariant FoldedAll(Some(values), frame.View()) == FoldAll(program, es[..i], old(frame.View()), depth)
      {
        assert es[..i + 1][..i] == es[..i];
        var v := FoldWith(es[i], frame, depth);
        if v.None? {
          BailStays(program, es, i + 1, old(frame.View()), depth);
          return None;
        }
        values := values + [v.value];
      }
      assert es[..|es|] == es;
      vs := Some(values);
    }

    /** Arguments in the caller's frame, the body in a frame of its own. */
    method FoldCall(e: Expr, frame: CallFrame, depth: nat) returns (v: Option<Value>)
      requires e.Call? && depth <= MAX_DEPTH
      modifies frame
      ensures Folded(v, frame.View()) == Fold(program, e, old(frame.View()), depth)
      decreases Left(depth), e, 2
    {
      if e.callee !in program.funcs { return None; }
      var fn := program.funcs[e.callee];
      if |e.args| != |fn.params| { return None; }
      var vs := FoldElements(e.args, frame, depth + 1);
      if vs.None? { return None; }
      var callFrame := new CallFrame(map[]);
      for i := 0 to |fn.params|
        invariant callFrame.View() == Frame(Bound(fn.params[..i], vs.value[..i]), None) && fresh(callFrame)
        invariant frame.View() == FoldAll(program, e.args, old(frame.View()), depth + 1).frame
      {
        assert fn.params[..i + 1][..i] == fn.params[..i] && vs.value[..i + 1][..i] == vs.value[..i];
        callFrame.locals := callFrame.locals[fn.params[i] := vs.value[i]];
      }
      assert fn.params[..|fn.params|] == fn.params && vs.value[..|fn.params|] == vs.value;
      v := FoldWith(fn.body, callFrame, depth + 1);
    }

    method FoldStatements(stmts: seq<Stmt>, frame: CallFrame, depth: nat) returns (v: Option<Value>)
      modifies frame
      ensures Folded(v, frame.View()) == FoldBlock(program, stmts, old(frame.View()), depth)
      decreases Left(depth), stmts, 1
    {
      ghost var whole := FoldBlock(program, stmts, frame.View(), depth);
      for i := 0 to |stmts|
        invariant whole == FoldBlock(program, stmts[i..], frame.View(), depth)
      {
        ghost var rest := stmts[i..];
        assert rest[0] == stmts[i] && rest[1..] == stmts[i + 1..];
        if i + 1 == |stmts| && stmts[i].Do? {
          v := FoldTrailing(stmts[i], frame, depth);
          if frame.returned.Some? { return frame.returned; }
          return v;
        }
        v := FoldStmt(stmts[i], frame, depth);
        if v.None? { return None; }
        if frame.returned.Some? { return frame.returned; }
      }
      v := None;
    }

    method FoldTrailing(s: Stmt, frame: CallFrame, depth: nat) returns (v: Option<Value>)
      requires s.Do?
      modifies frame
      ensures Folded(v, frame.View()) == FoldLast(program, s, old(frame.View()), depth)
      decreases Left(depth), s, 1
    {
      v := FoldWith(s.e, frame, depth);
    }

    /** `None`: the statement does not fold. */
    method FoldStmt(s: Stmt, frame: CallFrame, depth: nat) returns (v: Option<Value>)
      modifies frame
      ensures Folded(v, frame.View()) == Comptime.FoldStmt(program, s, old(frame.View()), depth)
      decreases Left(depth), s, 2
    {
      if frame.returned.Some? { return Some(Unit); }
      match s
      case Bind(name, init) =>
        v := FoldWith(init, frame, depth);
        if v.Some? { frame.locals := frame.locals[name := v.value]; }
      case Do(e) => v := FoldWith(e, frame, depth);
      case Return(result) =>
        if result.None? {
          frame.returned := Some(Unit);
          return Some(Unit);
        }
        v := FoldWith(result.value, frame, depth);
        if v.Some? { frame.returned := v; }
      case Assign(name, op, rhs) =>
        v := FoldWith(rhs, frame, depth);
        if v.None? { return None; }
        if op.Some? {
          if name !in frame.locals { return None; }
          v := FoldCompound(op.value, frame.locals[name], v.value);
          if v.None? { return None; }
        }
        frame.locals := frame.locals[name := v.value];
      case AssignIndex(_, _, _, _) => v := FoldSlot(s, frame, depth);
      case For(_, _, _) => v := FoldFor(s, frame, depth);
      case While(_, _) => v := FoldWhile(s, frame, depth);
      case Jump(_) => v := None;
    }

    method FoldSlot(s: Stmt, frame: CallFrame, depth: nat) returns (v: Option<Value>)
      requires s.AssignIndex? && frame.returned.None?
      modifies frame
      ensures Folded(v, frame.View()) == Comptime.FoldStmt(program, s, old(frame.View()), depth)
      decreases Left(depth), s, 0
    {
      if s.name !in frame.locals || !frame.locals[s.name].Vec? { return None; }
      var at := FoldWith(s.at, frame, depth);
      if at.None? || !at.value.Int? { return None; }
      if !InVec(frame.locals, s.name, at.value.i) { return None; }
      v := FoldWith(s.rhs, frame, depth);
      if v.None? || !InVec(frame.locals, s.name, at.value.i) { return None; }
      if s.op.Some? {
        v := FoldCompound(s.op.value, frame.locals[s.name].elements[at.value.i], v.value);
        if v.None? { return None; }
      }
      frame.locals := SetSlot(frame.locals, s.name, at.value.i, v.value);
    }

    /** What the loop goes over, or nothing where that does not fold. */
    method FoldItems(s: Stmt, frame: CallFrame, depth: nat) returns (items: Option<Items>)
      requires s.For?
      modifies frame
      ensures FoldedItems(items, frame.View()) == Comptime.FoldItems(program, s, old(frame.View()), depth)
      decreases Left(depth), s, 0
    {
      match s.iter
      case Range(lo, hi, inclusive) =>
        var from := FoldWith(lo, frame, depth);
        var to := FoldWith(hi, frame, depth);
        if from.None? || to.None? || !from.value.Int? || !to.value.Int? { return None; }
        items := Some(UpTo(from.value.i, if inclusive then Wrap(to.value.i + 1) else to.value.i));
      case Each(of) =>
        var all := FoldWith(of, frame, depth);
        items := if all.Some? && all.value.Vec? then Some(Listed(all.value.elements)) else None;
    }

    /** The body's value is dropped, and with it any failure. */
    method FoldFor(s: Stmt, frame: CallFrame, depth: nat) returns (v: Option<Value>)
      requires s.For? && frame.returned.None?
      modifies frame
      ensures Folded(v, frame.View()) == Comptime.FoldStmt(program, s, old(frame.View()), depth)
      decreases Left(depth), s, 1
    {
      var before := frame.locals;
      var items := FoldItems(s, frame, depth);
      if items.None? { return None; }
      ghost var whole := FoldTurns(program, s, items.value, 0, frame.View(), depth);
      var k := 0;
      while k < Size(items.value)
        invariant k <= MAX_TURNS && whole == FoldTurns(program, s, items.value, k, frame.View(), depth)
        decreases MAX_TURNS - k
      {
        if k == MAX_TURNS { return None; }
        frame.locals := BindTo(frame.locals, s.binder, At(items.value, k));
        var _ := FoldWith(s.body, frame, depth);
        if frame.returned.Some? { break; }
        k := k + 1;
      }
      frame.locals := Restore(frame.locals, s.binder, before);
      return Some(Unit);
    }

    method FoldWhile(s: Stmt, frame: CallFrame, depth: nat) returns (v: Option<Value>)
      requires s.While?
      modifies frame
      ensures Folded(v, frame.View()) == Comptime.FoldWhile(program, s, 0, old(frame.View()), depth)
      decreases Left(depth), s, 0
    {
      ghost var whole := Comptime.FoldWhile(program, s, 0, frame.View(), depth);
      var k := 0;
      while k < MAX_TURNS
        invariant k <= MAX_TURNS && whole == Comptime.FoldWhile(program, s, k, frame.View(), depth)
      {
        var c := FoldWith(s.cond, frame, depth);
        if c.None? || !c.value.Bool? { return None; }
        if !c.value.b { return Some(Unit); }
        var _ := FoldWith(s.body, frame, depth);
        if frame.returned.Some? { return Some(Unit); }
        k := k + 1;
      }
      return None;
    }
  }

  /** An element that does not fold ends the walk. */
  lemma {:induction false} BailStays(p: Program, es: seq<Expr>, n: nat, frame: Frame, depth: nat)
    requires n <= |es| && FoldAll(p, es[..n], frame, depth).vs.None?
    ensures FoldAll(p, es, frame, depth) == FoldAll(p, es[..n], frame, depth)
    decreases |es|
  {
    if n == |es| {
      assert es[..n] == es;
    } else {
      var m := |es| - 1;
      assert es[..m][..n] == es[..n];
      BailStays(p, es[..m], n, frame, depth);
    }
  }
}
