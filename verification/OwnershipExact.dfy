/** On code without branches the checker is exact: it reports the errors that happen, in order. */
module OwnershipExact {
  import opened Wrappers
  import opened MoveSyntax
  import opened Ownership
  import opened OwnershipSound

  /** No branch and no early exit; blocks may nest. */
  predicate Straight(e: Expr)
    decreases e
  {
    match e
    case Leaf(_) | Use(_) => true
    case Paren(inner) => Straight(inner)
    case Walk(es) => forall x | x in es :: Straight(x)
    case Call(callee, args) => Straight(callee) && forall a | a in args :: StraightArg(a)
    case Block(stmts) => forall s | s in stmts :: StraightStmt(s)
    case _ => false
  }

  predicate StraightArg(a: Arg)
    decreases a
  {
    Straight(a.value)
  }

  predicate StraightStmt(s: Stmt)
    decreases s
  {
    match s
    case Bind(_, value) => value.Some? ==> Straight(value.value)
    case Do(e) => Straight(e)
    case Return(_) => false
    case Assign(_, rhs) => Straight(rhs)
    case AssignInto(target, rhs) => Straight(target) && Straight(rhs)
  }

  // ------------------------------------------------------- what is mentioned

  /** The symbols that occur in straight code. */
  ghost function Mentions(e: Expr): set<Symbol>
    decreases e
  {
    match e
    case Use(x) => {x}
    case Paren(inner) => Mentions(inner)
    case Walk(es) => set i, x | 0 <= i < |es| && x in Mentions(es[i]) :: x
    case Call(callee, args) => Mentions(callee) + set i, x | 0 <= i < |args| && x in MentionsArg(args[i]) :: x
    case Block(stmts) => set i, x | 0 <= i < |stmts| && x in MentionsStmt(stmts[i]) :: x
    case _ => {}
  }

  ghost function MentionsArg(a: Arg): set<Symbol>
    decreases a
  {
    Mentions(a.value)
  }

  ghost function MentionsStmt(s: Stmt): set<Symbol>
    decreases s
  {
    match s
    case Bind(x, value) => {x} + if value.Some? then Mentions(value.value) else {}
    case Do(e) => Mentions(e)
    case Return(value) => if value.Some? then Mentions(value.value) else {}
    case Assign(x, rhs) => {x} + Mentions(rhs)
    case AssignInto(target, rhs) => Mentions(target) + Mentions(rhs)
  }

  ghost function InExprs(es: seq<Expr>): set<Symbol> { set i, x | 0 <= i < |es| && x in Mentions(es[i]) :: x }

  ghost function InArgs(args: seq<Arg>): set<Symbol> { set i, x | 0 <= i < |args| && x in MentionsArg(args[i]) :: x }

  ghost function InStmts(stmts: seq<Stmt>): set<Symbol> { set i, x | 0 <= i < |stmts| && x in MentionsStmt(stmts[i]) :: x }

  /** No symbol occurs before it is bound; `seen` occurred before `e`. */
  ghost predicate Scoped(e: Expr, seen: set<Symbol>)
    decreases e
  {
    match e
    case Paren(inner) => Scoped(inner, seen)
    case Walk(es) => forall i | 0 <= i < |es| :: Scoped(es[i], seen + InExprs(es[..i]))
    case Call(callee, args) =>
      && Scoped(callee, seen)
      && forall i | 0 <= i < |args| :: ScopedArg(args[i], seen + Mentions(callee) + InArgs(args[..i]))
    case Block(stmts) => forall i | 0 <= i < |stmts| :: ScopedStmt(stmts[i], seen + InStmts(stmts[..i]))
    case _ => true
  }

  ghost predicate ScopedArg(a: Arg, seen: set<Symbol>)
    decreases a
  {
    Scoped(a.value, seen)
  }

  ghost predicate ScopedStmt(s: Stmt, seen: set<Symbol>)
    decreases s
  {
    match s
    case Bind(x, value) => x !in seen && (value.Some? ==> Scoped(value.value, seen) && x !in Mentions(value.value))
    case Do(e) => Scoped(e, seen)
    case Return(value) => value.Some? ==> Scoped(value.value, seen)
    case Assign(_, rhs) => Scoped(rhs, seen)
    case AssignInto(target, rhs) => Scoped(rhs, seen) && Scoped(target, seen + Mentions(rhs))
  }

  // ---------------------------------------------------------- what is tracked

  lemma {:induction false} KeysWithin(linear: set<nat>, e: Expr, b: Bindings)
    requires Straight(e)
    ensures CheckExpr(linear, e, b).b.Keys <= b.Keys + Mentions(e)
    decreases e, 1
  {
    match e {
      case Leaf(_) =>
      case Use(_) =>
      case Paren(inner) => KeysWithin(linear, inner, b);
      case Walk(es) => AllKeysWithin(linear, es, b);
      case Call(callee, args) =>
        KeysWithin(linear, callee, b);
        ArgsKeysWithin(linear, args, CheckExpr(linear, callee, b).b);
      case Block(stmts) => BlockKeysWithin(linear, stmts, b);
    }
  }

  lemma {:induction false} AllKeysWithin(linear: set<nat>, es: seq<Expr>, b: Bindings)
    requires forall x | x in es :: Straight(x)
    ensures CheckAll(linear, es, b).b.Keys <= b.Keys + InExprs(es)
    decreases es, 0
  {
    if es != [] {
      var n := |es| - 1;
      AllKeysWithin(linear, es[..n], b);
      KeysWithin(linear, es[n], CheckAll(linear, es[..n], b).b);
      assert InExprs(es) == InExprs(es[..n]) + Mentions(es[n]);
    }
  }

  lemma {:induction false} ArgsKeysWithin(linear: set<nat>, args: seq<Arg>, b: Bindings)
    requires forall a | a in args :: StraightArg(a)
    ensures CheckArgs(linear, args, b).b.Keys <= b.Keys + InArgs(args)
    decreases args, 0
  {
    if args != [] {
      var n := |args| - 1;
      ArgsKeysWithin(linear, args[..n], b);
      ArgKeysWithin(linear, args[n], CheckArgs(linear, args[..n], b).b);
      assert InArgs(args) == InArgs(args[..n]) + MentionsArg(args[n]);
    }
  }

  lemma {:induction false} ArgKeysWithin(linear: set<nat>, a: Arg, b: Bindings)
    requires StraightArg(a)
    ensures CheckArg(linear, a, b).b.Keys <= b.Keys + MentionsArg(a)
    decreases a, 2
  {
    KeysWithin(linear, a.value, b);
    PlaceMentioned(a.value);
  }

  lemma {:induction false} BlockKeysWithin(linear: set<nat>, stmts: seq<Stmt>, b: Bindings)
    requires forall s | s in stmts :: StraightStmt(s)
    ensures CheckBlock(linear, stmts, b).b.Keys <= b.Keys + InStmts(stmts)
    decreases stmts, 0
  {
    if stmts != [] {
      var n := |stmts| - 1;
      BlockKeysWithin(linear, stmts[..n], b);
      StmtKeysWithin(linear, stmts[n], CheckBlock(linear, stmts[..n], b).b);
      assert InStmts(stmts) == InStmts(stmts[..n]) + MentionsStmt(stmts[n]);
    }
  }

  lemma {:induction false} PlaceMentioned(e: Expr)
    ensures Place(e).Some? ==> Place(e).value in Mentions(e)
  {
    if e.Paren? { PlaceMentioned(e.inner); }
  }

  lemma {:induction false} StmtKeysWithin(linear: set<nat>, s: Stmt, b: Bindings)
    requires StraightStmt(s)
    ensures CheckStmt(linear, s, b).b.Keys <= b.Keys + MentionsStmt(s)
    decreases s, 2
  {
    match s {
      case Bind(_, value) =>
        if value.Some? {
          KeysWithin(linear, value.value, b);
          PlaceMentioned(value.value);
        }
      case Do(e) => KeysWithin(linear, e, b);
      case Assign(_, rhs) => KeysWithin(linear, rhs, b);
      case AssignInto(target, rhs) =>
        KeysWithin(linear, rhs, b);
        KeysWithin(linear, target, CheckExpr(linear, rhs, b).b);
    }
  }

  // ----------------------------------------------------------------- exactness

  /** Marked as consumed exactly when moved. */
  ghost predicate Exact(b: Bindings, r: Run) {
    !r.done && forall x :: Tracked(x) ==> (Moved(r.trace, x) <==> Gone(b, x))
  }

  /** From `r` to `r1`, exactly `c.moves` went wrong, and the bindings are still exact. */
  ghost predicate Tells(c: Checked, r: Run, r1: Run) {
    Exact(c.b, r1) && Faults(r1.trace) == Faults(r.trace) + c.moves
  }

  lemma ThenTells(c: Checked, d: Checked, r: Run, r1: Run, r2: Run)
    requires Tells(c, r, r1) && Tells(d, r1, r2)
    ensures Tells(Then(c, d), r, r2)
  {
  }

  lemma ReadTells(b: Bindings, r: Run, x: Symbol)
    requires Exact(b, r)
    ensures Tells(CheckUse(b, x), r, Log(r, Read(x)))
  {
    TraceGrows(r.trace, Read(x));
  }

  lemma MoveTells(b: Bindings, r: Run, x: Option<Symbol>)
    requires Exact(b, r) && (x.Some? ==> Tracked(x.value))
    ensures Tells(Consume(b, x), r, LogMove(r, x))
  {
    if x.Some? { TraceGrows(r.trace, Move(x.value)); }
  }

  lemma FreshTells(c: Checked, r: Run, r1: Run, x: Symbol, b: Bindings)
    requires Tells(c, r, r1)
    requires forall y :: Tracked(y) ==> (Gone(b, y) <==> y != x && Gone(c.b, y))
    ensures Tells(c.(b := b), r, Log(r1, Fresh(x)))
  {
    TraceGrows(r1.trace, Fresh(x));
  }

  lemma {:induction false} ExprTells(linear: set<nat>, e: Expr, b: Bindings, r: Run, seen: set<Symbol>)
    requires Straight(e) && Scoped(e, seen) && b.Keys <= seen && Exact(b, r)
    ensures Tells(CheckExpr(linear, e, b), r, RunExpr(e, r))
    decreases e, 1
  {
    match e {
      case Leaf(_) =>
      case Use(x) => ReadTells(b, r, x);
      case Paren(inner) => ExprTells(linear, inner, b, r, seen);
      case Walk(es) => AllTells(linear, es, b, r, seen);
      case Call(callee, args) =>
        var c, r1 := CheckExpr(linear, callee, b), RunExpr(callee, r);
        ExprTells(linear, callee, b, r, seen);
        KeysWithin(linear, callee, b);
        ArgsTell(linear, args, c.b, r1, seen + Mentions(callee));
        ThenTells(c, CheckArgs(linear, args, c.b), r, r1, RunArgs(args, r1));
      case Block(stmts) => BlockTells(linear, stmts, b, r, seen);
    }
  }

  lemma {:induction false} AllTells(linear: set<nat>, es: seq<Expr>, b: Bindings, r: Run, seen: set<Symbol>)
    requires (forall x | x in es :: Straight(x)) && b.Keys <= seen && Exact(b, r)
    requires forall i | 0 <= i < |es| :: Scoped(es[i], seen + InExprs(es[..i]))
    ensures Tells(CheckAll(linear, es, b), r, RunAll(es, r))
    decreases es, 0
  {
    if es != [] {
      var n := |es| - 1;
      var c, r1 := CheckAll(linear, es[..n], b), RunAll(es[..n], r);
      assert forall i | 0 <= i < n :: es[..n][..i] == es[..i] && es[..n][i] == es[i];
      AllTells(linear, es[..n], b, r, seen);
      AllKeysWithin(linear, es[..n], b);
      ExprTells(linear, es[n], c.b, r1, seen + InExprs(es[..n]));
      ThenTells(c, CheckExpr(linear, es[n], c.b), r, r1, RunExpr(es[n], r1));
    }
  }

  lemma {:induction false} ArgsTell(linear: set<nat>, args: seq<Arg>, b: Bindings, r: Run, seen: set<Symbol>)
    requires (forall a | a in args :: StraightArg(a)) && b.Keys <= seen && Exact(b, r)
    requires forall i | 0 <= i < |args| :: ScopedArg(args[i], seen + InArgs(args[..i]))
    ensures Tells(CheckArgs(linear, args, b), r, RunArgs(args, r))
    decreases args, 0
  {
    if args != [] {
      var n := |args| - 1;
      var c, r1 := CheckArgs(linear, args[..n], b), RunArgs(args[..n], r);
      assert forall i | 0 <= i < n :: args[..n][..i] == args[..i] && args[..n][i] == args[i];
      ArgsTell(linear, args[..n], b, r, seen);
      ArgsKeysWithin(linear, args[..n], b);
      ArgTells(linear, args[n], c.b, r1, seen + InArgs(args[..n]));
      ThenTells(c, CheckArg(linear, args[n], c.b), r, r1, RunArg(args[n], r1));
    }
  }

  lemma {:induction false} ArgTells(linear: set<nat>, a: Arg, b: Bindings, r: Run, seen: set<Symbol>)
    requires StraightArg(a) && ScopedArg(a, seen) && b.Keys <= seen && Exact(b, r)
    ensures Tells(CheckArg(linear, a, b), r, RunArg(a, r))
    decreases a, 3
  {
    if a.sinks {
      MovedTells(linear, a.value, b, r, seen);
    } else {
      ExprTells(linear, a.value, b, r, seen);
    }
  }

  lemma {:induction false} MovedTells(linear: set<nat>, e: Expr, b: Bindings, r: Run, seen: set<Symbol>)
    requires Straight(e) && Scoped(e, seen) && b.Keys <= seen && Exact(b, r)
    ensures Tells(CheckMoved(linear, e, b), r, RunMoved(e, r))
    decreases e, 2
  {
    ExprTells(linear, e, b, r, seen);
    MoveTells(CheckExpr(linear, e, b).b, RunExpr(e, r), Place(e));
  }

  lemma {:induction false} BlockTells(linear: set<nat>, stmts: seq<Stmt>, b: Bindings, r: Run, seen: set<Symbol>)
    requires (forall s | s in stmts :: StraightStmt(s)) && b.Keys <= seen && Exact(b, r)
    requires forall i | 0 <= i < |stmts| :: ScopedStmt(stmts[i], seen + InStmts(stmts[..i]))
    ensures Tells(CheckBlock(linear, stmts, b), r, RunBlock(stmts, r))
    decreases stmts, 0
  {
    if stmts != [] {
      var n := |stmts| - 1;
      var c, r1 := CheckBlock(linear, stmts[..n], b), RunBlock(stmts[..n], r);
      assert forall i | 0 <= i < n :: stmts[..n][..i] == stmts[..i] && stmts[..n][i] == stmts[i];
      BlockTells(linear, stmts[..n], b, r, seen);
      BlockKeysWithin(linear, stmts[..n], b);
      StmtTells(linear, stmts[n], c.b, r1, seen + InStmts(stmts[..n]));
      ThenTells(c, CheckStmt(linear, stmts[n], c.b), r, r1, RunStmt(stmts[n], r1));
    }
  }

  lemma {:induction false} StmtTells(linear: set<nat>, s: Stmt, b: Bindings, r: Run, seen: set<Symbol>)
    requires StraightStmt(s) && ScopedStmt(s, seen) && b.Keys <= seen && Exact(b, r)
    ensures Tells(CheckStmt(linear, s, b), r, RunStmt(s, r))
    decreases s, 3
  {
    match s {
      case Bind(x, value) => BindTells(linear, s, b, r, seen);
      case Do(e) => ExprTells(linear, e, b, r, seen);
      case Assign(x, rhs) =>
        ExprTells(linear, rhs, b, r, seen);
        FreshTells(CheckExpr(linear, rhs, b), r, RunExpr(rhs, r), x, CheckStmt(linear, s, b).b);
      case AssignInto(_, _) => IntoTells(linear, s, b, r, seen);
    }
  }

  lemma {:induction false} IntoTells(linear: set<nat>, s: Stmt, b: Bindings, r: Run, seen: set<Symbol>)
    requires s.AssignInto? && StraightStmt(s) && ScopedStmt(s, seen) && b.Keys <= seen && Exact(b, r)
    ensures Tells(CheckStmt(linear, s, b), r, RunStmt(s, r))
    decreases s, 2
  {
    var c, r1 := CheckExpr(linear, s.rhs, b), RunExpr(s.rhs, r);
    ExprTells(linear, s.rhs, b, r, seen);
    KeysWithin(linear, s.rhs, b);
    ExprTells(linear, s.target, c.b, r1, seen + Mentions(s.rhs));
    ThenTells(c, CheckExpr(linear, s.target, c.b), r, r1, RunExpr(s.target, r1));
  }

  lemma {:induction false} BindTells(linear: set<nat>, s: Stmt, b: Bindings, r: Run, seen: set<Symbol>)
    requires s.Bind? && StraightStmt(s) && ScopedStmt(s, seen) && b.Keys <= seen && Exact(b, r)
    ensures Tells(CheckStmt(linear, s, b), r, RunStmt(s, r))
    decreases s, 2
  {
    var x := s.x;
    if s.value.Some? {
      var e := s.value.value;
      var c := CheckMoved(linear, e, b);
      MovedTells(linear, e, b, r, seen);
      KeysWithin(linear, e, b);
      PlaceMentioned(e);
      FreshTells(c, r, RunMoved(e, r), x, Register(linear, c.b, x));
    } else {
      FreshTells(Quiet(b), r, r, x, Register(linear, b, x));
    }
  }

  /** Straight statements, the last of which may be a `return`. */
  ghost predicate StraightBody(stmts: seq<Stmt>) {
    && (forall i | 0 <= i < |stmts| ::
          StraightStmt(stmts[i]) || (i == |stmts| - 1 && stmts[i].Return? && (stmts[i].value.Some? ==> Straight(stmts[i].value.value))))
    && forall i | 0 <= i < |stmts| :: ScopedStmt(stmts[i], InStmts(stmts[..i]))
  }

  lemma PrefixTells(linear: set<nat>, stmts: seq<Stmt>, n: nat, b: Bindings, r: Run)
    requires StraightBody(stmts) && n == |stmts| - 1 && b.Keys == {} && Exact(b, r)
    ensures var c := CheckBlock(linear, stmts[..n], b);
      Tells(c, r, RunBlock(stmts[..n], r)) && c.b.Keys <= InStmts(stmts[..n])
  {
    var none: set<Symbol> := {};
    forall i | 0 <= i < n
      ensures ScopedStmt(stmts[..n][i], none + InStmts(stmts[..n][..i]))
    {
      assert stmts[..n][..i] == stmts[..i] && none + InStmts(stmts[..i]) == InStmts(stmts[..i]);
    }
    BlockTells(linear, stmts[..n], b, r, none);
    BlockKeysWithin(linear, stmts[..n], b);
  }

  lemma Joined(c: Checked, moves: seq<Report>, r: Run, r1: Run, trace: seq<Event>)
    requires Tells(c, r, r1) && Faults(trace) == Faults(r1.trace) + moves
    ensures Faults(trace) == Faults(r.trace) + (c.moves + moves)
  {
  }

  lemma BlockEnds(linear: set<nat>, stmts: seq<Stmt>, n: nat, b: Bindings, r: Run)
    requires n == |stmts| - 1
    ensures RunBlock(stmts, r) == RunStmt(stmts[n], RunBlock(stmts[..n], r))
    ensures var c := CheckBlock(linear, stmts[..n], b);
      CheckBlock(linear, stmts, b).moves == c.moves + CheckStmt(linear, stmts[n], c.b).moves
  {
  }

  lemma BodyTells(linear: set<nat>, stmts: seq<Stmt>, n: nat, b: Bindings, r: Run, c: Checked, r1: Run)
    requires StraightBody(stmts) && b.Keys == {} && Exact(b, r) && n == |stmts| - 1
    requires c == CheckBlock(linear, stmts[..n], b) && r1 == RunBlock(stmts[..n], r)
    ensures Faults(RunStmt(stmts[n], r1).trace) == Faults(r.trace) + (c.moves + CheckStmt(linear, stmts[n], c.b).moves)
  {
    PrefixTells(linear, stmts, n, b, r);
    LastTells(linear, stmts[n], c, r1, InStmts(stmts[..n]));
    Joined(c, CheckStmt(linear, stmts[n], c.b).moves, r, r1, RunStmt(stmts[n], r1).trace);
  }

  /** On a body without branches, the reports are the faults of the one path through it. */
  lemma ReportsAreFaults(linear: set<nat>, stmts: seq<Stmt>, picks: seq<bool>)
    requires StraightBody(stmts)
    ensures CheckBlock(linear, stmts, map[]).moves == Faults(RunBlock(stmts, Run([], false, picks)).trace)
  {
    var b: Bindings, r := map[], Run([], false, picks);
    if stmts != [] {
      var n := |stmts| - 1;
      BlockEnds(linear, stmts, n, b, r);
      BodyTells(linear, stmts, n, b, r, CheckBlock(linear, stmts[..n], b), RunBlock(stmts[..n], r));
    }
  }

  lemma LastTells(linear: set<nat>, s: Stmt, c: Checked, r: Run, seen: set<Symbol>)
    requires StraightStmt(s) || (s.Return? && (s.value.Some? ==> Straight(s.value.value)))
    requires ScopedStmt(s, seen) && c.b.Keys <= seen && Exact(c.b, r)
    ensures Faults(RunStmt(s, r).trace) == Faults(r.trace) + CheckStmt(linear, s, c.b).moves
  {
    if !s.Return? {
      StmtTells(linear, s, c.b, r, seen);
    } else if s.value.Some? {
      MovedTells(linear, s.value.value, c.b, r, seen);
    }
  }
}
