/** The ownership checker as it runs: a map of bindings updated in place. */
module OwnershipChecker {
  import opened Wrappers
  import opened MoveSyntax
  import Ownership
  import opened LinearClosure

  class Checker {
    var linearDecls: set<nat>
    var bindings: Ownership.Bindings
    var moves: seq<Report>         // use-after-move errors, in the order reported
    var diverging: set<Symbol>     // linear bindings consumed on some branches only
    var leaks: set<Symbol>         // linear bindings never consumed

    constructor ()
      ensures linearDecls == {} && bindings == map[] && moves == [] && diverging == {} && leaks == {}
    {
      linearDecls, bindings, moves, diverging, leaks := {}, map[], [], {}, {};
    }

    // ------------------------------------------------------ linear structs

    method ComputeLinearDecls(decls: seq<StructDecl>)
      requires linearDecls == {}
      modifies `linearDecls
      ensures IsLeast(decls, linearDecls)
    {
      for i := 0 to |decls|
        invariant forall t :: Closed(decls, t) ==> linearDecls <= t
        invariant forall k: nat :: k in linearDecls ==> k < |decls|
        invariant forall k: nat :: k < i && decls[k].isLinear ==> k in linearDecls
      {
        if decls[i].isLinear { linearDecls := linearDecls + {i}; }
      }
      ghost var all := Indices(|decls|);
      var changed := true;
      while changed
        invariant forall t :: Closed(decls, t) ==> linearDecls <= t
        invariant forall k: nat :: k in linearDecls ==> k < |decls|
        invariant forall k: nat :: k < |decls| && decls[k].isLinear ==> k in linearDecls
        invariant !changed ==> forall i: nat, j: nat :: Owns(decls, i, j) && j in linearDecls ==> i in linearDecls
        decreases all - linearDecls, changed
      {
        changed := false;
        ghost var before := linearDecls;
        for i := 0 to |decls|
          invariant forall t :: Closed(decls, t) ==> linearDecls <= t
          invariant forall k: nat :: k in linearDecls ==> k < |decls|
          invariant before <= linearDecls && (if changed then before != linearDecls else before == linearDecls)
          invariant !changed ==> forall k: nat, j: nat :: k < i && Owns(decls, k, j) && j in linearDecls ==> k in linearDecls
        {
          if i !in linearDecls {
            var owner := OwnsLinear(decls, i);
            if owner {
              linearDecls := linearDecls + {i};
              changed := true;
            }
          }
        }
        assert changed ==> all - linearDecls < all - before by {
          if changed {
            var k :| k in linearDecls && k !in before;
            assert k in all - before && k !in all - linearDecls;
          }
        }
      }
    }

    /** Some field's type is a struct already known to be linear. */
    method OwnsLinear(decls: seq<StructDecl>, i: nat) returns (owner: bool)
      requires i < |decls|
      ensures owner <==> exists j: nat :: Owns(decls, i, j) && j in linearDecls
    {
      var fields := decls[i].fields;
      for k := 0 to |fields|
        invariant forall m, j: nat :: 0 <= m < k && Lookup(decls, HeadName(fields[m])) == Some(j) ==> j !in linearDecls
      {
        var d := Lookup(decls, HeadName(fields[k]));
        if d.Some? && d.value in linearDecls {
          assert Owns(decls, i, d.value);
          return true;
        }
      }
      return false;
    }

    // ------------------------------------------------------------ places

    method ConsumePlace(e: Expr)
      modifies `bindings, `moves
      ensures var c := Ownership.Consume(old(bindings), Place(e));
        bindings == c.b && moves == old(moves) + c.moves
    {
      var place := Place(e);
      if place.None? { return; }
      var x := place.value;
      if x !in bindings { bindings := bindings[x := Ownership.Live]; }
      if bindings[x].Consumed? {
        moves := moves + [MovedTwice(x)];
        return;
      }
      bindings := bindings[x := Ownership.Consumed];
    }

    method CheckUse(x: Symbol)
      modifies `moves
      ensures moves == old(moves) + Ownership.CheckUse(bindings, x).moves
    {
      if !Tracked(x) || x !in bindings || bindings[x].Live? { return; }
      moves := moves + [UsedAfterMove(x)];
    }

    /** Fold what a branch consumed into `dst`. */
    static method MergeConsumed(dst: Ownership.Bindings, branch: Ownership.Bindings) returns (r: Ownership.Bindings)
      ensures r == Ownership.Merge(dst, branch)
    {
      r := dst;
      var left := branch.Keys;
      while left != {}
        invariant left <= branch.Keys
        invariant forall x :: x in r <==> x in dst || (x in branch.Keys - left && branch[x].Consumed?)
        invariant forall x :: x in r ==>
          r[x] == if x in branch.Keys - left && branch[x].Consumed? then Ownership.Consumed else dst[x]
      {
        var x :| x in left;
        if branch[x].Consumed? { r := r[x := Ownership.Consumed]; }
        left := left - {x};
      }
    }

    method RegisterLinearBinding(x: Symbol)
      modifies `bindings
      ensures bindings == Ownership.Register(linearDecls, old(bindings), x)
    {
      if IsLinear(linearDecls, x) { bindings := bindings[x := Ownership.Live]; }
    }

    method ReportLinearDivergence(pre: Ownership.Bindings, branches: seq<Ownership.Bindings>)
      modifies `diverging
      ensures diverging == old(diverging) + Ownership.Divergence(linearDecls, pre, branches)
    {
      var left := pre.Keys;
      while left != {}
        invariant left <= pre.Keys
        invariant diverging == old(diverging) + set x | x in pre && x !in left && Ownership.Diverges(linearDecls, pre, branches, x)
      {
        var x :| x in left;
        left := left - {x};
        if pre[x].Live? && IsLinear(linearDecls, x) {
          var any, all := false, true;
          for i := 0 to |branches|
            invariant any <==> exists k :: 0 <= k < i && Ownership.Gone(branches[k], x)
            invariant all <==> forall k :: 0 <= k < i ==> Ownership.Gone(branches[k], x)
          {
            var consumed := Ownership.Gone(branches[i], x);
            any := any || consumed;
            all := all && consumed;
          }
          if any && !all { diverging := diverging + {x}; }
        }
      }
    }

    // --------------------------------------------------------- the pass

    /** The state has moved on from `b`, `m` and `d` as `c` says. */
    ghost predicate After(c: Ownership.Checked, m: seq<Report>, d: set<Symbol>)
      reads this
    {
      bindings == c.b && moves == m + c.moves && diverging == d + c.diverging
    }

    method CheckExpr(e: Expr)
      modifies `bindings, `moves, `diverging
      ensures After(Ownership.CheckExpr(linearDecls, e, old(bindings)), old(moves), old(diverging))
      decreases e, 1
    {
      match e
      case Leaf(_) =>
      case Use(x) => CheckUse(x);
      case Paren(inner) => CheckExpr(inner);
      case Walk(operands) => CheckAll(operands);
      case Short(lhs, rhs) =>
        CheckExpr(lhs);
        CheckExpr(rhs);
      case Call(callee, args) =>
        CheckExpr(callee);
        CheckArgs(args);
      case Throw(inner) => CheckExpr(inner);
      case Try(inner) => CheckExpr(inner);
      case If(_, _, _) => CheckIf(e);
      case Match(_, _) => CheckMatch(e);
      case Block(stmts) => CheckBlock(stmts);
    }

    /** Each branch is checked from the same bindings, and their moves are joined. */
    method CheckIf(e: Expr)
      requires e.If?
      modifies `bindings, `moves, `diverging
      ensures After(Ownership.CheckExpr(linearDecls, e, old(bindings)), old(moves), old(diverging))
      decreases e, 0
    {
      CheckExpr(e.cond);
      var pre := bindings;
      CheckExpr(e.thenE);
      var thenState := bindings;
      bindings := pre;
      if e.elseE.Some? { CheckExpr(e.elseE.value); }
      var elseState := bindings;
      ReportLinearDivergence(pre, [thenState, elseState]);
      bindings := MergeConsumed(bindings, thenState);
    }

    method CheckMatch(e: Expr)
      requires e.Match?
      modifies `bindings, `moves, `diverging
      ensures After(Ownership.CheckExpr(linearDecls, e, old(bindings)), old(moves), old(diverging))
      decreases e, 0
    {
      CheckExpr(e.scrutinee);
      CheckGuards(e.arms);
      var pre := bindings;
      var merged, states := CheckBodies(e.arms);
      ReportLinearDivergence(pre, states);
      bindings := merged;
    }

    method CheckGuards(arms: seq<Arm>)
      modifies `bindings, `moves, `diverging
      ensures After(Ownership.CheckGuards(linearDecls, arms, old(bindings)), old(moves), old(diverging))
      decreases arms, 0
    {
      for i := 0 to |arms|
        invariant After(Ownership.CheckGuards(linearDecls, arms[..i], old(bindings)), old(moves), old(diverging))
      {
        assert arms[..i + 1][..i] == arms[..i];
        CheckGuard(arms[i]);
      }
      assert arms[..|arms|] == arms;
    }

    method CheckGuard(arm: Arm)
      modifies `bindings, `moves, `diverging
      ensures After(Ownership.CheckGuard(linearDecls, arm, old(bindings)), old(moves), old(diverging))
      decreases arm, 0
    {
      if arm.guard.Some? { CheckExpr(arm.guard.value); }
    }

    method CheckBodies(arms: seq<Arm>) returns (merged: Ownership.Bindings, states: seq<Ownership.Bindings>)
      modifies `bindings, `moves, `diverging
      ensures var c := Ownership.CheckBodies(linearDecls, arms, old(bindings));
        && states == c.states && moves == old(moves) + c.moves && diverging == old(diverging) + c.diverging
        && merged == Ownership.MergeAll(old(bindings), c.states)
      decreases arms, 0
    {
      var pre := bindings;
      merged, states := pre, [];
      for i := 0 to |arms|
        invariant var c := Ownership.CheckBodies(linearDecls, arms[..i], pre);
          && states == c.states && moves == old(moves) + c.moves && diverging == old(diverging) + c.diverging
        invariant merged == Ownership.MergeAll(pre, states)
      {
        assert arms[..i + 1][..i] == arms[..i];
        bindings := pre;
        CheckBody(arms[i]);
        merged := MergeConsumed(merged, bindings);
        assert (states + [bindings])[..|states|] == states;
        states := states + [bindings];
      }
      assert arms[..|arms|] == arms;
    }

    method CheckBody(arm: Arm)
      modifies `bindings, `moves, `diverging
      ensures After(Ownership.CheckBody(linearDecls, arm, old(bindings)), old(moves), old(diverging))
      decreases arm, 0
    {
      CheckExpr(arm.body);
    }

    method CheckAll(es: seq<Expr>)
      modifies `bindings, `moves, `diverging
      ensures After(Ownership.CheckAll(linearDecls, es, old(bindings)), old(moves), old(diverging))
      decreases es, 0
    {
      for i := 0 to |es|
        invariant After(Ownership.CheckAll(linearDecls, es[..i], old(bindings)), old(moves), old(diverging))
      {
        assert es[..i + 1][..i] == es[..i];
        CheckExpr(es[i]);
      }
      assert es[..|es|] == es;
    }

    method CheckArgs(args: seq<Arg>)
      modifies `bindings, `moves, `diverging
      ensures After(Ownership.CheckArgs(linearDecls, args, old(bindings)), old(moves), old(diverging))
      decreases args, 0
    {
      for i := 0 to |args|
        invariant After(Ownership.CheckArgs(linearDecls, args[..i], old(bindings)), old(moves), old(diverging))
      {
        assert args[..i + 1][..i] == args[..i];
        CheckArg(args[i]);
      }
      assert args[..|args|] == args;
    }

    method CheckArg(a: Arg)
      modifies `bindings, `moves, `diverging
      ensures After(Ownership.CheckArg(linearDecls, a, old(bindings)), old(moves), old(diverging))
      decreases a, 0
    {
      CheckExpr(a.value);
      if a.sinks { ConsumePlace(a.value); }
    }

    method CheckBlock(stmts: seq<Stmt>)
      modifies `bindings, `moves, `diverging
      ensures After(Ownership.CheckBlock(linearDecls, stmts, old(bindings)), old(moves), old(diverging))
      decreases stmts, 0
    {
      for i := 0 to |stmts|
        invariant After(Ownership.CheckBlock(linearDecls, stmts[..i], old(bindings)), old(moves), old(diverging))
      {
        assert stmts[..i + 1][..i] == stmts[..i];
        CheckStmt(stmts[i]);
      }
      assert stmts[..|stmts|] == stmts;
    }

    method CheckStmt(s: Stmt)
      modifies `bindings, `moves, `diverging
      ensures After(Ownership.CheckStmt(linearDecls, s, old(bindings)), old(moves), old(diverging))
      decreases s, 0
    {
      match s
      case Bind(x, value) =>
        if value.Some? {
          CheckExpr(value.value);
          ConsumePlace(value.value);
        }
        RegisterLinearBinding(x);
      case Do(e) => CheckExpr(e);
      case Return(value) =>
        if value.Some? {
          CheckExpr(value.value);
          ConsumePlace(value.value);
        }
      case Assign(x, rhs) =>
        CheckExpr(rhs);
        if x in bindings { bindings := bindings[x := Ownership.Live]; }
      case AssignInto(target, rhs) =>
        CheckExpr(rhs);
        CheckExpr(target);
    }

    /** A function body is checked from no bindings, and the linear ones still live are leaks. */
    method CheckFunc(body: Expr)
      modifies `bindings, `moves, `diverging, `leaks
      ensures var c := Ownership.CheckExpr(linearDecls, body, map[]);
        After(c, old(moves), old(diverging)) && leaks == old(leaks) + Ownership.Leaks(linearDecls, c.b)
    {
      bindings := map[];
      CheckExpr(body);
      var left := bindings.Keys;
      while left != {}
        invariant left <= bindings.Keys
        invariant After(Ownership.CheckExpr(linearDecls, body, map[]), old(moves), old(diverging))
        invariant leaks == old(leaks) + (Ownership.Leaks(linearDecls, bindings) - left)
      {
        var x :| x in left;
        left := left - {x};
        if bindings[x].Live? && IsLinear(linearDecls, x) { leaks := leaks + {x}; }
      }
    }
  }
}
