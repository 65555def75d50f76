/** The C++ text of an operator tree, which the emitter writes without adding parentheses, read
    back with the C++ precedences. */
module CppGrouping {
  import opened Syntax
  import opened Pratt
  import opened PrattSound
  import opened PrattComplete
  import opened RoundTrip

  /** Names, literals, groups, `-` `!` `~`, and the operators that are written infix. */
  predicate IsOperatorTree(e: Expr) {
    match e
    case Literal(form, _) => form.IntForm? || form.FloatForm?
    case Bool(_) | Name(_) => true
    case Paren(inner) => IsOperatorTree(inner)
    case Prefix(p, operand) => (p.Neg? || p.Not? || p.BitNot?) && IsOperatorTree(operand)
    case Binary(op, lhs, rhs) => WrittenInfix(op) && IsOperatorTree(lhs) && IsOperatorTree(rhs)
    case _ => false
  }

  predicate WrittenInfix(op: BinOp) { !op.Range? && !op.RangeLt? && !op.Coalesce? }

  /** `binop_text`: the wrapping operators share the text of the plain ones. */
  function CppOp(op: BinOp): (r: BinOp)
    ensures CppLeft(r) == CppLeft(op) && (WrittenInfix(op) ==> WrittenInfix(r))
  {
    match op
    case WrapMul => Mul
    case WrapAdd => Add
    case WrapSub => Sub
    case _ => op
  }

  function WithoutUnderscores(text: string): (r: string)
    ensures '_' !in r
  {
    if text == "" then ""
    else if text[0] == '_' then WithoutUnderscores(text[1..])
    else [text[0]] + WithoutUnderscores(text[1..])
  }

  /** The C++ tree that the Vestra tree means. */
  function Lower(e: Expr): Expr {
    match e
    case Literal(form, text) => if form.IntForm? then Literal(form, WithoutUnderscores(text)) else e
    case Paren(inner) => Paren(Lower(inner))
    case Prefix(p, operand) => Prefix(p, Lower(operand))
    case Binary(op, lhs, rhs) => Binary(CppOp(op), Lower(lhs), Lower(rhs))
    case _ => e
  }

  const DECREMENT := Stop("--")

  /** The tokens that C++ reads from a `-` written against the text of `ts`: two adjacent minus
      signs are a decrement. */
  function MinusThen(ts: Tokens): (r: Tokens)
    ensures Len(r) <= 1 + Len(ts)
    ensures if Peek(ts) == Minus || Peek(ts) == DECREMENT then Peek(r) == DECREMENT else r == Cons(Minus, ts)
  {
    if Peek(ts) == Minus then Cons(DECREMENT, ts.tail)
    else if Peek(ts) == DECREMENT then Cons(DECREMENT, MinusThen(ts.tail))
    else Cons(Minus, ts)
  }

  /** `emit_expr` on operator trees, as C++ tokens. */
  function Emit(e: Expr, rest: Tokens): Tokens {
    match e
    case Literal(form, text) => Cons(Lit(form, if form.IntForm? then WithoutUnderscores(text) else text), rest)
    case Bool(b) => Cons(if b then KwTrue else KwFalse, rest)
    case Name(name) => Cons(Ident(name), rest)
    case Paren(inner) => Cons(LParen, Emit(inner, Cons(RParen, rest)))
    case Prefix(p, operand) =>
      if p.Neg? then MinusThen(Emit(operand, rest)) else Cons(PrefixToken(p), Emit(operand, rest))
    case Binary(op, lhs, rhs) => Emit(lhs, Cons(OpToken(CppOp(op)), Emit(rhs, rest)))
    case _ => rest
  }

  /** No `-` is applied directly to a negation. */
  predicate NoDoubleMinus(e: Expr) {
    match e
    case Paren(inner) => NoDoubleMinus(inner)
    case Prefix(p, operand) => NoDoubleMinus(operand) && !(p.Neg? && operand.Prefix? && operand.pre.Neg?)
    case Binary(_, lhs, rhs) => NoDoubleMinus(lhs) && NoDoubleMinus(rhs)
    case _ => true
  }

  predicate IsRelational(op: BinOp) { op.LtOp? || op.LeOp? || op.GtOp? || op.GeOp? }

  predicate IsComparison(op: BinOp) { IsRelational(op) || op.EqOp? || op.NeOp? }

  predicate IsBitwise(e: Expr) { e.Binary? && (e.op.BitAnd? || e.op.BitXor? || e.op.BitOr?) }

  predicate IsEquality(e: Expr) { e.Binary? && (e.op.EqOp? || e.op.NeOp?) }

  /** No comparison has a bare bitwise operand, and no relational a bare equality on its left. */
  predicate KeepsGrouping(e: Expr) {
    match e
    case Paren(inner) => KeepsGrouping(inner)
    case Prefix(_, operand) => KeepsGrouping(operand)
    case Binary(op, lhs, rhs) =>
      && KeepsGrouping(lhs) && KeepsGrouping(rhs)
      && !(IsComparison(op) && (IsBitwise(lhs) || IsBitwise(rhs)))
      && !(IsRelational(op) && IsEquality(lhs))
    case _ => true
  }

  // ------------------------------------------------------ text and spelling

  lemma {:induction false} EmitMirrors(tab: Table, e: Expr, min: nat, x: Tokens, y: Tokens)
    requires IsOperatorTree(e) && Normal(tab, e, min) && Len(x) <= Len(y)
    ensures Mirrors(Emit(e, x), Spell(Lower(e), y), NoDoubleMinus(e), x, y)
  {
    if e.Paren? {
      assert IsPrimary(tab, e) by { OperatorTreeShape(tab, e, min); }
      EmitMirrors(tab, e.inner, 0, Cons(RParen, x), Cons(RParen, y));
    } else if e.Prefix? {
      OperatorTreeShape(tab, e, min);
      PrefixedNormal(tab, e.operand, 0);
      EmitMirrors(tab, e.operand, 0, x, y);
      PrefixMirrors(e, Emit(e.operand, x), Spell(Lower(e.operand), y), x, y);
      LeadingMinus(e.operand, x);
    } else if e.Binary? {
      var op := OpToken(CppOp(e.op));
      EmitMirrors(tab, e.rhs, tab(e.op) + 1, x, y);
      EmitMirrors(tab, e.lhs, min, Cons(op, Emit(e.rhs, x)), Cons(op, Spell(Lower(e.rhs), y)));
    }
  }

  lemma OperatorTreeShape(tab: Table, e: Expr, min: nat)
    requires IsOperatorTree(e) && Normal(tab, e, min) && !e.Binary?
    ensures if e.Prefix? then IsPrefixed(tab, e.operand) && !e.operand.Binary? else IsPrimary(tab, e)
  {
    assert IsCast(tab, e);
    assert IsPrefixed(tab, e);
    if e.Prefix? {
      PrefixedNormal(tab, e.operand, 0);
    } else {
      assert IsPostfix(tab, e);
    }
  }

  lemma LeadingMinus(e: Expr, rest: Tokens)
    requires IsOperatorTree(e) && !e.Binary?
    ensures var t := Peek(Emit(e, rest));
      (t == Minus || t == DECREMENT) <==> e.Prefix? && e.pre.Neg?
  {
  }

  lemma PrefixMirrors(e: Expr, printed: Tokens, spelled: Tokens, x: Tokens, y: Tokens)
    requires IsOperatorTree(e) && e.Prefix?
    requires Mirrors(printed, spelled, NoDoubleMinus(e.operand), x, y)
    ensures var t := Peek(printed);
      ((t == Minus || t == DECREMENT) <==> e.operand.Prefix? && e.operand.pre.Neg?) ==>
      Mirrors(if e.pre.Neg? then MinusThen(printed) else Cons(PrefixToken(e.pre), printed),
        Cons(PrefixToken(e.pre), spelled), NoDoubleMinus(e), x, y)
  {
  }

  // ---------------------------------------------------------------- grouping

  /** A tree that is precedence-normal for Vestra is so for C++ exactly when it keeps its
      grouping and its top operator is allowed. */
  lemma {:induction false} LoweredNormal(e: Expr, vmin: nat, min: nat)
    requires IsOperatorTree(e) && Normal(VestraLeft, e, vmin)
    ensures Normal(CppLeft, Lower(e), min) <==> KeepsGrouping(e) && (e.Binary? ==> CppLeft(e.op) >= min)
    decreases e, 1
  {
    if e.Binary? {
      LoweredNormal(e.lhs, vmin, min);
      LoweredNormal(e.rhs, VestraLeft(e.op) + 1, CppLeft(e.op) + 1);
      LevelsAgree(e, vmin);
    } else {
      LoweredSimple(e, vmin, min);
    }
  }

  lemma {:induction false} LoweredSimple(e: Expr, vmin: nat, min: nat)
    requires IsOperatorTree(e) && Normal(VestraLeft, e, vmin) && !e.Binary?
    ensures Normal(CppLeft, Lower(e), min) <==> KeepsGrouping(e)
    decreases e, 0
  {
    OperatorTreeShape(VestraLeft, e, vmin);
    if e.Prefix? {
      PrefixedNormal(VestraLeft, e.operand, 0);
      LoweredNormal(e.operand, 0, 0);
    } else if e.Paren? {
      LoweredNormal(e.inner, 0, 0);
    }
    assert Normal(CppLeft, Lower(e), min) == IsCast(CppLeft, Lower(e));
    LoweredPrefixed(e);
  }

  /** For a tree without a top operator, only what is inside it matters. */
  lemma LoweredPrefixed(e: Expr)
    requires IsOperatorTree(e) && !e.Binary? && (e.Prefix? ==> !e.operand.Binary?)
    ensures IsCast(CppLeft, Lower(e)) ==
      (if e.Prefix? then Normal(CppLeft, Lower(e.operand), 0)
       else if e.Paren? then Normal(CppLeft, Lower(e.inner), 0) else true)
  {
    assert IsCast(CppLeft, Lower(e)) == IsPrefixed(CppLeft, Lower(e));
    if e.Prefix? {
      assert IsCast(CppLeft, Lower(e.operand)) == IsPrefixed(CppLeft, Lower(e.operand));
    } else {
      assert IsPrefixed(CppLeft, Lower(e)) == IsPostfix(CppLeft, Lower(e));
      assert IsPostfix(CppLeft, Lower(e)) == IsPrimary(CppLeft, Lower(e));
    }
  }

  /** Where the two tables order an operator and its operands differently. */
  lemma LevelsAgree(e: Expr, vmin: nat)
    requires IsOperatorTree(e) && e.Binary? && Normal(VestraLeft, e, vmin)
    ensures e.lhs.Binary? ==>
      (CppLeft(e.op) <= CppLeft(e.lhs.op) <==>
       !(IsComparison(e.op) && IsBitwise(e.lhs)) && !(IsRelational(e.op) && IsEquality(e.lhs)))
    ensures e.rhs.Binary? ==>
      (CppLeft(e.op) < CppLeft(e.rhs.op) <==> !(IsComparison(e.op) && IsBitwise(e.rhs)))
  {
  }

  /** The text read back with the C++ precedences is the tree that was meant, exactly when no
      comparison has a bare bitwise operand or chains across levels, and no negation is negated. */
  lemma EmittedGrouping(e: Expr, rest: Tokens)
    requires IsOperatorTree(e) && Normal(VestraLeft, e, 0)
    requires Closes(Peek(rest)) && Stops(CppLeft, Peek(rest), 0)
    ensures ParseBp(CppLeft, Emit(e, rest), 0) == Parsed(Lower(e), rest, 0) <==>
      KeepsGrouping(e) && NoDoubleMinus(e)
  {
    ParseIffSpelled(CppLeft, Emit(e, rest), 0, Lower(e), rest);
    LoweredNormal(e, 0, 0);
    EmitMirrors(VestraLeft, e, 0, rest, rest);
  }
}
