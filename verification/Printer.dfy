/** The expression printer, as the tokens its text is read back as, and when it round-trips. */
module Printer {
  import opened Wrappers
  import opened Syntax
  import opened Pratt
  import opened PrattSound
  import opened PrattComplete
  import opened RoundTrip

  /** `print_type`, with `marks` more optionals around the type: they are written one against the
      other, and the lexer reads every two `?` as one `??`. */
  function PrintType(t: TypeExpr, marks: nat, rest: Tokens): Tokens {
    match t
    case Named(head, path) => Cons(head, SpellDots(path, Marks(marks, rest)))
    case Optional(inner) => PrintType(inner, marks + 1, rest)
    case BadType => Cons(Infix(LtOp), Cons(Ident("error"), Cons(Infix(GtOp), Marks(marks, rest))))
  }

  function Marks(n: nat, rest: Tokens): Tokens {
    if n == 0 then rest
    else if n == 1 then Cons(Question, rest)
    else Cons(Infix(Coalesce), Marks(n - 2, rest))
  }

  /** `print_expr`.  Tuples, vectors, `nil`, `throw` and `&` reach the default arm, which prints
      a comment; a postfix unwrap is printed as a prefix `!`, and `?.` as `.`. */
  function Print(e: Expr, rest: Tokens): Tokens
    decreases e
  {
    match e
    case Literal(form, text) => Cons(Lit(form, text), rest)
    case Bool(b) => Cons(if b then KwTrue else KwFalse, rest)
    case Self => Cons(KwSelf, rest)
    case Name(name) => Cons(Ident(name), rest)
    case LeadingDot(member) => Cons(Dot, Cons(Ident(member), rest))
    case Paren(inner) => Cons(LParen, Print(inner, Cons(RParen, rest)))
    case Prefix(p, operand) => if PrintsComment(p) then rest else Cons(PrefixToken(p), Print(operand, rest))
    case Unwrap(base) => Cons(Bang, Print(base, rest))
    case Binary(op, lhs, rhs) => Print(lhs, Cons(OpToken(op), Print(rhs, rest)))
    case Call(callee, args) => Print(callee, Cons(LParen, PrintArgs(args, Cons(RParen, rest))))
    case Member(base, field, _) => Print(base, Cons(Dot, Cons(field, rest)))
    case Index(base, indices) => Print(base, Cons(LBracket, PrintList(indices, Cons(RBracket, rest))))
    case Cast(value, target, optional) =>
      Print(value, Cons(if optional then KwAsQuestion else KwAs, PrintType(target, 0, rest)))
    case Nil | Tuple(_) | Vector(_) => rest
    case Bad => Cons(Infix(LtOp), Cons(Ident("error"), Cons(Infix(GtOp), rest)))
  }

  predicate PrintsComment(p: PrefixOp) { p.Throw? || p.AddressOf? }

  function PrintList(es: seq<Expr>, rest: Tokens): Tokens
    decreases es
  {
    if es == [] then rest
    else Print(es[0], if |es| == 1 then rest else Cons(Comma, PrintList(es[1..], rest)))
  }

  /** The `&` that marks an inout argument is printed against its value, and the lexer reads a
      `-` that follows it as part of the operator `&-`. */
  function PrintArg(a: Arg, rest: Tokens): Tokens
    decreases a
  {
    var value := Print(a.value, rest);
    var marked :=
      if !a.isInout then value
      else if LeadsWithNeg(a.value) && value.Cons? then Cons(Infix(WrapSub), value.tail)
      else Cons(Amp, value);
    if a.tag.Some? then Cons(Ident(a.tag.value), Cons(Colon, marked)) else marked
  }

  function PrintArgs(args: seq<Arg>, rest: Tokens): Tokens
    decreases args
  {
    if args == [] then rest
    else PrintArg(args[0], if |args| == 1 then rest else Cons(Comma, PrintArgs(args[1..], rest)))
  }

  /** The printed text starts with a `-`. */
  predicate LeadsWithNeg(e: Expr) {
    match e
    case Prefix(p, _) => p == Neg
    case Cast(value, _, _) => LeadsWithNeg(value)
    case Binary(_, lhs, _) => LeadsWithNeg(lhs)
    case Call(callee, _) => LeadsWithNeg(callee)
    case Member(base, _, _) => LeadsWithNeg(base)
    case Index(base, _) => LeadsWithNeg(base)
    case _ => false
  }

  /** No node that the printer drops or prints in another form, no inout argument that starts
      with a `-`, and no cast to an optional of an optional. */
  predicate Faithful(e: Expr)
    decreases e
  {
    match e
    case Literal(_, _) | Bool(_) | Self | Name(_) | LeadingDot(_) => true
    case Paren(inner) => Faithful(inner)
    case Prefix(p, operand) => !PrintsComment(p) && Faithful(operand)
    case Binary(_, lhs, rhs) => Faithful(lhs) && Faithful(rhs)
    case Call(callee, args) => Faithful(callee) && forall a | a in args :: FaithfulArg(a)
    case Member(base, _, chain) => !chain && Faithful(base)
    case Index(base, indices) => Faithful(base) && forall x | x in indices :: Faithful(x)
    case Cast(value, target, _) => Faithful(value) && !IsNested(target)
    case Nil | Tuple(_) | Vector(_) | Unwrap(_) | Bad => false
  }

  predicate IsNested(t: TypeExpr) { t.Optional? && t.inner.Optional? }

  predicate FaithfulArg(a: Arg)
    decreases a
  {
    Faithful(a.value) && !(a.isInout && LeadsWithNeg(a.value))
  }

  // --------------------------------------------------------------- types

  lemma {:induction false} TypeLen(t: TypeExpr, x: Tokens, y: Tokens)
    ensures Len(SpellType(t, y)) - Len(SpellType(t, x)) == Len(y) - Len(x) && Len(SpellType(t, y)) >= Len(y)
    decreases t
  {
    match t {
      case Named(_, path) => DotsLen(path, x, y);
      case Optional(inner) => TypeLen(inner, Cons(Question, x), Cons(Question, y));
      case BadType =>
    }
  }

  lemma {:induction false} DotsLen(path: seq<string>, x: Tokens, y: Tokens)
    ensures Len(SpellDots(path, y)) - Len(SpellDots(path, x)) == Len(y) - Len(x) && Len(SpellDots(path, y)) >= Len(y)
    decreases path
  {
    if path != [] { DotsLen(path[1..], x, y); }
  }

  function Depth(t: TypeExpr): nat { if t.Optional? then 1 + Depth(t.inner) else 0 }

  lemma {:induction false} MarksLen(n: nat, rest: Tokens)
    ensures Len(Marks(n, rest)) == Len(rest) + n / 2 + n % 2
    decreases n
  {
    if n >= 2 { MarksLen(n - 2, rest); }
  }

  /** How the printed length falls behind the spelled one: by one for every `??`. */
  lemma {:induction false} MarkedLen(t: TypeExpr, marks: nat, x: Tokens, y: Tokens)
    requires IsPath(t)
    ensures var n := Depth(t) + marks;
      Len(PrintType(t, marks, x)) == Len(SpellType(t, y)) - Len(y) + Len(x) - Depth(t) + n / 2 + n % 2
    decreases t
  {
    match t {
      case Named(_, path) =>
        MarksLen(marks, x);
        DotsLen(path, Marks(marks, x), y);
      case Optional(inner) => MarkedLen(inner, marks + 1, x, Cons(Question, y));
    }
  }

  lemma PlainPrinted(t: TypeExpr, x: Tokens)
    requires IsPath(t) && !IsNested(t)
    ensures PrintType(t, 0, x) == SpellType(t, x)
  {
    assert Marks(0, x) == x && Marks(1, x) == Cons(Question, x);
  }

  lemma NestedShorter(t: TypeExpr, x: Tokens, y: Tokens)
    requires IsPath(t)
    ensures Len(PrintType(t, 0, x)) <= Len(SpellType(t, y)) - Len(y) + Len(x)
    ensures IsNested(t) ==> Len(PrintType(t, 0, x)) < Len(SpellType(t, y)) - Len(y) + Len(x)
  {
    MarkedLen(t, 0, x, y);
    assert IsNested(t) ==> Depth(t) >= 2;
  }

  lemma TypeMirrors(t: TypeExpr, x: Tokens, y: Tokens)
    requires Len(x) <= Len(y) && IsPath(t)
    ensures Mirrors(PrintType(t, 0, x), SpellType(t, y), !IsNested(t), x, y)
  {
    TypeLen(t, x, y);
    NestedShorter(t, x, y);
    if !IsNested(t) {
      PlainPrinted(t, x);
      if SpellType(t, x) == SpellType(t, y) { TypeInjective(t, x, y); }
    }
  }

  lemma {:induction false} TypeInjective(t: TypeExpr, x: Tokens, y: Tokens)
    requires SpellType(t, x) == SpellType(t, y)
    ensures x == y
    decreases t
  {
    match t {
      case Named(_, path) => DotsInjective(path, x, y);
      case Optional(inner) => TypeInjective(inner, Cons(Question, x), Cons(Question, y));
      case BadType =>
    }
  }

  lemma {:induction false} DotsInjective(path: seq<string>, x: Tokens, y: Tokens)
    requires SpellDots(path, x) == SpellDots(path, y)
    ensures x == y
    decreases path
  {
    if path != [] { DotsInjective(path[1..], x, y); }
  }

  // ------------------------------------------- where print and spelling agree

  lemma {:induction false} PrintMirrors(tab: Table, e: Expr, min: nat, x: Tokens, y: Tokens)
    requires Normal(tab, e, min) && Len(x) <= Len(y)
    ensures Mirrors(Print(e, x), Spell(e, y), Faithful(e), x, y)
    decreases e, 5
  {
    if e.Binary? {
      PrintMirrors(tab, e.rhs, tab(e.op) + 1, x, y);
      PrintMirrors(tab, e.lhs, min, Cons(OpToken(e.op), Print(e.rhs, x)), Cons(OpToken(e.op), Spell(e.rhs, y)));
    } else if e.Cast? {
      CastNormal(tab, e.value, 0);
      TypeMirrors(e.target, x, y);
      var word := if e.optional then KwAsQuestion else KwAs;
      PrintMirrors(tab, e.value, 0, Cons(word, PrintType(e.target, 0, x)), Cons(word, SpellType(e.target, y)));
    } else if e.Prefix? {
      assert IsCast(tab, e);
      assert IsPrefixed(tab, e);
      PrefixedNormal(tab, e.operand, 0);
      PrintMirrors(tab, e.operand, 0, x, y);
    } else {
      assert IsCast(tab, e);
      assert IsPrefixed(tab, e);
      PostfixMirrors(tab, e, x, y);
    }
  }

  lemma {:induction false} PostfixMirrors(tab: Table, e: Expr, x: Tokens, y: Tokens)
    requires IsPostfix(tab, e) && Len(x) <= Len(y)
    ensures Mirrors(Print(e, x), Spell(e, y), Faithful(e), x, y)
    decreases e, 4
  {
    if e.Call? {
      ArgsMirror(tab, e.args, Cons(RParen, x), Cons(RParen, y));
      PostfixMirrors(tab, e.callee, Cons(LParen, PrintArgs(e.args, Cons(RParen, x))),
        Cons(LParen, SpellArgs(e.args, Cons(RParen, y))));
    } else if e.Index? {
      ListMirrors(tab, e.indices, Cons(RBracket, x), Cons(RBracket, y));
      PostfixMirrors(tab, e.base, Cons(LBracket, PrintList(e.indices, Cons(RBracket, x))),
        Cons(LBracket, SpellList(e.indices, Cons(RBracket, y))));
    } else if e.Member? || e.Unwrap? {
      ChainMirrors(tab, e, x, y);
    } else {
      PrimaryMirrors(tab, e, x, y);
    }
  }

  lemma {:induction false} ChainMirrors(tab: Table, e: Expr, x: Tokens, y: Tokens)
    requires (e.Member? || e.Unwrap?) && IsPostfix(tab, e) && Len(x) <= Len(y)
    ensures Mirrors(Print(e, x), Spell(e, y), Faithful(e), x, y)
    decreases e, 3
  {
    if e.Member? {
      SpellMemberLen(e.field, e.chain, x, y);
      PostfixMirrors(tab, e.base, Cons(Dot, Cons(e.field, x)), SpellMember(e.field, e.chain, y));
    } else {
      PostfixMirrors(tab, e.base, x, Cons(Bang, y));
      LeadingPostfix(tab, e.base, Cons(Bang, y));
    }
  }

  lemma SpellMemberLen(field: Token, chain: bool, x: Tokens, y: Tokens)
    ensures Len(Cons(Dot, Cons(field, x))) == 2 + Len(x)
    ensures Len(SpellMember(field, chain, y)) == (if chain then 3 else 2) + Len(y)
  {
    assert Len(Cons(field, x)) == 1 + Len(x);
    assert Len(Cons(Dot, Cons(field, y))) == 1 + Len(Cons(field, y));
  }

  lemma {:induction false} PrimaryMirrors(tab: Table, e: Expr, x: Tokens, y: Tokens)
    requires IsPrimary(tab, e) && Len(x) <= Len(y)
    ensures Mirrors(Print(e, x), Spell(e, y), Faithful(e), x, y)
    decreases e, 3
  {
    if e.Paren? {
      PrintMirrors(tab, e.inner, 0, Cons(RParen, x), Cons(RParen, y));
    } else if e.Tuple? {
      ListMirrors(tab, e.elements, Cons(RParen, x), Cons(RParen, y));
    } else if e.Vector? {
      ListMirrors(tab, e.elements, Cons(RBracket, x), Cons(RBracket, y));
    }
  }

  lemma {:induction false} ListMirrors(tab: Table, es: seq<Expr>, x: Tokens, y: Tokens)
    requires (forall e | e in es :: Normal(tab, e, 0)) && Len(x) <= Len(y)
    ensures Mirrors(PrintList(es, x), SpellList(es, y), forall e | e in es :: Faithful(e), x, y)
    decreases es
  {
    if |es| == 1 {
      PrintMirrors(tab, es[0], 0, x, y);
    } else if |es| > 1 {
      ListMirrors(tab, es[1..], x, y);
      PrintMirrors(tab, es[0], 0, Cons(Comma, PrintList(es[1..], x)), Cons(Comma, SpellList(es[1..], y)));
      assert es == [es[0]] + es[1..];
    }
  }

  lemma {:induction false} ArgMirrors(tab: Table, a: Arg, x: Tokens, y: Tokens)
    requires NormalArg(tab, a) && Len(x) <= Len(y)
    ensures Mirrors(PrintArg(a, x), SpellArg(a, y), FaithfulArg(a), x, y)
    decreases a, 1
  {
    UnlabelledMirrors(tab, a, x, y);
  }

  lemma {:induction false} UnlabelledMirrors(tab: Table, a: Arg, x: Tokens, y: Tokens)
    requires NormalArg(tab, a) && Len(x) <= Len(y)
    ensures var u := a.(tag := None); Mirrors(PrintArg(u, x), SpellArg(u, y), FaithfulArg(u), x, y)
    decreases a, 0
  {
    PrintMirrors(tab, a.value, 0, x, y);
    if LeadsWithNeg(a.value) { PrintLeads(a.value, x); }
  }

  lemma {:induction false} PrintLeads(e: Expr, rest: Tokens)
    requires LeadsWithNeg(e)
    ensures Peek(Print(e, rest)) == Minus
    decreases e
  {
    match e {
      case Prefix(_, _) =>
      case Cast(v, t, o) => PrintLeads(v, Cons(if o then KwAsQuestion else KwAs, PrintType(t, 0, rest)));
      case Binary(op, lhs, rhs) => PrintLeads(lhs, Cons(OpToken(op), Print(rhs, rest)));
      case Call(callee, args) => PrintLeads(callee, Cons(LParen, PrintArgs(args, Cons(RParen, rest))));
      case Member(base, field, _) => PrintLeads(base, Cons(Dot, Cons(field, rest)));
      case Index(base, indices) => PrintLeads(base, Cons(LBracket, PrintList(indices, Cons(RBracket, rest))));
    }
  }

  lemma {:induction false} ArgsMirror(tab: Table, args: seq<Arg>, x: Tokens, y: Tokens)
    requires (forall a | a in args :: NormalArg(tab, a)) && Len(x) <= Len(y)
    ensures Mirrors(PrintArgs(args, x), SpellArgs(args, y), forall a | a in args :: FaithfulArg(a), x, y)
    decreases args
  {
    if |args| == 1 {
      ArgMirrors(tab, args[0], x, y);
    } else if |args| > 1 {
      ArgsMirror(tab, args[1..], x, y);
      ArgMirrors(tab, args[0], Cons(Comma, PrintArgs(args[1..], x)), Cons(Comma, SpellArgs(args[1..], y)));
      assert args == [args[0]] + args[1..];
    }
  }

  // ------------------------------------------------------------- the theorems

  /** Printing what the parser returned gives back the tokens it read, exactly when the tree is
      faithful. */
  lemma PrintGivesSourceBack(ts: Tokens, min: nat)
    requires ParseBp(VestraLeft, ts, min).errs == 0
    ensures var r := ParseBp(VestraLeft, ts, min); Print(r.v, r.rest) == ts <==> Faithful(r.v)
  {
    BpSound(VestraLeft, ts, min);
    var r := ParseBp(VestraLeft, ts, min);
    PrintMirrors(VestraLeft, r.v, min, r.rest, r.rest);
  }

  /** Parsing what was printed gives the tree back, exactly when the tree is faithful. */
  lemma PrintThenParse(e: Expr, rest: Tokens, min: nat)
    requires Normal(VestraLeft, e, min) && Closes(Peek(rest)) && Stops(VestraLeft, Peek(rest), min)
    ensures ParseBp(VestraLeft, Print(e, rest), min) == Parsed(e, rest, 0) <==> Faithful(e)
  {
    ParseIffSpelled(VestraLeft, Print(e, rest), min, e, rest);
    PrintMirrors(VestraLeft, e, min, rest, rest);
  }

  /** `x as T? ?` is read as a cast to an optional of an optional, and printed as `x as T??`. */
  lemma NestedOptionalIsLost(rest: Tokens)
    requires Closes(Peek(rest)) && Stops(VestraLeft, Peek(rest), 0)
    ensures var e := Cast(Name("x"), Optional(Optional(Named(Ident("T"), []))), false);
      && ParseBp(VestraLeft, Spell(e, rest), 0) == Parsed(e, rest, 0)
      && Print(e, rest) == Cons(Ident("x"), Cons(KwAs, Cons(Ident("T"), Cons(Infix(Coalesce), rest))))
      && ParseBp(VestraLeft, Print(e, rest), 0) != Parsed(e, rest, 0)
  {
    var e := Cast(Name("x"), Optional(Optional(Named(Ident("T"), []))), false);
    assert IsPrefixed(VestraLeft, e.value) && IsPath(e.target) && IsCast(VestraLeft, e);
    ParseIffSpelled(VestraLeft, Spell(e, rest), 0, e, rest);
    PrintThenParse(e, rest, 0);
    var t := Named(Ident("T"), []);
    assert Marks(2, rest) == Cons(Infix(Coalesce), Marks(0, rest)) && Marks(0, rest) == rest;
    assert PrintType(t, 2, rest) == Cons(Ident("T"), Marks(2, rest));
    assert PrintType(Optional(t), 1, rest) == PrintType(t, 2, rest);
  }
}
