/** What the parser returns: on a precedence-normal tree spelled in front of tokens that do not
    continue it, that tree and those tokens. */
module PrattComplete {
  import opened Wrappers
  import opened Syntax
  import opened Pratt
  import opened PrattSound

  /** The token continues neither a postfix expression nor a type. */
  predicate Closes(t: Token) { !t.LParen? && !t.Dot? && !t.LBracket? && !t.Bang? && !t.Question? }

  // --------------------------------------------------------------- types

  lemma {:induction false} PathComplete(acc: seq<string>, path: seq<string>, rest: Tokens)
    requires Peek(rest) != Dot
    ensures ParsePath(SpellDots(path, rest), acc) == Parsed(acc + path, rest, 0)
    decreases path
  {
    if path == [] {
      assert acc + path == acc;
    } else {
      PathComplete(acc + [path[0]], path[1..], rest);
      assert acc + [path[0]] + path[1..] == acc + path;
    }
  }

  lemma {:induction false} TypeComplete(t: TypeExpr, rest: Tokens)
    requires IsPath(t) && Peek(rest) != Dot && Peek(rest) != LBracket
    ensures ParseType(SpellType(t, rest)) == ParseOptional(t, rest, 0)
    decreases t
  {
    match t {
      case Named(_, path) =>
        PathComplete([], path, rest);
        assert [] + path == path;
      case Optional(inner) => TypeComplete(inner, Cons(Question, rest));
    }
  }

  // --------------------------------------------------------- expressions

  /** Parsing reaches the operator loop with exactly `e` in hand. */
  lemma {:induction false} BpComplete(tab: Table, e: Expr, rest: Tokens, min: nat)
    requires Normal(tab, e, min) && Closes(Peek(rest))
    requires e.Binary? ==> Stops(tab, Peek(rest), tab(e.op) + 1)
    ensures ParseBp(tab, Spell(e, rest), min) == ParseInfix(tab, e, rest, min, 0)
    decreases e, 5
  {
    if e.Binary? {
      var rhs := Spell(e.rhs, rest);
      BpComplete(tab, e.lhs, Cons(OpToken(e.op), rhs), min);
      BpStops(tab, e.rhs, rest, tab(e.op) + 1);
      BinaryTurn(tab, e.lhs, e.op, Cons(OpToken(e.op), rhs), min, Parsed(e.rhs, rest, 0));
    } else {
      CastComplete(tab, e, rest, min);
    }
  }

  lemma BinaryTurn(tab: Table, lhs: Expr, op: BinOp, ts: Tokens, min: nat, rhs: Parsed<Expr>)
    requires InfixOf(Peek(ts)) == Some(op) && !IsAs(Peek(ts)) && tab(op) >= min
    requires ParseBp(tab, ts.tail, tab(op) + 1) == rhs && rhs.errs == 0
    ensures ParseInfix(tab, lhs, ts, min, 0) == ParseInfix(tab, Binary(op, lhs, rhs.v), rhs.rest, min, 0)
  {
    assert ParseRight(tab, op, ts.tail) == rhs;
  }

  /** Followed by a token that ends it, a normal tree is the whole result. */
  lemma {:induction false} BpStops(tab: Table, e: Expr, rest: Tokens, min: nat)
    requires Normal(tab, e, min) && Closes(Peek(rest)) && Stops(tab, Peek(rest), min)
    ensures ParseBp(tab, Spell(e, rest), min) == Parsed(e, rest, 0)
    decreases e, 6
  {
    BpComplete(tab, e, rest, min);
  }

  lemma {:induction false} CastComplete(tab: Table, e: Expr, rest: Tokens, min: nat)
    requires IsCast(tab, e) && Closes(Peek(rest))
    ensures ParseBp(tab, Spell(e, rest), min) == ParseInfix(tab, e, rest, min, 0)
    decreases e, 4
  {
    if e.Cast? {
      var word := Cons(if e.optional then KwAsQuestion else KwAs, SpellType(e.target, rest));
      CastComplete(tab, e.value, word, min);
      TypeComplete(e.target, rest);
      CastTurn(tab, e.value, word, min, Parsed(e.target, rest, 0));
    } else {
      PrefixComplete(tab, e, rest);
    }
  }

  lemma CastTurn(tab: Table, v: Expr, ts: Tokens, min: nat, t: Parsed<TypeExpr>)
    requires IsAs(Peek(ts)) && ParseType(ts.tail) == t && t.errs == 0
    ensures ParseInfix(tab, v, ts, min, 0) == ParseInfix(tab, Cast(v, t.v, ts.head == KwAsQuestion), t.rest, min, 0)
  {
  }

  lemma {:induction false} PrefixComplete(tab: Table, e: Expr, rest: Tokens)
    requires IsPrefixed(tab, e) && Closes(Peek(rest))
    ensures ParsePrefix(tab, Spell(e, rest)) == Parsed(e, rest, 0)
    decreases e, 3
  {
    if e.Prefix? {
      PrefixComplete(tab, e.operand, rest);
    } else {
      LeadingPostfix(tab, e, rest);
      PostfixComplete(tab, e, rest);
    }
  }

  /** What `parse_prefix` does once it has seen no prefix operator. */
  function PrimaryThenPostfix(tab: Table, ts: Tokens): Parsed<Expr> {
    var r := ParsePrimary(tab, ts);
    ParsePostfix(tab, r.v, r.rest, r.errs)
  }

  /** Parsing a primary and its suffixes reaches the suffix loop with exactly `e` in hand. */
  lemma {:induction false} PostfixComplete(tab: Table, e: Expr, rest: Tokens)
    requires IsPostfix(tab, e)
    ensures PrimaryThenPostfix(tab, Spell(e, rest)) == ParsePostfix(tab, e, rest, 0)
    decreases e, 2
  {
    if e.Call? {
      var ts := Cons(LParen, SpellArgs(e.args, Cons(RParen, rest)));
      PostfixComplete(tab, e.callee, ts);
      CallComplete(tab, e, rest);
      SuffixTurn(tab, e.callee, ts, e, rest);
    } else if e.Index? {
      var ts := Cons(LBracket, SpellList(e.indices, Cons(RBracket, rest)));
      PostfixComplete(tab, e.base, ts);
      IndexComplete(tab, e, rest);
      SuffixTurn(tab, e.base, ts, e, rest);
    } else if e.Member? {
      var ts := SpellMember(e.field, e.chain, rest);
      PostfixComplete(tab, e.base, ts);
      SuffixTurn(tab, e.base, ts, e, rest);
    } else if e.Unwrap? {
      PostfixComplete(tab, e.base, Cons(Bang, rest));
      SuffixTurn(tab, e.base, Cons(Bang, rest), e, rest);
    } else {
      PrimaryComplete(tab, e, rest);
    }
  }

  lemma SuffixTurn(tab: Table, base: Expr, ts: Tokens, e: Expr, rest: Tokens)
    requires StartsSuffix(ts) && ParseSuffix(tab, base, ts, 0) == Parsed(e, rest, 0)
    ensures ParsePostfix(tab, base, ts, 0) == ParsePostfix(tab, e, rest, 0)
  {
  }

  lemma {:induction false} CallComplete(tab: Table, e: Expr, rest: Tokens)
    requires e.Call? && forall a | a in e.args :: NormalArg(tab, a)
    ensures ParseSuffix(tab, e.callee, Cons(LParen, SpellArgs(e.args, Cons(RParen, rest))), 0) == Parsed(e, rest, 0)
    decreases e, 1
  {
    if e.args != [] {
      ArgsComplete(tab, e.args, Cons(RParen, rest));
    }
  }

  lemma {:induction false} IndexComplete(tab: Table, e: Expr, rest: Tokens)
    requires e.Index? && forall x | x in e.indices :: Normal(tab, x, 0)
    ensures ParseSuffix(tab, e.base, Cons(LBracket, SpellList(e.indices, Cons(RBracket, rest))), 0) == Parsed(e, rest, 0)
    decreases e, 1
  {
    var close := Cons(RBracket, rest);
    if e.indices != [] { ListComplete(tab, e.indices, close); }
    var ts := SpellList(e.indices, close);
    assert ParseListUnless(tab, ts, RBracket) == Parsed(e.indices, close, 0);
    assert ParseIndex(tab, e.base, ts, 0) == Parsed(e, rest, 0);
  }

  lemma {:induction false} PrimaryComplete(tab: Table, e: Expr, rest: Tokens)
    requires IsPrimary(tab, e)
    ensures ParsePrimary(tab, Spell(e, rest)) == Parsed(e, rest, 0)
    decreases e, 1
  {
    if e.Paren? {
      BpStops(tab, e.inner, Cons(RParen, rest), 0);
    } else if e.Tuple? {
      TupleComplete(tab, e, rest);
    } else if e.Vector? {
      VectorComplete(tab, e, rest);
    }
  }

  lemma {:induction false} VectorComplete(tab: Table, e: Expr, rest: Tokens)
    requires e.Vector? && IsPrimary(tab, e)
    ensures ParsePrimary(tab, Spell(e, rest)) == Parsed(e, rest, 0)
    decreases e, 0
  {
    var close := Cons(RBracket, rest);
    if e.elements != [] { ListComplete(tab, e.elements, close); }
    var ts := SpellList(e.elements, close);
    assert ParseListUnless(tab, ts, RBracket) == Parsed(e.elements, close, 0);
    assert ParseVector(tab, ts) == Parsed(e, rest, 0);
  }

  lemma {:induction false} TupleComplete(tab: Table, e: Expr, rest: Tokens)
    requires e.Tuple? && IsPrimary(tab, e)
    ensures ParseParen(tab, SpellList(e.elements, Cons(RParen, rest))) == Parsed(e, rest, 0)
    decreases e, 0
  {
    var first, others := e.elements[0], e.elements[1..];
    var close := Cons(RParen, rest);
    BpStops(tab, first, Cons(Comma, SpellList(others, close)), 0);
    ListComplete(tab, others, close);
    assert [first] + others == e.elements;
  }

  lemma {:induction false} ListComplete(tab: Table, es: seq<Expr>, rest: Tokens)
    requires es != [] && forall x | x in es :: Normal(tab, x, 0)
    requires Peek(rest).RParen? || Peek(rest).RBracket?
    ensures ParseList(tab, SpellList(es, rest)) == Parsed(es, rest, 0)
    ensures !Separates(Peek(SpellList(es, rest)))
    decreases es, 7
  {
    var first := es[0];
    var after := if |es| == 1 then rest else Cons(Comma, SpellList(es[1..], rest));
    FirstToken(tab, first, 0, after);
    BpStops(tab, first, after, 0);
    if |es| > 1 {
      ListComplete(tab, es[1..], rest);
      assert [first] + es[1..] == es;
    } else {
      assert [first] == es;
    }
  }

  lemma {:induction false} ArgComplete(tab: Table, a: Arg, rest: Tokens)
    requires NormalArg(tab, a) && (Peek(rest).Comma? || Peek(rest).RParen?)
    ensures ParseArg(tab, SpellArg(a, rest)) == Parsed(a, rest, 0)
    ensures !Separates(Peek(SpellArg(a, rest)))
    decreases a, 6
  {
    LeadingAmp(tab, a.value, 0, rest);
    FirstToken(tab, a.value, 0, rest);
    SecondToken(tab, a.value, 0, rest);
    BpStops(tab, a.value, rest, 0);
  }

  lemma {:induction false} ArgsComplete(tab: Table, args: seq<Arg>, rest: Tokens)
    requires args != [] && forall a | a in args :: NormalArg(tab, a)
    requires Peek(rest).RParen?
    ensures ParseArgs(tab, SpellArgs(args, rest)) == Parsed(args, rest, 0)
    ensures !Separates(Peek(SpellArgs(args, rest)))
    decreases args, 7
  {
    var first := args[0];
    ArgComplete(tab, first, if |args| == 1 then rest else Cons(Comma, SpellArgs(args[1..], rest)));
    if |args| > 1 {
      ArgsComplete(tab, args[1..], rest);
      assert [first] + args[1..] == args;
    } else {
      assert [first] == args;
    }
  }
}
