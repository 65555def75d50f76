/** The expression parser as functions from the tokens still to be read.

    Every function returns the tree, the tokens after it, and how many errors it reported;
    like the parser, it never fails and never moves past the final Eof. */
module Pratt {
  import opened Wrappers
  import opened Syntax

  datatype Parsed<T> = Parsed(v: T, rest: Tokens, errs: nat)

  /** `expect`: step over `t` if it is next, otherwise report an error and stay. */
  function Expect<T>(t: Token, p: Parsed<T>): (r: Parsed<T>)
    requires t != Eof
    ensures Len(r.rest) <= Len(p.rest) && p.errs <= r.errs
  {
    if Peek(p.rest) == t then p.(rest := Advance(p.rest)) else p.(errs := p.errs + 1)
  }

  // --------------------------------------------------------------- types

  /** Dotted names with `?` suffixes.  The other type forms are counted as errors here. */
  function ParseType(ts: Tokens): (r: Parsed<TypeExpr>)
    ensures Len(r.rest) <= Len(ts)
  {
    if !IsTypeHead(Peek(ts)) then Parsed(BadType, ts, 1)
    else
      var p := ParsePath(ts.tail, []);
      var t := Named(ts.head, p.v);
      if Peek(p.rest) == LBracket then Parsed(t, p.rest, p.errs + 1) else ParseOptional(t, p.rest, p.errs)
  }

  function ParsePath(ts: Tokens, path: seq<string>): (r: Parsed<seq<string>>)
    ensures Len(r.rest) <= Len(ts)
    decreases Len(ts)
  {
    if Peek(ts) != Dot then Parsed(path, ts, 0)
    else if !Peek(ts.tail).Ident? then Parsed(path, ts.tail, 1)
    else ParsePath(ts.tail.tail, path + [ts.tail.head.name])
  }

  function ParseOptional(t: TypeExpr, ts: Tokens, errs: nat): (r: Parsed<TypeExpr>)
    ensures Len(r.rest) <= Len(ts) && errs <= r.errs
    decreases Len(ts)
  {
    if Peek(ts) == Question then ParseOptional(Optional(t), ts.tail, errs) else Parsed(t, ts, errs)
  }

  // --------------------------------------------------------- expressions

  function ParseBp(tab: Table, ts: Tokens, min: nat): (r: Parsed<Expr>)
    ensures Len(r.rest) <= Len(ts)
    decreases Len(ts), 12
  {
    var p := ParsePrefix(tab, ts);
    ParseInfix(tab, p.v, p.rest, min, p.errs)
  }

  /** The loop of `parse_expr_bp`. */
  function ParseInfix(tab: Table, lhs: Expr, ts: Tokens, min: nat, errs: nat): (r: Parsed<Expr>)
    ensures Len(r.rest) <= Len(ts) && errs <= r.errs
    decreases Len(ts), 5
  {
    match ParseOperator(tab, lhs, ts, min, errs)
    case Some(r) => ParseInfix(tab, r.v, r.rest, min, r.errs)
    case None => Parsed(lhs, ts, errs)
  }

  /** One turn of that loop: a cast, or an operator that binds at least as tightly as `min`. */
  function ParseOperator(tab: Table, lhs: Expr, ts: Tokens, min: nat, errs: nat): (r: Option<Parsed<Expr>>)
    ensures r.Some? ==> Len(r.value.rest) < Len(ts) && errs <= r.value.errs
    decreases Len(ts), 4
  {
    if IsAs(Peek(ts)) then
      var t := ParseType(ts.tail);
      Some(Parsed(Cast(lhs, t.v, ts.head == KwAsQuestion), t.rest, errs + t.errs))
    else
      var op := InfixOf(Peek(ts));
      if op.None? || tab(op.value) < min then None
      else
        var rhs := ParseRight(tab, op.value, ts.tail);
        Some(Parsed(Binary(op.value, lhs, rhs.v), rhs.rest, errs + rhs.errs))
  }

  /** The right operand takes only operators that bind more tightly. */
  function ParseRight(tab: Table, op: BinOp, ts: Tokens): (r: Parsed<Expr>)
    ensures Len(r.rest) <= Len(ts)
    decreases Len(ts), 13
  {
    ParseBp(tab, ts, tab(op) + 1)
  }

  function ParsePrefix(tab: Table, ts: Tokens): (r: Parsed<Expr>)
    ensures Len(r.rest) <= Len(ts)
    decreases Len(ts), 11
  {
    match PrefixOf(Peek(ts))
    case Some(p) =>
      var r := ParsePrefix(tab, ts.tail);
      r.(v := Prefix(p, r.v))
    case None =>
      var r := ParsePrimary(tab, ts);
      ParsePostfix(tab, r.v, r.rest, r.errs)
  }

  function ParsePrimary(tab: Table, ts: Tokens): (r: Parsed<Expr>)
    ensures Len(r.rest) <= Len(ts)
    decreases Len(ts), 1
  {
    if Peek(ts) == LParen then ParseParen(tab, ts.tail)
    else if Peek(ts) == LBracket then ParseVector(tab, ts.tail)
    else ParseAtom(ts)
  }

  function ParseAtom(ts: Tokens): (r: Parsed<Expr>)
    ensures Len(r.rest) <= Len(ts)
  {
    match Peek(ts)
    case Lit(form, text) => Parsed(Literal(form, text), ts.tail, 0)
    case KwTrue => Parsed(Bool(true), ts.tail, 0)
    case KwFalse => Parsed(Bool(false), ts.tail, 0)
    case KwNil => Parsed(Nil, ts.tail, 0)
    case KwSelf => Parsed(Self, ts.tail, 0)
    case Ident(name) => Parsed(Name(name), ts.tail, 0)
    case Dot =>
      if Peek(ts.tail).Ident? then Parsed(LeadingDot(ts.tail.head.name), ts.tail.tail, 0)
      else Parsed(LeadingDot(""), ts.tail, 1)
    case _ => Parsed(Bad, Advance(ts), 1)
  }

  function ParseParen(tab: Table, ts: Tokens): (r: Parsed<Expr>)
    ensures Len(r.rest) <= Len(ts)
    decreases Len(ts), 15
  {
    var first := ParseBp(tab, ts, 0);
    if Peek(first.rest) == Comma then
      var l := ParseList(tab, first.rest.tail);
      Expect(RParen, Parsed(Tuple([first.v] + l.v), l.rest, first.errs + l.errs))
    else Expect(RParen, Parsed(Paren(first.v), first.rest, first.errs))
  }

  function ParseVector(tab: Table, ts: Tokens): (r: Parsed<Expr>)
    ensures Len(r.rest) <= Len(ts)
    decreases Len(ts), 15
  {
    var l := ParseListUnless(tab, ts, RBracket);
    Expect(RBracket, Parsed(Vector(l.v), l.rest, l.errs))
  }

  /** A call, a member, an index or an unwrap follows; `?` counts only before a dot. */
  predicate StartsSuffix(ts: Tokens) {
    var t := Peek(ts);
    t.LParen? || t.Dot? || t.LBracket? || t.Bang? || (t.Question? && Peek(ts.tail) == Dot)
  }

  /** The loop of `parse_postfix`. */
  function ParsePostfix(tab: Table, lhs: Expr, ts: Tokens, errs: nat): (r: Parsed<Expr>)
    ensures Len(r.rest) <= Len(ts) && errs <= r.errs
    decreases Len(ts), 10
  {
    if !StartsSuffix(ts) then Parsed(lhs, ts, errs)
    else
      var r := ParseSuffix(tab, lhs, ts, errs);
      ParsePostfix(tab, r.v, r.rest, r.errs)
  }

  function ParseSuffix(tab: Table, lhs: Expr, ts: Tokens, errs: nat): (r: Parsed<Expr>)
    requires StartsSuffix(ts)
    ensures Len(r.rest) < Len(ts) && errs <= r.errs
    decreases Len(ts), 2
  {
    var t := Peek(ts);
    if t == LParen then ParseCall(tab, lhs, ts.tail, errs)
    else if t == LBracket then ParseIndex(tab, lhs, ts.tail, errs)
    else if t == Dot then ParseMember(lhs, ts.tail, false, errs)
    else if t == Bang then Parsed(Unwrap(lhs), ts.tail, errs)
    else
      assert Len(ts.tail) == 1 + Len(ts.tail.tail);
      ParseMember(lhs, ts.tail.tail, true, errs)
  }

  function ParseCall(tab: Table, callee: Expr, ts: Tokens, errs: nat): (r: Parsed<Expr>)
    ensures Len(r.rest) <= Len(ts) && errs <= r.errs
    decreases Len(ts), 15
  {
    var l := if Peek(ts) == RParen then Parsed([], ts, 0) else ParseArgs(tab, ts);
    Expect(RParen, Parsed(Call(callee, l.v), l.rest, errs + l.errs))
  }

  function ParseIndex(tab: Table, base: Expr, ts: Tokens, errs: nat): (r: Parsed<Expr>)
    ensures Len(r.rest) <= Len(ts) && errs <= r.errs
    decreases Len(ts), 15
  {
    var l := ParseListUnless(tab, ts, RBracket);
    Expect(RBracket, Parsed(Index(base, l.v), l.rest, errs + l.errs))
  }

  function ParseMember(base: Expr, ts: Tokens, chain: bool, errs: nat): (r: Parsed<Expr>)
    ensures Len(r.rest) <= Len(ts) && errs <= r.errs
  {
    if IsMemberName(Peek(ts)) then Parsed(Member(base, ts.head, chain), ts.tail, errs)
    else Parsed(Member(base, Stop(""), chain), ts, errs + 1)
  }

  function ParseListUnless(tab: Table, ts: Tokens, close: Token): (r: Parsed<seq<Expr>>)
    ensures Len(r.rest) <= Len(ts)
    decreases Len(ts), 14
  {
    if Peek(ts) == close then Parsed([], ts, 0) else ParseList(tab, ts)
  }

  /** One or more expressions between commas. */
  function ParseList(tab: Table, ts: Tokens): (r: Parsed<seq<Expr>>)
    ensures Len(r.rest) <= Len(ts) && r.v != []
    decreases Len(ts), 13
  {
    var p := ParseBp(tab, ts, 0);
    if Peek(p.rest) != Comma then Parsed([p.v], p.rest, p.errs)
    else
      var l := ParseList(tab, p.rest.tail);
      Parsed([p.v] + l.v, l.rest, p.errs + l.errs)
  }

  /** One argument: an optional label, an optional `&`, a value. */
  function ParseArg(tab: Table, ts: Tokens): (r: Parsed<Arg>)
    ensures Len(r.rest) <= Len(ts)
    decreases Len(ts), 13
  {
    var labelled := Peek(ts).Ident? && Peek(ts.tail) == Colon;
    assert labelled ==> Len(ts.tail) == 1 + Len(ts.tail.tail);
    var ts1 := if labelled then ts.tail.tail else ts;
    var ts2 := if Peek(ts1) == Amp then ts1.tail else ts1;
    var p := ParseBp(tab, ts2, 0);
    Parsed(Arg(if labelled then Some(ts.head.name) else None, Peek(ts1) == Amp, p.v), p.rest, p.errs)
  }

  function ParseArgs(tab: Table, ts: Tokens): (r: Parsed<seq<Arg>>)
    ensures Len(r.rest) <= Len(ts) && r.v != []
    decreases Len(ts), 14
  {
    var a := ParseArg(tab, ts);
    if Peek(a.rest) != Comma then Parsed([a.v], a.rest, a.errs)
    else
      var l := ParseArgs(tab, a.rest.tail);
      Parsed([a.v] + l.v, l.rest, a.errs + l.errs)
  }
}
