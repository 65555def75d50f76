/** The parser as it runs: a cursor that moves over the token array, and loops that rebuild the
    tree in hand.  Each method is shown to compute the function of `Pratt` it stands for. */
module Parser {
  import opened Wrappers
  import opened Syntax
  import opened Pratt

  /** A lexer's output: Eof comes last and nowhere else. */
  ghost predicate EndsInEof(tokens: seq<Token>) {
    && tokens != [] && tokens[|tokens| - 1] == Eof
    && forall i :: 0 <= i < |tokens| - 1 ==> tokens[i] != Eof
  }

  ghost function From(tokens: seq<Token>, i: nat): (ts: Tokens)
    requires i < |tokens|
    ensures Len(ts) == |tokens| - 1 - i
    decreases |tokens| - i
  {
    if i == |tokens| - 1 then End(i) else Cons(tokens[i], From(tokens, i + 1))
  }

  // One turn of each loop, on values.

  lemma DotTurn(path: seq<string>, ts: Tokens)
    requires Peek(ts) == Dot
    ensures ParsePath(ts, path) == if Peek(ts.tail).Ident? then ParsePath(ts.tail.tail, path + [ts.tail.head.name])
      else Parsed(path, ts.tail, 1)
  {
  }

  lemma CastTurn(tab: Table, lhs: Expr, ts: Tokens, min: nat, errs: nat, t: Parsed<TypeExpr>,
      turn: Option<Parsed<Expr>>)
    requires turn == ParseOperator(tab, lhs, ts, min, errs)
    requires IsAs(Peek(ts)) && ParseType(ts.tail) == t
    ensures turn == Some(Parsed(Cast(lhs, t.v, ts.head == KwAsQuestion), t.rest, errs + t.errs))
  {
  }

  lemma BinaryTurn(tab: Table, lhs: Expr, op: BinOp, ts: Tokens, min: nat, errs: nat, rhs: Parsed<Expr>,
      turn: Option<Parsed<Expr>>)
    requires turn == ParseOperator(tab, lhs, ts, min, errs)
    requires InfixOf(Peek(ts)) == Some(op) && !IsAs(Peek(ts)) && tab(op) >= min
    requires ParseRight(tab, op, ts.tail) == rhs
    ensures turn == Some(Parsed(Binary(op, lhs, rhs.v), rhs.rest, errs + rhs.errs))
  {
  }

  lemma NoTurn(tab: Table, lhs: Expr, ts: Tokens, min: nat, errs: nat, turn: Option<Parsed<Expr>>)
    requires turn == ParseOperator(tab, lhs, ts, min, errs)
    requires !IsAs(Peek(ts)) && (InfixOf(Peek(ts)).None? || tab(InfixOf(Peek(ts)).value) < min)
    ensures turn == None
  {
  }

  lemma InfixTurn(tab: Table, p: Parsed<Expr>, min: nat, turn: Option<Parsed<Expr>>)
    requires ParseOperator(tab, p.v, p.rest, min, p.errs) == turn
    ensures ParseInfix(tab, p.v, p.rest, min, p.errs)
      == if turn.Some? then ParseInfix(tab, turn.value.v, turn.value.rest, min, turn.value.errs) else p
  {
  }

  lemma PrefixTurn(tab: Table, ts: Tokens, r: Parsed<Expr>, whole: Parsed<Expr>)
    requires whole == ParsePrefix(tab, ts)
    requires PrefixOf(Peek(ts)).Some? && ParsePrefix(tab, ts.tail) == r
    ensures whole == r.(v := Prefix(PrefixOf(Peek(ts)).value, r.v))
  {
  }

  lemma NoPrefixTurn(tab: Table, ts: Tokens, p: Parsed<Expr>, whole: Parsed<Expr>)
    requires whole == ParsePrefix(tab, ts)
    requires PrefixOf(Peek(ts)).None? && ParsePrimary(tab, ts) == p
    ensures whole == ParsePostfix(tab, p.v, p.rest, p.errs)
  {
  }

  predicate StartsMember(ts: Tokens) { Peek(ts) == Dot || (Peek(ts) == Question && Peek(ts.tail) == Dot) }

  function AfterDot(ts: Tokens): Tokens
    requires StartsMember(ts)
  {
    if Peek(ts) == Question then ts.tail.tail else ts.tail
  }

  lemma SuffixIsCall(tab: Table, lhs: Expr, ts: Tokens, errs: nat, r: Parsed<Expr>)
    requires Peek(ts) == LParen && r == ParseSuffix(tab, lhs, ts, errs)
    ensures r == ParseCall(tab, lhs, ts.tail, errs)
  {
  }

  lemma SuffixIsIndex(tab: Table, lhs: Expr, ts: Tokens, errs: nat, r: Parsed<Expr>)
    requires Peek(ts) == LBracket && r == ParseSuffix(tab, lhs, ts, errs)
    ensures r == ParseIndex(tab, lhs, ts.tail, errs)
  {
  }

  lemma SuffixIsUnwrap(tab: Table, lhs: Expr, ts: Tokens, errs: nat, r: Parsed<Expr>)
    requires Peek(ts) == Bang && r == ParseSuffix(tab, lhs, ts, errs)
    ensures r == Parsed(Unwrap(lhs), ts.tail, errs)
  {
  }

  lemma SuffixIsMember(tab: Table, lhs: Expr, ts: Tokens, errs: nat, r: Parsed<Expr>)
    requires StartsMember(ts) && r == ParseSuffix(tab, lhs, ts, errs)
    ensures r == ParseMember(lhs, AfterDot(ts), Peek(ts) == Question, errs)
  {
  }

  lemma SuffixTurn(tab: Table, p: Parsed<Expr>, r: Parsed<Expr>, whole: Parsed<Expr>)
    requires whole == ParsePostfix(tab, p.v, p.rest, p.errs)
    requires StartsSuffix(p.rest) && ParseSuffix(tab, p.v, p.rest, p.errs) == r
    ensures whole == ParsePostfix(tab, r.v, r.rest, r.errs)
  {
  }

  /** A list of elements, the last just read, and what may follow it. */
  ghost function MoreOfList(tab: Table, acc: seq<Expr>, ts: Tokens, errs: nat): Parsed<seq<Expr>> {
    if Peek(ts) != Comma then Parsed(acc, ts, errs)
    else
      var l := ParseList(tab, ts.tail);
      Parsed(acc + l.v, l.rest, errs + l.errs)
  }

  lemma ListTurn(tab: Table, acc: seq<Expr>, ts: Tokens, errs: nat, x: Parsed<Expr>)
    requires Peek(ts) == Comma && ParseBp(tab, ts.tail, 0) == x
    ensures MoreOfList(tab, acc, ts, errs) == MoreOfList(tab, acc + [x.v], x.rest, errs + x.errs)
  {
    if Peek(x.rest) == Comma {
      var l := ParseList(tab, x.rest.tail);
      assert acc + ([x.v] + l.v) == (acc + [x.v]) + l.v;
    }
  }

  ghost function MoreOfArgs(tab: Table, acc: seq<Arg>, ts: Tokens, errs: nat): Parsed<seq<Arg>> {
    if Peek(ts) != Comma then Parsed(acc, ts, errs)
    else
      var l := ParseArgs(tab, ts.tail);
      Parsed(acc + l.v, l.rest, errs + l.errs)
  }

  lemma ArgsTurn(tab: Table, acc: seq<Arg>, ts: Tokens, errs: nat, x: Parsed<Arg>)
    requires Peek(ts) == Comma && ParseArg(tab, ts.tail) == x
    ensures MoreOfArgs(tab, acc, ts, errs) == MoreOfArgs(tab, acc + [x.v], x.rest, errs + x.errs)
  {
    if Peek(x.rest) == Comma {
      var l := ParseArgs(tab, x.rest.tail);
      assert acc + ([x.v] + l.v) == (acc + [x.v]) + l.v;
    }
  }

  class Parser {
    const tab: Table  // the binding powers, `infix_bp`
    const tokens: seq<Token>
    var pos: nat
    var errors: nat

    ghost var left: Tokens  // what is still to be read

    ghost predicate Valid()
      reads this
    {
      EndsInEof(tokens) && pos < |tokens| && left == From(tokens, pos)
    }

    constructor (tab: Table, tokens: seq<Token>)
      requires EndsInEof(tokens)
      ensures Valid() && this.tab == tab && this.tokens == tokens
      ensures left == From(tokens, 0) && errors == 0
    {
      this.tab := tab;
      this.tokens := tokens;
      pos := 0;
      errors := 0;
      left := From(tokens, 0);
    }

    // ------------------------------------------------------------- cursor

    function PeekAt(ahead: nat): (t: Token)
      requires Valid()
      reads this
      ensures ahead == 0 ==> t == Peek(left)
      ensures ahead == 1 && left.Cons? ==> t == Peek(left.tail)
    {
      assert left.Cons? ==> left.tail == From(tokens, pos + 1);
      if pos + ahead >= |tokens| then tokens[|tokens| - 1] else tokens[pos + ahead]
    }

    method Advance() returns (t: Token)
      requires Valid()
      modifies `pos, `left
      ensures Valid() && t == Peek(old(left)) && left == Syntax.Advance(old(left))
      ensures old(left).Cons? ==> left == old(left).tail
    {
      t := tokens[pos];
      if pos + 1 < |tokens| {
        pos := pos + 1;
        left := left.tail;
      }
    }

    method Match(t: Token) returns (matched: bool)
      requires Valid() && t != Eof
      modifies `pos, `left
      ensures Valid() && matched == (Peek(old(left)) == t)
      ensures left == if matched then old(left).tail else old(left)
    {
      matched := PeekAt(0) == t;
      if matched { var _ := Advance(); }
    }

    method Expect(t: Token)
      requires Valid() && t != Eof
      modifies this
      ensures Valid() && errors == old(errors) + (if Peek(old(left)) == t then 0 else 1)
      ensures left == if Peek(old(left)) == t then old(left).tail else old(left)
    {
      var matched := Match(t);
      if !matched { errors := errors + 1; }
    }

    // -------------------------------------------------------------- types

    method ParseType() returns (t: TypeExpr)
      requires Valid()
      modifies this
      ensures Valid() && errors >= old(errors)
      ensures Parsed(t, left, errors - old(errors)) == Pratt.ParseType(old(left))
    {
      if !IsTypeHead(PeekAt(0)) {
        errors := errors + 1;
        return BadType;
      }
      var head := Advance();
      var path := ParsePath([]);
      t := Named(head, path);
      if PeekAt(0) == LBracket {
        errors := errors + 1;
        return;
      }
      ghost var whole := ParseOptional(t, left, errors - old(errors));
      while true
        invariant Valid() && errors >= old(errors)
        invariant ParseOptional(t, left, errors - old(errors)) == whole
        decreases Len(left)
      {
        var question := Match(Question);
        if !question { break; }
        t := Optional(t);
      }
    }

    method ParsePath(first: seq<string>) returns (path: seq<string>)
      requires Valid()
      modifies this
      ensures Valid() && errors >= old(errors)
      ensures Parsed(path, left, errors - old(errors)) == Pratt.ParsePath(old(left), first)
    {
      path := first;
      ghost var whole := Pratt.ParsePath(left, path);
      while true
        invariant Valid() && errors == old(errors)
        invariant Pratt.ParsePath(left, path) == whole
        decreases Len(left)
      {
        ghost var ts := left;
        var dot := Match(Dot);
        if !dot { break; }
        DotTurn(path, ts);
        if !PeekAt(0).Ident? {
          errors := errors + 1;
          break;
        }
        var part := Advance();
        path := path + [part.name];
      }
    }

    // -------------------------------------------------------- expressions

    method ParseExprBp(min: nat) returns (lhs: Expr)
      requires Valid()
      modifies this
      ensures Valid() && errors >= old(errors)
      ensures Parsed(lhs, left, errors - old(errors)) == ParseBp(tab, old(left), min)
      decreases Len(left), 12
    {
      lhs := ParsePrefix();
      ghost var whole := ParseInfix(tab, lhs, left, min, errors - old(errors));
      lhs := ParseOperators(lhs, min, old(errors), whole);
    }

    /** The operator loop. */
    method ParseOperators(first: Expr, min: nat, ghost base: nat, ghost whole: Parsed<Expr>) returns (lhs: Expr)
      requires Valid() && base <= errors && whole == ParseInfix(tab, first, left, min, errors - base)
      modifies this
      ensures Valid() && errors >= old(errors)
      ensures Parsed(lhs, left, errors - base) == whole
      decreases Len(left), 4, 2
    {
      lhs := first;
      ghost var now := Parsed(lhs, left, errors - base);
      var more := true;
      while more
        invariant Valid() && errors >= old(errors)
        invariant now == Parsed(lhs, left, errors - base) && Len(left) <= Len(old(left))
        invariant whole == if more then ParseInfix(tab, now.v, now.rest, min, now.errs) else now
        decreases Len(left), more
      {
        ghost var before := now;
        ghost var turn := Pratt.ParseOperator(tab, now.v, now.rest, min, now.errs);
        lhs, more := ParseOperator(lhs, min, base, turn);
        now := Parsed(lhs, left, errors - base);
        InfixTurn(tab, before, min, if more then Some(now) else None);
      }
    }

    /** One turn of the operator loop. */
    method ParseOperator(lhs: Expr, min: nat, ghost base: nat, ghost turn: Option<Parsed<Expr>>)
        returns (e: Expr, more: bool)
      requires Valid() && base <= errors && turn == Pratt.ParseOperator(tab, lhs, left, min, errors - base)
      modifies this
      ensures Valid() && errors >= old(errors)
      ensures more ==> Len(left) < Len(old(left))
      ensures turn == if more then Some(Parsed(e, left, errors - base)) else None
      ensures !more ==> e == lhs && left == old(left) && errors == old(errors)
      decreases Len(left), 4, 1
    {
      if IsAs(PeekAt(0)) {
        e := ParseCast(lhs, min, base, turn);
        return e, true;
      }
      var op := InfixOf(PeekAt(0));
      if op.None? || tab(op.value) < min {
        NoTurn(tab, lhs, left, min, errors - base, turn);
        return lhs, false;
      }
      e := ParseBinary(lhs, op.value, min, base, turn);
      return e, true;
    }

    method ParseBinary(lhs: Expr, op: BinOp, ghost min: nat, ghost base: nat, ghost turn: Option<Parsed<Expr>>)
        returns (e: Expr)
      requires Valid() && base <= errors && turn == Pratt.ParseOperator(tab, lhs, left, min, errors - base)
      requires InfixOf(Peek(left)) == Some(op) && !IsAs(Peek(left)) && tab(op) >= min
      modifies this
      ensures Valid() && errors >= old(errors) && Len(left) < Len(old(left))
      ensures turn == Some(Parsed(e, left, errors - base))
      decreases Len(left), 4, 0
    {
      ghost var ts, before := left, errors;
      var rhs := ParseRight(op);
      BinaryTurn(tab, lhs, op, ts, min, before - base, Parsed(rhs, left, errors - before), turn);
      return Binary(op, lhs, rhs);
    }

    method ParseRight(op: BinOp) returns (rhs: Expr)
      requires Valid() && InfixOf(Peek(left)) == Some(op)
      modifies this
      ensures Valid() && errors >= old(errors) && Len(left) < Len(old(left))
      ensures Parsed(rhs, left, errors - old(errors)) == Pratt.ParseRight(tab, op, old(left).tail)
      decreases Len(left), 3
    {
      var _ := Advance();
      rhs := ParseExprBp(tab(op) + 1);
    }

    method ParseCast(lhs: Expr, min: nat, ghost base: nat, ghost turn: Option<Parsed<Expr>>) returns (e: Expr)
      requires Valid() && base <= errors && IsAs(Peek(left))
      requires turn == Pratt.ParseOperator(tab, lhs, left, min, errors - base)
      modifies this
      ensures Valid() && errors >= old(errors) && Len(left) < Len(old(left))
      ensures turn == Some(Parsed(e, left, errors - base))
    {
      ghost var ts, before := left, errors;
      var word := Advance();
      var target := ParseType();
      CastTurn(tab, lhs, ts, min, before - base, Parsed(target, left, errors - before), turn);
      e := Cast(lhs, target, word == KwAsQuestion);
    }

    method ParsePrefix() returns (e: Expr)
      requires Valid()
      modifies this
      ensures Valid() && errors >= old(errors)
      ensures Parsed(e, left, errors - old(errors)) == Pratt.ParsePrefix(tab, old(left))
      decreases Len(left), 11
    {
      ghost var whole := Pratt.ParsePrefix(tab, left);
      var op := PrefixOf(PeekAt(0));
      if op.Some? {
        var _ := Advance();
        var operand := ParsePrefix();
        PrefixTurn(tab, old(left), Parsed(operand, left, errors - old(errors)), whole);
        return Prefix(op.value, operand);
      }
      var primary := ParsePrimary();
      NoPrefixTurn(tab, old(left), Parsed(primary, left, errors - old(errors)), whole);
      e := ParsePostfix(primary, old(errors), whole);
    }

    method ParsePrimary() returns (e: Expr)
      requires Valid()
      modifies this
      ensures Valid() && errors >= old(errors)
      ensures Parsed(e, left, errors - old(errors)) == Pratt.ParsePrimary(tab, old(left))
      decreases Len(left), 1
    {
      match PeekAt(0)
      case LParen =>
        var _ := Advance();
        e := ParseParen();
      case LBracket =>
        var _ := Advance();
        e := ParseVector();
      case _ =>
        e := ParseAtom();
    }

    method ParseAtom() returns (e: Expr)
      requires Valid()
      modifies this
      ensures Valid() && errors >= old(errors)
      ensures Parsed(e, left, errors - old(errors)) == Pratt.ParseAtom(old(left))
    {
      var t := Advance();
      match t
      case Lit(form, text) => e := Literal(form, text);
      case KwTrue => e := Bool(true);
      case KwFalse => e := Bool(false);
      case KwNil => e := Nil;
      case KwSelf => e := Self;
      case Ident(name) => e := Name(name);
      case Dot =>
        if PeekAt(0).Ident? {
          var member := Advance();
          e := LeadingDot(member.name);
        } else {
          errors := errors + 1;
          e := LeadingDot("");
        }
      case _ =>
        errors := errors + 1;
        e := Bad;
    }

    /** After the opening parenthesis: a group, or a tuple once a comma follows. */
    method ParseParen() returns (e: Expr)
      requires Valid()
      modifies this
      ensures Valid() && errors >= old(errors)
      ensures Parsed(e, left, errors - old(errors)) == Pratt.ParseParen(tab, old(left))
      decreases Len(left), 15
    {
      var first := ParseExprBp(0);
      var comma := Match(Comma);
      if comma {
        var others := ParseList();
        Expect(RParen);
        return Tuple([first] + others);
      }
      Expect(RParen);
      e := Paren(first);
    }

    method ParseVector() returns (e: Expr)
      requires Valid()
      modifies this
      ensures Valid() && errors >= old(errors)
      ensures Parsed(e, left, errors - old(errors)) == Pratt.ParseVector(tab, old(left))
      decreases Len(left), 15
    {
      var elements := [];
      if PeekAt(0) != RBracket { elements := ParseList(); }
      Expect(RBracket);
      e := Vector(elements);
    }

    method ParseList() returns (es: seq<Expr>)
      requires Valid()
      modifies this
      ensures Valid() && errors >= old(errors)
      ensures Parsed(es, left, errors - old(errors)) == Pratt.ParseList(tab, old(left))
      decreases Len(left), 13
    {
      var x := ParseExprBp(0);
      es := [x];
      while true
        invariant Valid() && errors >= old(errors) && Len(left) <= Len(old(left))
        invariant MoreOfList(tab, es, left, errors - old(errors)) == Pratt.ParseList(tab, old(left))
        decreases Len(left)
      {
        ghost var ts, before := left, errors;
        var comma := Match(Comma);
        if !comma { break; }
        x := ParseExprBp(0);
        ListTurn(tab, es, ts, before - old(errors), Parsed(x, left, errors - before));
        es := es + [x];
      }
    }

    // `base` is the error count when the primary began, and `whole` what remains to be computed.

    /** The suffix loop. */
    method ParsePostfix(primary: Expr, ghost base: nat, ghost whole: Parsed<Expr>) returns (lhs: Expr)
      requires Valid() && base <= errors
      requires whole == Pratt.ParsePostfix(tab, primary, left, errors - base)
      modifies this
      ensures Valid() && errors >= old(errors)
      ensures whole == Parsed(lhs, left, errors - base)
      decreases Len(left), 10
    {
      lhs := primary;
      ghost var now := Parsed(lhs, left, errors - base);
      while AtSuffix()
        invariant Valid() && errors >= old(errors)
        invariant now == Parsed(lhs, left, errors - base)
        invariant whole == Pratt.ParsePostfix(tab, now.v, now.rest, now.errs)
        decreases Len(now.rest)
      {
        ghost var turn := Pratt.ParseSuffix(tab, now.v, now.rest, now.errs);
        SuffixTurn(tab, now, turn, whole);
        lhs := ParseSuffix(lhs, base, turn);
        now := Parsed(lhs, left, errors - base);
      }
      assert whole == now;
    }

    function AtSuffix(): (r: bool)
      requires Valid()
      reads this
      ensures r == StartsSuffix(left)
    {
      var t := PeekAt(0);
      t == LParen || t == Dot || t == LBracket || t == Bang || (t == Question && PeekAt(1) == Dot)
    }

    method ParseSuffix(lhs: Expr, ghost base: nat, ghost whole: Parsed<Expr>) returns (e: Expr)
      requires Valid() && base <= errors && StartsSuffix(left)
      requires whole == Pratt.ParseSuffix(tab, lhs, left, errors - base)
      modifies this
      ensures Valid() && errors >= old(errors)
      ensures whole == Parsed(e, left, errors - base)
      decreases Len(left), 2
    {
      if PeekAt(0) == LParen {
        e := ParseCall(lhs, base, whole);
      } else if PeekAt(0) == LBracket {
        e := ParseIndex(lhs, base, whole);
      } else {
        e := ParseMemberOrUnwrap(lhs, base, whole);
      }
    }

    method ParseMemberOrUnwrap(lhs: Expr, ghost base: nat, ghost whole: Parsed<Expr>) returns (e: Expr)
      requires Valid() && base <= errors && StartsSuffix(left) && Peek(left) != LParen && Peek(left) != LBracket
      requires whole == Pratt.ParseSuffix(tab, lhs, left, errors - base)
      modifies this
      ensures Valid() && errors >= old(errors)
      ensures whole == Parsed(e, left, errors - base)
    {
      if PeekAt(0) == Bang {
        SuffixIsUnwrap(tab, lhs, left, errors - base, whole);
        e := ParseUnwrap(lhs);
      } else {
        SuffixIsMember(tab, lhs, left, errors - base, whole);
        e := ParseMember(lhs, base, whole);
      }
    }

    method ParseUnwrap(operand: Expr) returns (e: Expr)
      requires Valid() && Peek(left) == Bang
      modifies `pos, `left
      ensures Valid() && e == Unwrap(operand) && left == old(left).tail
    {
      e := Unwrap(operand);
      var _ := Advance();
    }

    method ParseCall(callee: Expr, ghost base: nat, ghost whole: Parsed<Expr>) returns (e: Expr)
      requires Valid() && base <= errors && Peek(left) == LParen
      requires whole == Pratt.ParseSuffix(tab, callee, left, errors - base)
      modifies this
      ensures Valid() && errors >= old(errors)
      ensures whole == Parsed(e, left, errors - base)
      decreases Len(left), 1
    {
      SuffixIsCall(tab, callee, left, errors - base, whole);
      var _ := Advance();
      var args := [];
      if PeekAt(0) != RParen { args := ParseArgs(); }
      Expect(RParen);
      e := Call(callee, args);
    }

    method ParseArgs() returns (args: seq<Arg>)
      requires Valid()
      modifies this
      ensures Valid() && errors >= old(errors)
      ensures Parsed(args, left, errors - old(errors)) == Pratt.ParseArgs(tab, old(left))
      decreases Len(left), 14
    {
      var a := ParseArg();
      args := [a];
      while true
        invariant Valid() && errors >= old(errors) && Len(left) <= Len(old(left))
        invariant MoreOfArgs(tab, args, left, errors - old(errors)) == Pratt.ParseArgs(tab, old(left))
        decreases Len(left)
      {
        ghost var ts, before := left, errors;
        var comma := Match(Comma);
        if !comma { break; }
        a := ParseArg();
        ArgsTurn(tab, args, ts, before - old(errors), Parsed(a, left, errors - before));
        args := args + [a];
      }
    }

    method ParseArg() returns (a: Arg)
      requires Valid()
      modifies this
      ensures Valid() && errors >= old(errors)
      ensures Parsed(a, left, errors - old(errors)) == Pratt.ParseArg(tab, old(left))
      decreases Len(left), 13
    {
      var tag := None;
      if PeekAt(0).Ident? && PeekAt(1) == Colon {
        var name := Advance();
        tag := Some(name.name);
        var _ := Advance();
      }
      var isInout := Match(Amp);
      var value := ParseExprBp(0);
      a := Arg(tag, isInout, value);
    }

    method ParseMember(receiver: Expr, ghost base: nat, ghost whole: Parsed<Expr>) returns (e: Expr)
      requires Valid() && base <= errors && StartsMember(left)
      requires whole == Pratt.ParseMember(receiver, AfterDot(left), Peek(left) == Question, errors - base)
      modifies this
      ensures Valid() && errors >= old(errors)
      ensures whole == Parsed(e, left, errors - base)
    {
      var chain := Match(Question);
      var _ := Advance();
      if IsMemberName(PeekAt(0)) {
        var field := Advance();
        return Member(receiver, field, chain);
      }
      errors := errors + 1;
      e := Member(receiver, Stop(""), chain);
    }

    method ParseIndex(receiver: Expr, ghost base: nat, ghost whole: Parsed<Expr>) returns (e: Expr)
      requires Valid() && base <= errors && Peek(left) == LBracket
      requires whole == Pratt.ParseSuffix(tab, receiver, left, errors - base)
      modifies this
      ensures Valid() && errors >= old(errors)
      ensures whole == Parsed(e, left, errors - base)
      decreases Len(left), 1
    {
      SuffixIsIndex(tab, receiver, left, errors - base, whole);
      var _ := Advance();
      var indices := [];
      if PeekAt(0) != RBracket { indices := ParseList(); }
      Expect(RBracket);
      e := Index(receiver, indices);
    }
  }
}
