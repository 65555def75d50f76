/** What the parser accepts: a tree it returns without an error is precedence-normal, and
    spelling it in front of the tokens left gives back the tokens read. */
module PrattSound {
  import opened Wrappers
  import opened Syntax
  import opened Pratt

  /** The token does not continue an expression parsed at `min`. */
  predicate Stops(tab: Table, t: Token, min: nat) {
    !IsAs(t) && (InfixOf(t).Some? ==> tab(InfixOf(t).value) < min)
  }

  lemma PrefixedNormal(tab: Table, e: Expr, min: nat)
    requires IsPrefixed(tab, e)
    ensures !e.Binary? && IsCast(tab, e) && Normal(tab, e, min)
  {
    assert !e.Binary? && !e.Cast? by {
      if !e.Prefix? { assert IsPostfix(tab, e); }
    }
    assert IsCast(tab, e);
  }

  lemma CastNormal(tab: Table, e: Expr, min: nat)
    requires IsCast(tab, e)
    ensures !e.Binary? && Normal(tab, e, min)
  {
    if !e.Cast? { PrefixedNormal(tab, e, min); }
  }

  // --------------------------------------------------------------- types

  lemma {:induction false} SpellDotsAppend(path: seq<string>, name: string, rest: Tokens)
    ensures SpellDots(path + [name], rest) == SpellDots(path, Cons(Dot, Cons(Ident(name), rest)))
  {
    if path == [] {
      assert [name][1..] == [];
    } else {
      assert (path + [name])[1..] == path[1..] + [name];
      SpellDotsAppend(path[1..], name, rest);
    }
  }

  lemma {:induction false} PathSound(ts0: Tokens, ts: Tokens, path: seq<string>)
    requires ts0 == SpellDots(path, ts)
    ensures var r := ParsePath(ts, path); r.errs == 0 ==> ts0 == SpellDots(r.v, r.rest)
    decreases Len(ts)
  {
    if Peek(ts) == Dot && Peek(ts.tail).Ident? {
      var name := ts.tail.head.name;
      SpellDotsAppend(path, name, ts.tail.tail);
      assert Len(ts.tail) == 1 + Len(ts.tail.tail);
      PathSound(ts0, ts.tail.tail, path + [name]);
    }
  }

  lemma {:induction false} OptionalSound(ts0: Tokens, t: TypeExpr, ts: Tokens)
    requires IsPath(t) && ts0 == SpellType(t, ts)
    ensures var r := ParseOptional(t, ts, 0);
      IsPath(r.v) && ts0 == SpellType(r.v, r.rest)
    decreases Len(ts)
  {
    if Peek(ts) == Question { OptionalSound(ts0, Optional(t), ts.tail); }
  }

  lemma TypeSound(ts: Tokens)
    ensures var r := ParseType(ts);
      r.errs == 0 ==> IsPath(r.v) && ts == SpellType(r.v, r.rest)
  {
    if IsTypeHead(Peek(ts)) {
      PathSound(ts.tail, ts.tail, []);
      var p := ParsePath(ts.tail, []);
      if Peek(p.rest) != LBracket && p.errs == 0 { OptionalSound(ts, Named(ts.head, p.v), p.rest); }
    }
  }

  // --------------------------------------------------------- expressions

  predicate Sound(tab: Table, ts: Tokens, r: Parsed<Expr>, min: nat) {
    r.errs == 0 ==> Normal(tab, r.v, min) && ts == Spell(r.v, r.rest) && Stops(tab, Peek(r.rest), min)
  }

  predicate SoundPrefix(tab: Table, ts: Tokens, r: Parsed<Expr>) {
    r.errs == 0 ==> IsPrefixed(tab, r.v) && ts == Spell(r.v, r.rest)
  }

  predicate SoundPostfix(tab: Table, ts: Tokens, r: Parsed<Expr>) {
    r.errs == 0 ==> IsPostfix(tab, r.v) && ts == Spell(r.v, r.rest)
  }

  predicate SoundList(tab: Table, ts: Tokens, r: Parsed<seq<Expr>>) {
    r.errs == 0 ==> (forall x | x in r.v :: Normal(tab, x, 0)) && ts == SpellList(r.v, r.rest)
  }

  predicate SoundArg(tab: Table, ts: Tokens, r: Parsed<Arg>) {
    r.errs == 0 ==> NormalArg(tab, r.v) && ts == SpellArg(r.v, r.rest)
  }

  predicate SoundArgs(tab: Table, ts: Tokens, r: Parsed<seq<Arg>>) {
    r.errs == 0 ==> (forall x | x in r.v :: NormalArg(tab, x)) && ts == SpellArgs(r.v, r.rest)
  }

  lemma {:induction false} BpSound(tab: Table, ts: Tokens, min: nat)
    ensures Sound(tab, ts, ParseBp(tab, ts, min), min)
    decreases Len(ts), 6
  {
    PrefixSound(tab, ts);
    var p := ParsePrefix(tab, ts);
    if p.errs == 0 {
      PrefixedNormal(tab, p.v, min);
      InfixSound(tab, ts, p.v, p.rest, min);
    }
  }

  /** The loop extends a normal tree that the next token may extend. */
  lemma {:induction false} InfixSound(tab: Table, ts0: Tokens, lhs: Expr, ts: Tokens, min: nat)
    requires Extends(tab, ts0, lhs, ts, min)
    ensures Sound(tab, ts0, ParseInfix(tab, lhs, ts, min, 0), min)
    decreases Len(ts), 5
  {
    var turn := ParseOperator(tab, lhs, ts, min, 0);
    OperatorSound(tab, ts0, lhs, ts, min, turn);
    if turn.Some? && turn.value.errs == 0 { InfixSound(tab, ts0, turn.value.v, turn.value.rest, min); }
  }

  /** A turn either ends the loop, or extends the tree in hand. */
  lemma {:induction false} OperatorSound(tab: Table, ts0: Tokens, lhs: Expr, ts: Tokens, min: nat, r: Option<Parsed<Expr>>)
    requires Extends(tab, ts0, lhs, ts, min) && r == ParseOperator(tab, lhs, ts, min, 0)
    ensures if r.None? then Stops(tab, Peek(ts), min)
      else r.value.errs == 0 ==> Extends(tab, ts0, r.value.v, r.value.rest, min)
    decreases Len(ts), 4
  {
    if IsAs(Peek(ts)) {
      var t := ParseType(ts.tail);
      TypeSound(ts.tail);
      CastExtends(tab, ts0, lhs, ts, min, t);
      assert r == Some(Parsed(Cast(lhs, t.v, ts.head == KwAsQuestion), t.rest, t.errs));
    } else if InfixOf(Peek(ts)).Some? && tab(InfixOf(Peek(ts)).value) >= min {
      var op := InfixOf(Peek(ts)).value;
      var rhs := ParseRight(tab, op, ts.tail);
      BpSound(tab, ts.tail, tab(op) + 1);
      BinaryExtends(tab, ts0, lhs, op, ts, min, rhs);
      assert r == Some(Parsed(Binary(op, lhs, rhs.v), rhs.rest, rhs.errs));
    }
  }

  lemma CastExtends(tab: Table, ts0: Tokens, lhs: Expr, ts: Tokens, min: nat, t: Parsed<TypeExpr>)
    requires Extends(tab, ts0, lhs, ts, min) && IsAs(Peek(ts))
    requires t.errs == 0 ==> IsPath(t.v) && ts.tail == SpellType(t.v, t.rest)
    ensures t.errs == 0 ==> Extends(tab, ts0, Cast(lhs, t.v, ts.head == KwAsQuestion), t.rest, min)
  {
    if t.errs == 0 {
      assert !lhs.Binary?;
      assert IsCast(tab, Cast(lhs, t.v, ts.head == KwAsQuestion));
    }
  }

  lemma BinaryExtends(tab: Table, ts0: Tokens, lhs: Expr, op: BinOp, ts: Tokens, min: nat, rhs: Parsed<Expr>)
    requires Extends(tab, ts0, lhs, ts, min)
    requires InfixOf(Peek(ts)) == Some(op) && tab(op) >= min && Sound(tab, ts.tail, rhs, tab(op) + 1)
    ensures rhs.errs == 0 ==> Extends(tab, ts0, Binary(op, lhs, rhs.v), rhs.rest, min)
  {
  }

  /** `lhs` is a normal tree for the tokens read so far, which the loop may extend. */
  predicate Extends(tab: Table, ts0: Tokens, lhs: Expr, ts: Tokens, min: nat) {
    && Normal(tab, lhs, min) && ts0 == Spell(lhs, ts)
    && (lhs.Binary? ==> Stops(tab, Peek(ts), tab(lhs.op) + 1))
  }

  lemma {:induction false} PrefixSound(tab: Table, ts: Tokens)
    ensures SoundPrefix(tab, ts, ParsePrefix(tab, ts))
    decreases Len(ts), 4
  {
    if PrefixOf(Peek(ts)).Some? {
      PrefixSound(tab, ts.tail);
      PrefixClosed(tab, ts, ParsePrefix(tab, ts.tail));
    } else {
      PrimarySound(tab, ts);
      RestSound(tab, ts, ParsePrimary(tab, ts));
    }
  }

  lemma PrefixClosed(tab: Table, ts: Tokens, r: Parsed<Expr>)
    requires PrefixOf(Peek(ts)).Some? && SoundPrefix(tab, ts.tail, r)
    ensures SoundPrefix(tab, ts, r.(v := Prefix(PrefixOf(Peek(ts)).value, r.v)))
  {
    PrefixTokenOf(Peek(ts));
  }

  lemma {:induction false} RestSound(tab: Table, ts0: Tokens, r: Parsed<Expr>)
    requires SoundPostfix(tab, ts0, r)
    ensures SoundPostfix(tab, ts0, ParsePostfix(tab, r.v, r.rest, r.errs))
    decreases Len(r.rest), 3
  {
    if r.errs == 0 && StartsSuffix(r.rest) {
      SuffixSound(tab, ts0, r.v, r.rest);
      RestSound(tab, ts0, ParseSuffix(tab, r.v, r.rest, 0));
    }
  }

  lemma {:induction false} PrimarySound(tab: Table, ts: Tokens)
    ensures SoundPostfix(tab, ts, ParsePrimary(tab, ts))
    decreases Len(ts), 1
  {
    if Peek(ts).LParen? {
      ParenSound(tab, ts);
    } else if Peek(ts).LBracket? {
      VectorSound(tab, ts);
    } else {
      AtomSound(tab, ts);
    }
  }

  lemma AtomSound(tab: Table, ts: Tokens)
    requires !Peek(ts).LParen? && !Peek(ts).LBracket?
    ensures SoundPostfix(tab, ts, ParseAtom(ts))
  {
  }

  lemma {:induction false} ParenSound(tab: Table, ts: Tokens)
    requires Peek(ts) == LParen
    ensures SoundPostfix(tab, ts, ParseParen(tab, ts.tail))
    decreases Len(ts), 0
  {
    BpSound(tab, ts.tail, 0);
    var first := ParseBp(tab, ts.tail, 0);
    if Peek(first.rest) == Comma {
      ListSound(tab, first.rest.tail);
      TupleSound(tab, ts, first, ParseList(tab, first.rest.tail));
    } else {
      GroupSound(tab, ts, first);
    }
  }

  lemma GroupSound(tab: Table, ts: Tokens, p: Parsed<Expr>)
    requires Peek(ts) == LParen && Sound(tab, ts.tail, p, 0)
    ensures SoundPostfix(tab, ts, Expect(RParen, Parsed(Paren(p.v), p.rest, p.errs)))
  {
    if p.errs == 0 { assert IsPrimary(tab, Paren(p.v)); }
  }

  lemma TupleSound(tab: Table, ts: Tokens, p: Parsed<Expr>, l: Parsed<seq<Expr>>)
    requires Peek(ts) == LParen && Sound(tab, ts.tail, p, 0)
    requires Peek(p.rest) == Comma && SoundList(tab, p.rest.tail, l) && l.v != []
    ensures SoundPostfix(tab, ts, Expect(RParen, Parsed(Tuple([p.v] + l.v), l.rest, p.errs + l.errs)))
  {
    assert ([p.v] + l.v)[1..] == l.v;
    if p.errs == 0 && l.errs == 0 { assert IsPrimary(tab, Tuple([p.v] + l.v)); }
  }

  lemma {:induction false} VectorSound(tab: Table, ts: Tokens)
    requires Peek(ts) == LBracket
    ensures SoundPostfix(tab, ts, ParseVector(tab, ts.tail))
    decreases Len(ts), 0
  {
    ListUnlessSound(tab, ts.tail);
    VectorClosed(tab, ts, ParseListUnless(tab, ts.tail, RBracket));
  }

  lemma VectorClosed(tab: Table, ts: Tokens, l: Parsed<seq<Expr>>)
    requires Peek(ts) == LBracket && SoundList(tab, ts.tail, l)
    ensures SoundPostfix(tab, ts, Expect(RBracket, Parsed(Vector(l.v), l.rest, l.errs)))
  {
    if l.errs == 0 { assert IsPrimary(tab, Vector(l.v)); }
  }

  lemma {:induction false} SuffixSound(tab: Table, ts0: Tokens, lhs: Expr, ts: Tokens)
    requires StartsSuffix(ts) && IsPostfix(tab, lhs) && ts0 == Spell(lhs, ts)
    ensures SoundPostfix(tab, ts0, ParseSuffix(tab, lhs, ts, 0))
    decreases Len(ts), 2
  {
    if Peek(ts).LParen? {
      CallSound(tab, ts0, lhs, ts);
    } else if Peek(ts).LBracket? {
      IndexSound(tab, ts0, lhs, ts);
    } else if Peek(ts).Dot? {
      MemberClosed(tab, ts0, lhs, ts.tail, false);
    } else if Peek(ts).Bang? {
      UnwrapClosed(tab, ts0, lhs, ts);
    } else {
      MemberClosed(tab, ts0, lhs, ts.tail.tail, true);
    }
  }

  lemma UnwrapClosed(tab: Table, ts0: Tokens, lhs: Expr, ts: Tokens)
    requires Peek(ts) == Bang && IsPostfix(tab, lhs) && ts0 == Spell(lhs, ts)
    ensures SoundPostfix(tab, ts0, Parsed(Unwrap(lhs), ts.tail, 0))
  {
  }

  lemma {:induction false} CallSound(tab: Table, ts0: Tokens, lhs: Expr, ts: Tokens)
    requires Peek(ts) == LParen && IsPostfix(tab, lhs) && ts0 == Spell(lhs, ts)
    ensures SoundPostfix(tab, ts0, ParseCall(tab, lhs, ts.tail, 0))
    decreases Len(ts), 1
  {
    if Peek(ts.tail) == RParen {
      CallClosed(tab, ts0, lhs, ts, Parsed([], ts.tail, 0));
    } else {
      ArgsSound(tab, ts.tail);
      CallClosed(tab, ts0, lhs, ts, ParseArgs(tab, ts.tail));
    }
  }

  lemma CallClosed(tab: Table, ts0: Tokens, lhs: Expr, ts: Tokens, l: Parsed<seq<Arg>>)
    requires Peek(ts) == LParen && IsPostfix(tab, lhs) && ts0 == Spell(lhs, ts) && SoundArgs(tab, ts.tail, l)
    ensures SoundPostfix(tab, ts0, Expect(RParen, Parsed(Call(lhs, l.v), l.rest, l.errs)))
  {
    if l.errs == 0 && Peek(l.rest) == RParen {
      CallSpells(tab, lhs, l.v, l.rest.tail);
      assert ts == Cons(LParen, ts.tail);
    }
  }

  lemma CallSpells(tab: Table, callee: Expr, args: seq<Arg>, rest: Tokens)
    requires IsPostfix(tab, callee) && forall a | a in args :: NormalArg(tab, a)
    ensures IsPostfix(tab, Call(callee, args))
    ensures Spell(Call(callee, args), rest) == Spell(callee, Cons(LParen, SpellArgs(args, Cons(RParen, rest))))
  {
  }

  lemma IndexClosed(tab: Table, ts0: Tokens, lhs: Expr, ts: Tokens, l: Parsed<seq<Expr>>)
    requires Peek(ts) == LBracket && IsPostfix(tab, lhs) && ts0 == Spell(lhs, ts) && SoundList(tab, ts.tail, l)
    ensures SoundPostfix(tab, ts0, Expect(RBracket, Parsed(Index(lhs, l.v), l.rest, l.errs)))
  {
    if l.errs == 0 && Peek(l.rest) == RBracket {
      assert ts == Cons(LBracket, ts.tail);
      assert Spell(Index(lhs, l.v), l.rest.tail) == Spell(lhs, ts);
    }
  }

  lemma MemberClosed(tab: Table, ts0: Tokens, lhs: Expr, ts: Tokens, chain: bool)
    requires IsPostfix(tab, lhs)
    requires ts0 == Spell(lhs, if chain then Cons(Question, Cons(Dot, ts)) else Cons(Dot, ts))
    ensures SoundPostfix(tab, ts0, ParseMember(lhs, ts, chain, 0))
  {
  }

  lemma {:induction false} IndexSound(tab: Table, ts0: Tokens, lhs: Expr, ts: Tokens)
    requires Peek(ts) == LBracket && IsPostfix(tab, lhs) && ts0 == Spell(lhs, ts)
    ensures SoundPostfix(tab, ts0, ParseIndex(tab, lhs, ts.tail, 0))
    decreases Len(ts), 1
  {
    ListUnlessSound(tab, ts.tail);
    IndexClosed(tab, ts0, lhs, ts, ParseListUnless(tab, ts.tail, RBracket));
  }

  lemma {:induction false} ListUnlessSound(tab: Table, ts: Tokens)
    ensures SoundList(tab, ts, ParseListUnless(tab, ts, RBracket))
    decreases Len(ts), 8
  {
    if Peek(ts) != RBracket { ListSound(tab, ts); }
  }

  lemma {:induction false} ListSound(tab: Table, ts: Tokens)
    ensures SoundList(tab, ts, ParseList(tab, ts))
    decreases Len(ts), 7
  {
    BpSound(tab, ts, 0);
    var p := ParseBp(tab, ts, 0);
    if Peek(p.rest) == Comma {
      ListSound(tab, p.rest.tail);
      var l := ParseList(tab, p.rest.tail);
      assert ([p.v] + l.v)[1..] == l.v;
    }
  }

  lemma {:induction false} ArgSound(tab: Table, ts: Tokens)
    ensures SoundArg(tab, ts, ParseArg(tab, ts))
    decreases Len(ts), 7
  {
    var labelled := Peek(ts).Ident? && Peek(ts.tail) == Colon;
    assert labelled ==> Len(ts.tail) == 1 + Len(ts.tail.tail);
    var ts1 := if labelled then ts.tail.tail else ts;
    var ts2 := if Peek(ts1) == Amp then ts1.tail else ts1;
    BpSound(tab, ts2, 0);
    var p := ParseBp(tab, ts2, 0);
    if p.errs == 0 { LeadingAmp(tab, p.v, 0, p.rest); }
  }

  lemma {:induction false} ArgsSound(tab: Table, ts: Tokens)
    ensures SoundArgs(tab, ts, ParseArgs(tab, ts))
    decreases Len(ts), 8
  {
    ArgSound(tab, ts);
    var a := ParseArg(tab, ts);
    if Peek(a.rest) == Comma {
      ArgsSound(tab, a.rest.tail);
      var l := ParseArgs(tab, a.rest.tail);
      assert ([a.v] + l.v)[1..] == l.v;
    }
  }

  // -------------------------------------------------------- first tokens

  /** The first token of a normal tree is `&` exactly when the tree leads with an address-of. */
  lemma {:induction false} LeadingAmp(tab: Table, e: Expr, min: nat, rest: Tokens)
    requires Normal(tab, e, min)
    ensures LeadsWithAmp(e) <==> Peek(Spell(e, rest)) == Amp
    decreases e
  {
    if e.Binary? {
      LeadingAmp(tab, e.lhs, min, Cons(OpToken(e.op), Spell(e.rhs, rest)));
    } else if e.Cast? {
      CastNormal(tab, e.value, 0);
      LeadingAmp(tab, e.value, 0, Cons(if e.optional then KwAsQuestion else KwAs, SpellType(e.target, rest)));
    } else if !e.Prefix? {
      assert IsCast(tab, e);
      assert IsPrefixed(tab, e);
      LeadingPostfix(tab, e, rest);
    }
  }

  /** Tokens that no expression starts with. */
  predicate Separates(t: Token) { t.RParen? || t.RBracket? || t.Comma? || t.Colon? || t.Eof? }

  /** A tree without prefix operators, casts or binary operators starts with a primary's token. */
  lemma {:induction false} LeadingPostfix(tab: Table, e: Expr, rest: Tokens)
    requires IsPostfix(tab, e)
    ensures var t := Peek(Spell(e, rest)); PrefixOf(t).None? && !Separates(t)
    decreases e
  {
    if e.Call? {
      LeadingPostfix(tab, e.callee, Cons(LParen, SpellArgs(e.args, Cons(RParen, rest))));
    } else if e.Member? {
      LeadingPostfix(tab, e.base, SpellMember(e.field, e.chain, rest));
    } else if e.Index? {
      LeadingPostfix(tab, e.base, Cons(LBracket, SpellList(e.indices, Cons(RBracket, rest))));
    } else if e.Unwrap? {
      LeadingPostfix(tab, e.base, Cons(Bang, rest));
    }
  }

  /** No expression starts with a closing bracket, a comma, a colon or Eof. */
  lemma {:induction false} FirstToken(tab: Table, e: Expr, min: nat, rest: Tokens)
    requires Normal(tab, e, min)
    ensures !Separates(Peek(Spell(e, rest)))
    decreases e
  {
    if e.Binary? {
      FirstToken(tab, e.lhs, min, Cons(OpToken(e.op), Spell(e.rhs, rest)));
    } else if e.Cast? {
      CastNormal(tab, e.value, 0);
      FirstToken(tab, e.value, 0, Cons(if e.optional then KwAsQuestion else KwAs, SpellType(e.target, rest)));
    } else if !e.Prefix? {
      assert IsCast(tab, e);
      assert IsPrefixed(tab, e);
      LeadingPostfix(tab, e, rest);
    }
  }

  /** An identifier that starts an expression is not followed by a colon. */
  lemma {:induction false} SecondToken(tab: Table, e: Expr, min: nat, rest: Tokens)
    requires Normal(tab, e, min) && Peek(rest) != Colon
    ensures var ts := Spell(e, rest); Peek(ts).Ident? ==> Peek(ts.tail) != Colon
    decreases e
  {
    if e.Binary? {
      SecondToken(tab, e.lhs, min, Cons(OpToken(e.op), Spell(e.rhs, rest)));
    } else if e.Cast? {
      CastNormal(tab, e.value, 0);
      SecondToken(tab, e.value, 0, Cons(if e.optional then KwAsQuestion else KwAs, SpellType(e.target, rest)));
    } else if !e.Prefix? {
      assert IsCast(tab, e);
      assert IsPrefixed(tab, e);
      SecondPostfix(tab, e, rest);
    }
  }

  lemma {:induction false} SecondPostfix(tab: Table, e: Expr, rest: Tokens)
    requires IsPostfix(tab, e) && Peek(rest) != Colon
    ensures var ts := Spell(e, rest); Peek(ts).Ident? ==> Peek(ts.tail) != Colon
    decreases e
  {
    if e.Call? {
      SecondPostfix(tab, e.callee, Cons(LParen, SpellArgs(e.args, Cons(RParen, rest))));
    } else if e.Member? {
      SecondPostfix(tab, e.base, SpellMember(e.field, e.chain, rest));
    } else if e.Index? {
      SecondPostfix(tab, e.base, Cons(LBracket, SpellList(e.indices, Cons(RBracket, rest))));
    } else if e.Unwrap? {
      SecondPostfix(tab, e.base, Cons(Bang, rest));
    }
  }
}
