/** Tokens, expression trees, binding-power tables, and the token string a tree stands for. */
module Syntax {
  import opened Wrappers

  datatype BinOp =
    | Mul | Div | Mod | WrapMul
    | Add | Sub | WrapAdd | WrapSub
    | Shl | Shr | BitAnd | BitXor | BitOr
    | Range | RangeLt
    | EqOp | NeOp | LtOp | LeOp | GtOp | GeOp
    | And | Or | Coalesce

  datatype PrefixOp =
    | Copy | Await | Spawn | Throw | Try | TryOptional | TryForced
    | Neg | Not | BitNot | AddressOf

  datatype LitForm = IntForm | FloatForm | StrForm | ByteStrForm | CharForm

  /** One constructor per token kind; the three that are both infix and prefix, or infix and
      postfix, appear once.  `Stop` stands for every kind that can neither start nor continue an
      expression or a type, such as a newline or `=`. */
  datatype Token =
    | Lit(form: LitForm, text: string)
    | Ident(name: string)
    | KwTrue | KwFalse | KwNil | KwSelf
    | KwCopy | KwAwait | KwSpawn | KwThrow | KwTry | KwTryQuestion | KwTryBang
    | KwAs | KwAsQuestion
    | KwType | KwEmbed | KwDefault | KwRead | KwSelfUpper
    | Infix(op: BinOp)  // every operator token but `-` and `&`
    | Minus | Amp | Bang | Tilde
    | Dot | Comma | Colon | Question | LParen | RParen | LBracket | RBracket
    | Stop(spelling: string)
    | Eof

  /** The head of a named type is an identifier or `Self`. */
  datatype TypeExpr = Named(head: Token, path: seq<string>) | Optional(inner: TypeExpr) | BadType

  datatype Arg = Arg(tag: Option<string>, isInout: bool, value: Expr)

  datatype Expr =
    | Literal(form: LitForm, text: string)
    | Bool(b: bool) | Nil | Self
    | Name(name: string)
    | LeadingDot(member: string)
    | Paren(inner: Expr)
    | Tuple(elements: seq<Expr>)
    | Vector(elements: seq<Expr>)
    | Prefix(pre: PrefixOp, operand: Expr)
    | Call(callee: Expr, args: seq<Arg>)
    | Member(base: Expr, field: Token, chain: bool)
    | Index(base: Expr, indices: seq<Expr>)
    | Unwrap(base: Expr)
    | Cast(value: Expr, target: TypeExpr, optional: bool)
    | Binary(op: BinOp, lhs: Expr, rhs: Expr)
    | Bad  // the `<error>` stub

  // ------------------------------------------------------ binding powers

  /** The left binding power of every operator.  The right one is one more, so every operator
      associates to the left. */
  type Table = BinOp -> nat

  function VestraLeft(op: BinOp): nat {
    match op
    case Mul | Div | Mod | WrapMul => 130
    case Add | Sub | WrapAdd | WrapSub => 120
    case Shl | Shr => 110
    case BitAnd => 100
    case BitXor => 90
    case BitOr => 80
    case Range | RangeLt => 70
    case EqOp | NeOp | LtOp | LeOp | GtOp | GeOp => 60
    case And => 50
    case Or => 40
    case Coalesce => 30
  }

  /** Sections 7.6.5 to 7.6.15 of ISO/IEC 14882:2020, tightest first.  The operators that the
      emitter never writes infix are given the loosest level. */
  function CppLeft(op: BinOp): nat {
    match op
    case Mul | Div | Mod | WrapMul => 130
    case Add | Sub | WrapAdd | WrapSub => 120
    case Shl | Shr => 110
    case LtOp | LeOp | GtOp | GeOp => 100
    case EqOp | NeOp => 90
    case BitAnd => 80
    case BitXor => 70
    case BitOr => 60
    case And => 50
    case Or => 40
    case Range | RangeLt | Coalesce => 30
  }

  /** `-` and `&` have their own tokens, so `Infix` never carries them. */
  function InfixOf(t: Token): (r: Option<BinOp>)
    ensures r.Some? ==> t == (if r.value == Sub then Minus else if r.value == BitAnd then Amp else Infix(r.value))
  {
    match t
    case Infix(op) => if op.Sub? || op.BitAnd? then None else Some(op)
    case Minus => Some(Sub)
    case Amp => Some(BitAnd)
    case _ => None
  }

  function OpToken(op: BinOp): (t: Token)
    ensures InfixOf(t) == Some(op)
  {
    match op
    case Sub => Minus
    case BitAnd => Amp
    case _ => Infix(op)
  }

  function PrefixOf(t: Token): Option<PrefixOp> {
    match t
    case KwCopy => Some(Copy)
    case KwAwait => Some(Await)
    case KwSpawn => Some(Spawn)
    case KwThrow => Some(Throw)
    case KwTry => Some(Try)
    case KwTryQuestion => Some(TryOptional)
    case KwTryBang => Some(TryForced)
    case Minus => Some(Neg)
    case Bang => Some(Not)
    case Tilde => Some(BitNot)
    case Amp => Some(AddressOf)
    case _ => None
  }

  function PrefixToken(p: PrefixOp): (t: Token)
    ensures PrefixOf(t) == Some(p)
  {
    match p
    case Copy => KwCopy
    case Await => KwAwait
    case Spawn => KwSpawn
    case Throw => KwThrow
    case Try => KwTry
    case TryOptional => KwTryQuestion
    case TryForced => KwTryBang
    case Neg => Minus
    case Not => Bang
    case BitNot => Tilde
    case AddressOf => Amp
  }

  lemma PrefixTokenOf(t: Token)
    ensures PrefixOf(t).Some? ==> PrefixToken(PrefixOf(t).value) == t
  {
  }

  predicate IsAs(t: Token) { t.KwAs? || t.KwAsQuestion? }

  /** Member names are identifiers, or one of four reserved words. */
  predicate IsMemberName(t: Token) { t.Ident? || t.KwType? || t.KwEmbed? || t.KwDefault? || t.KwRead? }

  // ---------------------------------------------------------- token lists

  /** The tokens still to be read; `End` is the Eof that closes every list, with its place. */
  datatype Tokens = End(place: nat) | Cons(head: Token, tail: Tokens)

  function Len(ts: Tokens): nat {
    match ts
    case End(_) => 0
    case Cons(_, tail) => 1 + Len(tail)
  }

  function Peek(ts: Tokens): Token {
    match ts
    case End(_) => Eof
    case Cons(t, _) => t
  }

  /** Eof is never stepped over. */
  function Advance(ts: Tokens): Tokens {
    match ts
    case End(_) => ts
    case Cons(t, tail) => if t == Eof then ts else tail
  }

  // A tree is spelled in front of the tokens that follow it.

  function SpellType(t: TypeExpr, rest: Tokens): Tokens {
    match t
    case Named(head, path) => Cons(head, SpellDots(path, rest))
    case Optional(inner) => SpellType(inner, Cons(Question, rest))
    case BadType => rest
  }

  function SpellDots(path: seq<string>, rest: Tokens): Tokens {
    if path == [] then rest else Cons(Dot, Cons(Ident(path[0]), SpellDots(path[1..], rest)))
  }

  function Spell(e: Expr, rest: Tokens): Tokens
    decreases e
  {
    match e
    case Literal(form, text) => Cons(Lit(form, text), rest)
    case Bool(b) => Cons(if b then KwTrue else KwFalse, rest)
    case Nil => Cons(KwNil, rest)
    case Self => Cons(KwSelf, rest)
    case Name(name) => Cons(Ident(name), rest)
    case LeadingDot(member) => Cons(Dot, Cons(Ident(member), rest))
    case Paren(inner) => Cons(LParen, Spell(inner, Cons(RParen, rest)))
    case Tuple(elements) => Cons(LParen, SpellList(elements, Cons(RParen, rest)))
    case Vector(elements) => Cons(LBracket, SpellList(elements, Cons(RBracket, rest)))
    case Prefix(p, operand) => Cons(PrefixToken(p), Spell(operand, rest))
    case Call(callee, args) => Spell(callee, Cons(LParen, SpellArgs(args, Cons(RParen, rest))))
    case Member(base, field, chain) => Spell(base, SpellMember(field, chain, rest))
    case Index(base, indices) => Spell(base, Cons(LBracket, SpellList(indices, Cons(RBracket, rest))))
    case Unwrap(base) => Spell(base, Cons(Bang, rest))
    case Cast(value, target, optional) =>
      Spell(value, Cons(if optional then KwAsQuestion else KwAs, SpellType(target, rest)))
    case Binary(op, lhs, rhs) => Spell(lhs, Cons(OpToken(op), Spell(rhs, rest)))
    case Bad => rest
  }

  function SpellMember(field: Token, chain: bool, rest: Tokens): Tokens {
    if chain then Cons(Question, Cons(Dot, Cons(field, rest))) else Cons(Dot, Cons(field, rest))
  }

  function SpellList(es: seq<Expr>, rest: Tokens): Tokens
    decreases es
  {
    if es == [] then rest
    else Spell(es[0], if |es| == 1 then rest else Cons(Comma, SpellList(es[1..], rest)))
  }

  function SpellArg(a: Arg, rest: Tokens): Tokens
    decreases a
  {
    var value := Spell(a.value, rest);
    var marked := if a.isInout then Cons(Amp, value) else value;
    if a.tag.Some? then Cons(Ident(a.tag.value), Cons(Colon, marked)) else marked
  }

  function SpellArgs(args: seq<Arg>, rest: Tokens): Tokens
    decreases args
  {
    if args == [] then rest
    else SpellArg(args[0], if |args| == 1 then rest else Cons(Comma, SpellArgs(args[1..], rest)))
  }

  // ------------------------------------------------- precedence-normal trees

  predicate IsTypeHead(t: Token) { t.Ident? || t.KwSelfUpper? }

  predicate IsPath(t: TypeExpr) {
    match t
    case Named(head, _) => IsTypeHead(head)
    case Optional(inner) => IsPath(inner)
    case BadType => false
  }

  predicate IsPrimary(tab: Table, e: Expr)
    decreases e, 0
  {
    match e
    case Literal(_, _) | Bool(_) | Nil | Self | Name(_) | LeadingDot(_) => true
    case Paren(inner) => Normal(tab, inner, 0)
    case Tuple(elements) => |elements| >= 2 && forall x | x in elements :: Normal(tab, x, 0)
    case Vector(elements) => forall x | x in elements :: Normal(tab, x, 0)
    case _ => false
  }

  predicate IsPostfix(tab: Table, e: Expr)
    decreases e, 1
  {
    match e
    case Call(callee, args) => IsPostfix(tab, callee) && forall a | a in args :: NormalArg(tab, a)
    case Member(base, field, _) => IsPostfix(tab, base) && IsMemberName(field)
    case Index(base, indices) => IsPostfix(tab, base) && forall x | x in indices :: Normal(tab, x, 0)
    case Unwrap(base) => IsPostfix(tab, base)
    case _ => IsPrimary(tab, e)
  }

  /** A leading `&` in an argument always marks it inout. */
  predicate NormalArg(tab: Table, a: Arg)
    decreases a, 0
  {
    Normal(tab, a.value, 0) && (a.isInout || !LeadsWithAmp(a.value))
  }

  predicate LeadsWithAmp(e: Expr) {
    match e
    case Prefix(p, _) => p == AddressOf
    case Cast(value, _, _) => LeadsWithAmp(value)
    case Binary(_, lhs, _) => LeadsWithAmp(lhs)
    case _ => false
  }

  predicate IsPrefixed(tab: Table, e: Expr)
    decreases e, 2
  {
    match e
    case Prefix(_, operand) => IsPrefixed(tab, operand)
    case _ => IsPostfix(tab, e)
  }

  predicate IsCast(tab: Table, e: Expr)
    decreases e, 3
  {
    match e
    case Cast(value, target, _) => IsCast(tab, value) && IsPath(target)
    case _ => IsPrefixed(tab, e)
  }

  /** Every operator binds at least as tightly as `min`, no right operand is an operator that
      binds as loosely as its parent, and no left operand one that binds more loosely. */
  predicate Normal(tab: Table, e: Expr, min: nat)
    decreases e, 4
  {
    match e
    case Binary(op, lhs, rhs) =>
      && tab(op) >= min
      && Normal(tab, lhs, min) && (lhs.Binary? ==> tab(op) <= tab(lhs.op))
      && Normal(tab, rhs, tab(op) + 1)
    case _ => IsCast(tab, e)
  }
}
