/** Source text cut into tokens and trivia, and how the tokens of interpolated strings nest. */
module Lexemes {
  import opened Wrappers

  // ------------------------------------------------------- block comments

  predicate Opens(src: string, i: nat) { i + 1 < |src| && src[i] == '/' && src[i + 1] == '*' }

  predicate Closes(src: string, i: nat) { i + 1 < |src| && src[i] == '*' && src[i + 1] == '/' }

  /** `/*`, an inside, `*/`; comments nest. */
  ghost predicate Comment(src: string, a: nat, b: nat)
    decreases b - a, 0
  {
    a + 4 <= b <= |src| && Opens(src, a) && Closes(src, b - 2) && Inside(src, a + 2, b - 2)
  }

  /** Characters that neither open nor close a comment, and whole comments. */
  ghost predicate Inside(src: string, a: nat, b: nat)
    decreases b - a, 1
  {
    a == b || exists c: nat :: a <= c < b && Inside(src, a, c) && (Ordinary(src, c, b) || Comment(src, c, b))
  }

  predicate Ordinary(src: string, c: nat, b: nat) {
    b == c + 1 <= |src| && !Opens(src, c) && !Closes(src, c)
  }

  lemma InsideGrows(src: string, a: nat, c: nat, b: nat)
    requires a <= c < b && Inside(src, a, c) && (Ordinary(src, c, b) || Comment(src, c, b))
    ensures Inside(src, a, b)
  {
  }

  ghost predicate NeverCloses(src: string, a: nat) { forall b :: !Comment(src, a, b) }

  /** Reading on from `i` with `level` comments open: the end of the outermost, or past the text. */
  function ClosedAt(src: string, i: nat, level: nat): nat
    decreases |src| - i
  {
    if level == 0 then i
    else if i >= |src| then |src| + 1
    else if Opens(src, i) then ClosedAt(src, i + 2, level + 1)
    else if Closes(src, i) then ClosedAt(src, i + 2, level - 1)
    else ClosedAt(src, i + 1, level)
  }

  lemma {:induction false} InsideReadPast(src: string, a: nat, b: nat, level: nat)
    requires Inside(src, a, b) && a <= b && level > 0
    ensures ClosedAt(src, a, level) == ClosedAt(src, b, level)
    decreases b - a, 1
  {
    if a < b {
      var c: nat :| a <= c < b && Inside(src, a, c) && (Ordinary(src, c, b) || Comment(src, c, b));
      InsideReadPast(src, a, c, level);
      if Comment(src, c, b) { CommentReadPast(src, c, b, level); }
    }
  }

  lemma {:induction false} CommentReadPast(src: string, a: nat, b: nat, level: nat)
    requires Comment(src, a, b)
    ensures ClosedAt(src, a + 2, level + 1) == ClosedAt(src, b, level)
    decreases b - a, 0
  {
    InsideReadPast(src, a + 2, b - 2, level + 1);
  }

  /** A comment has one end: no proper prefix of it is a comment, and nothing longer is. */
  lemma {:induction false} CommentEndsOnce(src: string, a: nat, b: nat)
    requires Comment(src, a, b)
    ensures b == ClosedAt(src, a + 2, 1)
  {
    CommentReadPast(src, a, b, 0);
  }

  lemma PastTheText(src: string, a: nat)
    requires ClosedAt(src, a + 2, 1) > |src|
    ensures NeverCloses(src, a)
  {
    forall b | Comment(src, a, b) ensures false { CommentEndsOnce(src, a, b); }
  }

  // ---------------------------------------------------------------- trivia

  predicate Blank(c: char) { c == ' ' || c == '\t' || c == '\r' || c == '\n' }

  predicate Slashes(src: string, a: nat) { a + 1 < |src| && src[a] == src[a + 1] == '/' }

  /** To the end of the line, or of the text. */
  predicate LineComment(src: string, a: nat, b: nat) {
    && a + 2 <= b <= |src| && Slashes(src, a)
    && (forall i | a <= i < b :: src[i] != '\n') && (b < |src| ==> src[b] == '\n')
  }

  function LineEnd(src: string, i: nat): (e: nat)
    requires i <= |src|
    ensures i <= e <= |src| && (forall k | i <= k < e :: src[k] != '\n') && (e < |src| ==> src[e] == '\n')
    decreases |src| - i
  {
    if i < |src| && src[i] != '\n' then LineEnd(src, i + 1) else i
  }

  /** The first place from `i` on that is past blanks, newlines and line comments. */
  function Significant(src: string, i: nat): (j: nat)
    requires i <= |src|
    ensures i <= j <= |src| && (j < |src| ==> !Blank(src[j]) && !Slashes(src, j))
    decreases |src| - i
  {
    if i < |src| && Blank(src[i]) then Significant(src, i + 1)
    else if Slashes(src, i) then Significant(src, LineEnd(src, i + 2))
    else i
  }

  /** Nothing but blanks, newlines and line comments. */
  ghost predicate PlainGap(src: string, a: nat, b: nat)
    decreases b - a
  {
    a == b || exists c: nat :: a < c <= b && PlainGap(src, c, b) && ((c == a + 1 <= |src| && Blank(src[a])) || LineComment(src, a, c))
  }

  /** Only one place is past such a gap and not at a blank or a line comment. */
  lemma {:induction false} SignificantIff(src: string, i: nat, j: nat)
    requires i <= |src|
    ensures j == Significant(src, i) <==>
            i <= j <= |src| && PlainGap(src, i, j) && (j < |src| ==> !Blank(src[j]) && !Slashes(src, j))
    decreases |src| - i
  {
    if i < |src| && Blank(src[i]) {
      SignificantIff(src, i + 1, j);
    } else if Slashes(src, i) {
      var e := LineEnd(src, i + 2);
      assert LineComment(src, i, e);
      SignificantIff(src, e, j);
      if j > i && PlainGap(src, i, j) {
        var c: nat :| i < c <= j && PlainGap(src, c, j) && ((c == i + 1 <= |src| && Blank(src[i])) || LineComment(src, i, c));
        assert c == e;
      }
    }
  }

  ghost predicate Piece(src: string, a: nat, b: nat) {
    (b == a + 1 <= |src| && Blank(src[a])) || LineComment(src, a, b) || Comment(src, a, b)
  }

  /** Whitespace, newlines and comments only. */
  ghost predicate Gap(src: string, a: nat, b: nat)
    decreases b - a
  {
    a == b || exists c: nat :: a <= c < b && Gap(src, a, c) && Piece(src, c, b)
  }

  lemma GapGrows(src: string, a: nat, c: nat, b: nat)
    requires a <= c < b && Gap(src, a, c) && Piece(src, c, b)
    ensures Gap(src, a, b)
  {
  }

  /** A gap, and then a comment that is never closed. */
  ghost predicate OpenGap(src: string, a: nat) {
    exists c: nat :: Gap(src, a, c) && Opens(src, c)
  }

  // ---------------------------------------------------------------- tokens

  datatype Kind =
    | LParen | RParen | LBracket | RBracket | LBrace | RBrace
    | Operator | Word | IntLit | FloatLit | StringLit | ByteStringLit | CharLit
    | InterpBegin | InterpPart | InterpEnd
    | Newline | Error | Eof

  datatype Token = Token(kind: Kind, start: nat, text: string)

  predicate IsDigit(c: char) { '0' <= c <= '9' }

  predicate IsWordStart(c: char) { 'a' <= c <= 'z' || 'A' <= c <= 'Z' || c == '_' }

  predicate IsWordPart(c: char) { IsWordStart(c) || IsDigit(c) }

  datatype Radix = Binary | Octal | Decimal | Hexadecimal

  predicate InRadix(r: Radix, c: char) {
    c == '_' ||
    match r
    case Binary => c == '0' || c == '1'
    case Octal => '0' <= c <= '7'
    case Decimal => IsDigit(c)
    case Hexadecimal => IsDigit(c) || 'a' <= c <= 'f' || 'A' <= c <= 'F'
  }

  function RadixOf(c: char): Option<Radix> {
    if c == 'x' then Some(Hexadecimal) else if c == 'o' then Some(Octal) else if c == 'b' then Some(Binary) else None
  }

  // Languages of tokens, as ranges `a..b` of the source.

  predicate Digits(src: string, a: nat, b: nat, r: Radix) {
    a <= b <= |src| && forall i | a <= i < b :: InRadix(r, src[i])
  }

  predicate IntText(src: string, a: nat, b: nat) {
    || (a < b <= |src| && IsDigit(src[a]) && Digits(src, a, b, Decimal))
    || (a + 2 <= b <= |src| && src[a] == '0' && RadixOf(src[a + 1]).Some? && Digits(src, a + 2, b, RadixOf(src[a + 1]).value))
  }

  predicate Fraction(src: string, a: nat, b: nat) {
    a + 2 <= b <= |src| && src[a] == '.' && IsDigit(src[a + 1]) && Digits(src, a + 1, b, Decimal)
  }

  predicate Exponent(src: string, a: nat, b: nat) {
    a < b <= |src| && (src[a] == 'e' || src[a] == 'E') &&
    (Digits(src, a + 1, b, Decimal)
     || (a + 2 <= b && (src[a + 1] == '+' || src[a + 1] == '-') && Digits(src, a + 2, b, Decimal)))
  }

  /** Digits up to `i`, a fraction up to `j`, and an exponent; one of the two may be missing. */
  predicate FloatParts(src: string, a: nat, i: nat, j: nat, b: nat) {
    && a < i <= j <= b <= |src| && i < b && IsDigit(src[a]) && Digits(src, a, i, Decimal)
    && (i == j || Fraction(src, i, j)) && (j == b || Exponent(src, j, b))
  }

  ghost predicate FloatText(src: string, a: nat, b: nat) {
    exists i: nat, j: nat :: FloatParts(src, a, i, j, b)
  }

  predicate PlainWord(src: string, a: nat, b: nat) {
    a < b <= |src| && IsWordStart(src[a]) && forall i | a <= i < b :: IsWordPart(src[i])
  }

  /** `try` and `as` may take a `?` or `!` with them. */
  predicate WordText(src: string, a: nat, b: nat) {
    PlainWord(src, a, b) ||
    (a + 1 < b <= |src| && PlainWord(src, a, b - 1)
     && ((src[a..b - 1] == "try" && (src[b - 1] == '?' || src[b - 1] == '!')) || (src[a..b - 1] == "as" && src[b - 1] == '?')))
  }

  predicate StartsOperator(c: char) {
    c == ',' || c == ';' || c == '@' || c == '$' || c == '~' || c == ':' || c == '.' || c == '?' || c == '+' || c == '-'
    || c == '*' || c == '/' || c == '%' || c == '^' || c == '&' || c == '|' || c == '=' || c == '!' || c == '<' || c == '>'
  }

  predicate OperatorText(s: string) {
    || (|s| == 1 && StartsOperator(s[0]))
    || s in {"..", "??", "+=", "-=", "->", "*=", "/=", "%=", "^=", "&&", "&=", "&+", "&-", "&*", "||", "|=",
             "==", "=>", "!=", "<<", "<=", ">>", ">="}
    || s in {"..<", "<<=", ">>="}
  }

  /** Characters of a literal, a backslash taking the next one with it; `splices`: whether that
      may be a parenthesis. */
  predicate Quoted(src: string, a: nat, b: nat, splices: bool)
    decreases b
  {
    a <= b <= |src| &&
    (a == b
     || (Quoted(src, a, b - 1, splices) && src[b - 1] != '"' && src[b - 1] != '\\' && src[b - 1] != '\n')
     || (a + 2 <= b && Quoted(src, a, b - 2, splices) && src[b - 2] == '\\' && (splices || src[b - 1] != '(')))
  }

  predicate StringText(src: string, a: nat, b: nat, splices: bool) {
    a + 2 <= b <= |src| && src[a] == src[b - 1] == '"' && Quoted(src, a + 1, b - 1, splices)
  }

  /** One character or escape between quotes, or nothing. */
  predicate CharText(src: string, a: nat, b: nat) {
    && a + 2 <= b <= a + 4 && b <= |src| && src[a] == '\'' && src[b - 1] == '\''
    && (b == a + 3 ==> src[a + 1] != '\\' && src[a + 1] != '\'') && (b == a + 4 ==> src[a + 1] == '\\')
  }

  predicate IsChar(src: string, a: nat, b: nat, c: char) { b == a + 1 <= |src| && src[a] == c }

  /** The texts that a kind of token may have. */
  ghost predicate Lexeme(k: Kind, src: string, a: nat, b: nat) {
    match k
    case LParen => IsChar(src, a, b, '(') || (b == a + 2 <= |src| && src[a] == '\\' && src[a + 1] == '(')
    case RParen => IsChar(src, a, b, ')')
    case LBracket => IsChar(src, a, b, '[')
    case RBracket => IsChar(src, a, b, ']')
    case LBrace => IsChar(src, a, b, '{')
    case RBrace => IsChar(src, a, b, '}')
    case Operator => a <= b <= |src| && OperatorText(src[a..b])
    case Word => WordText(src, a, b)
    case IntLit => IntText(src, a, b)
    case FloatLit => FloatText(src, a, b)
    case StringLit => StringText(src, a, b, false)
    case ByteStringLit => a < b <= |src| && src[a] == 'b' && StringText(src, a + 1, b, true)
    case CharLit => CharText(src, a, b)
    case InterpBegin => IsChar(src, a, b, '"')
    case InterpPart => Quoted(src, a, b, false)
    case InterpEnd => IsChar(src, a, b, '"')
    case Newline => IsChar(src, a, b, '\n')
    case Error => true
    case Eof => a == b
  }

  /** Where the token before place `i` ends, if there is one. */
  function EndBefore(out: seq<Token>, i: nat): nat
    requires i <= |out|
  {
    if i == 0 then 0 else out[i - 1].start + |out[i - 1].text|
  }

  function End(out: seq<Token>): nat { EndBefore(out, |out|) }

  /** A token is the slice of the source at its place, with a text its kind may have; and what
      lies before it, from `before` on, is trivia. */
  ghost predicate Follows(src: string, before: nat, t: Token) {
    && before <= t.start && t.start + |t.text| <= |src|
    && t.text == src[t.start..t.start + |t.text|] && Lexeme(t.kind, src, t.start, t.start + |t.text|)
    && Gap(src, before, t.start)
  }

  ghost predicate TokenAt(src: string, out: seq<Token>, i: nat)
    requires i < |out|
  {
    Follows(src, EndBefore(out, i), out[i])
  }

  /** Every token follows the one before it. */
  ghost predicate Tiled(src: string, out: seq<Token>) {
    forall i {:trigger TokenAt(src, out, i)} | 0 <= i < |out| :: TokenAt(src, out, i)
  }

  lemma TokenStays(src: string, out: seq<Token>, t: Token, i: nat)
    requires i < |out| && TokenAt(src, out, i)
    ensures TokenAt(src, out + [t], i)
  {
    assert EndBefore(out + [t], i) == EndBefore(out, i);
  }

  lemma TiledGrows(src: string, out: seq<Token>, t: Token)
    requires Tiled(src, out) && Follows(src, End(out), t)
    ensures Tiled(src, out + [t]) && End(out + [t]) == t.start + |t.text|
  {
    forall i | 0 <= i < |out + [t]| ensures TokenAt(src, out + [t], i) {
      if i < |out| {
        TokenStays(src, out, t, i);
      } else {
        assert EndBefore(out + [t], i) == End(out);
      }
    }
  }

  /** Tokens stand in the order of the source, and do not overlap. */
  lemma {:induction false} TokensOrdered(src: string, out: seq<Token>, i: nat, j: nat)
    requires Tiled(src, out) && i < j < |out|
    ensures out[i].start + |out[i].text| <= out[j].start
    decreases j
  {
    assert TokenAt(src, out, j) && TokenAt(src, out, j - 1);
    if i < j - 1 { TokensOrdered(src, out, i, j - 1); }
  }

  // --------------------------------------------------------------- nesting

  /** What is open: a bracket, an interpolated string, or a splice inside one.  `due`: the string
      is about to give its next literal part. */
  datatype Open = Paren | Square | Brace | Splice | Str(due: bool)

  /** What is open, innermost on top. */
  datatype Opened = Nothing | On(below: Opened, top: Open)

  /** `Broken`: a closing bracket did not match.  `Stuck`: the tokens of a string do not nest. */
  datatype Nesting = Stuck | Broken | Within(open: Opened)

  predicate InString(open: Opened) { open.On? && open.top.Str? }

  function Pop(open: Opened, top: Open): Nesting {
    if open.On? && open.top == top then Within(open.below) else Broken
  }

  /** A string gives a part, then either ends or opens a splice; a splice holds any tokens up to
      its closing parenthesis, after which the string gives its next part. */
  function Shift(n: Nesting, k: Kind): Nesting {
    if !n.Within? then n
    else if InString(n.open) then
      var below, due := n.open.below, n.open.top.due;
      if k.InterpPart? && due then Within(On(below, Str(false)))
      else if k.InterpEnd? && !due then Within(below)
      else if k.LParen? && !due then Within(On(n.open, Splice))
      else Stuck
    else
      match k
      case LParen => Within(On(n.open, Paren))
      case LBracket => Within(On(n.open, Square))
      case LBrace => Within(On(n.open, Brace))
      case RBracket => Pop(n.open, Square)
      case RBrace => Pop(n.open, Brace)
      case RParen =>
        if n.open.On? && n.open.top.Splice? && InString(n.open.below) then Within(On(n.open.below.below, Str(true)))
        else Pop(n.open, Paren)
      case InterpBegin => Within(On(n.open, Str(true)))
      case InterpPart => Stuck
      case InterpEnd => Stuck
      case _ => n
  }

  /** What is open before place `i`. */
  function NestBefore(out: seq<Token>, i: nat): Nesting
    requires i <= |out|
  {
    if i == 0 then Within(Nothing) else Shift(NestBefore(out, i - 1), out[i - 1].kind)
  }

  function Nest(out: seq<Token>): Nesting { NestBefore(out, |out|) }

  lemma {:induction false} NestStays(out: seq<Token>, t: Token, i: nat)
    requires i <= |out|
    ensures NestBefore(out + [t], i) == NestBefore(out, i)
  {
    if i > 0 { NestStays(out, t, i - 1); }
  }

  lemma NestGrows(out: seq<Token>, t: Token)
    ensures Nest(out + [t]) == Shift(Nest(out), t.kind)
  {
    NestStays(out, t, |out|);
  }

  // ------------------------------------------- the counters the lexer keeps

  /** How many brackets are open, counting splices and not strings. */
  function Brackets(open: Opened): nat {
    match open
    case Nothing => 0
    case On(below, top) => Brackets(below) + if top.Str? then 0 else 1
  }

  /** For each open splice, the bracket depth inside it. */
  function SpliceDepths(open: Opened): seq<int> {
    match open
    case Nothing => []
    case On(below, top) => SpliceDepths(below) + if top.Splice? then [Brackets(below) + 1] else []
  }

  lemma {:induction false} DepthsBounded(open: Opened)
    ensures forall d | d in SpliceDepths(open) :: d <= Brackets(open)
    decreases open
  {
    if open.On? { DepthsBounded(open.below); }
  }

  /** What may stand on `open`: a splice on a string that has just given a part, and on a string
      nothing else. */
  predicate Fits(open: Opened, x: Open) {
    if InString(open) then x.Splice? && !open.top.due else !x.Splice?
  }

  predicate Proper(open: Opened) {
    match open
    case Nothing => true
    case On(below, top) => Proper(below) && Fits(below, top)
  }

  /** The counters tell what is open. */
  predicate Counted(open: Opened, depth: int, splices: seq<int>) {
    Proper(open) && depth == Brackets(open) && splices == SpliceDepths(open)
  }

  predicate Holds(open: Opened, x: Open) {
    match open
    case Nothing => false
    case On(below, top) => top == x || Holds(below, x)
  }

  /** Once no splice is open, every interpolated string has ended. */
  lemma {:induction false} StringsEnded(open: Opened, x: Open)
    requires Proper(open) && !InString(open) && SpliceDepths(open) == []
    ensures Holds(open, x) ==> !x.Str? && !x.Splice?
    decreases open
  {
    if open.On? { StringsEnded(open.below, x); }
  }
}
