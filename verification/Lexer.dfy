/** The lexer: a cursor over the source, a bracket depth, and a stack of splice depths. */
module Lexer {
  import opened Wrappers
  import opened Lexemes

  /** How many of the next two characters belong to an operator that starts with `c`. */
  function OperatorTail(c: char, c1: char, c2: char): (n: nat)
    ensures n <= 2
  {
    if c == '.' then (if c1 != '.' then 0 else if c2 == '<' then 2 else 1)
    else if c == '<' || c == '>' then
      (if c1 == c then (if c2 == '=' then 2 else 1) else if c1 == '=' then 1 else 0)
    else if c == '?' then (if c1 == '?' then 1 else 0)
    else if c == '-' then (if c1 == '=' || c1 == '>' then 1 else 0)
    else if c == '&' then (if c1 == '&' || c1 == '=' || c1 == '+' || c1 == '-' || c1 == '*' then 1 else 0)
    else if c == '|' then (if c1 == '|' || c1 == '=' then 1 else 0)
    else if c == '=' then (if c1 == '=' || c1 == '>' then 1 else 0)
    else if c == '+' || c == '*' || c == '/' || c == '%' || c == '^' || c == '!' then (if c1 == '=' then 1 else 0)
    else 0
  }

  /** It is the longest operator that the text starts with. */
  lemma LongestOperator(c: char, c1: char, c2: char, n: nat)
    requires StartsOperator(c) && n <= 2
    ensures var tail := OperatorTail(c, c1, c2); var text := [c, c1, c2];
      OperatorText(text[..tail + 1]) && (OperatorText(text[..n + 1]) ==> n <= tail)
  {
    var tail := OperatorTail(c, c1, c2);
    assert [c, c1, c2][..1] == [c];
    assert [c, c1, c2][..2] == [c, c1];
    assert [c, c1, c2][..3] == [c, c1, c2];
  }

  /** After these a newline does not end the statement. */
  predicate IsBinaryOperator(k: Kind, text: string) {
    k.Operator? && text != "." && text != "?" && text != "!" && text != ";" && text != "@" && text != "$" && text != "~"
  }

  // -------------------------------------------------------- tokens and counters

  /** The tokens so far nest, and the counters tell how; or a bracket did not match. */
  ghost predicate NestedAt(n: Nesting, depth: int, splices: seq<int>) {
    match n
    case Stuck => false
    case Broken => true
    case Within(open) => Counted(open, depth, splices) && !InString(open)
  }

  /** As `NestedAt`, inside a string whose next part is due. */
  ghost predicate PartDueAt(n: Nesting, depth: int, splices: seq<int>) {
    match n
    case Stuck => false
    case Broken => true
    case Within(open) => Counted(open, depth, splices) && InString(open) && open.top.due
  }

  predicate IsPlain(k: Kind) {
    k.Operator? || k.Word? || k.IntLit? || k.FloatLit? || k.StringLit? || k.ByteStringLit? || k.CharLit? || k.Newline? || k.Error?
  }

  lemma PlainKeeps(n: Nesting, depth: int, splices: seq<int>, k: Kind)
    requires NestedAt(n, depth, splices) && IsPlain(k)
    ensures NestedAt(Shift(n, k), depth, splices)
  {
  }

  lemma BracketOpens(n: Nesting, depth: int, splices: seq<int>, k: Kind)
    requires NestedAt(n, depth, splices) && (k.LParen? || k.LBracket? || k.LBrace?)
    ensures NestedAt(Shift(n, k), depth + 1, splices)
  {
  }

  lemma BracketCloses(n: Nesting, depth: int, splices: seq<int>, k: Kind)
    requires NestedAt(n, depth, splices) && (k.RBracket? || k.RBrace?)
    ensures NestedAt(Shift(n, k), depth - 1, splices)
  {
  }

  /** The bracket depth falls below that of the innermost splice exactly when the parenthesis
      closes that splice. */
  lemma ParenthesisCloses(n: Nesting, depth: int, splices: seq<int>)
    requires NestedAt(n, depth, splices)
    ensures if splices != [] && depth - 1 < splices[|splices| - 1]
      then PartDueAt(Shift(n, RParen), depth - 1, splices[..|splices| - 1])
      else NestedAt(Shift(n, RParen), depth - 1, splices)
  {
    if n.Within? && n.open.On? {
      if n.open.top.Splice? {
        var str := n.open.below;
        assert Proper(str) && str == On(str.below, Str(false));
        assert splices[..|splices| - 1] == SpliceDepths(str.below) && depth - 1 == Brackets(str.below);
      } else if n.open.top.Paren? {
        DepthsBounded(n.open.below);
        assert splices == SpliceDepths(n.open.below);
        assert splices != [] ==> splices[|splices| - 1] in SpliceDepths(n.open.below);
      }
    }
  }

  lemma StringOpens(n: Nesting, depth: int, splices: seq<int>)
    requires NestedAt(n, depth, splices)
    ensures PartDueAt(Shift(n, InterpBegin), depth, splices)
  {
  }

  lemma StringCloses(n: Nesting, depth: int, splices: seq<int>)
    requires PartDueAt(n, depth, splices)
    ensures NestedAt(Shift(Shift(n, InterpPart), InterpEnd), depth, splices)
  {
  }

  lemma SpliceOpens(n: Nesting, depth: int, splices: seq<int>)
    requires PartDueAt(n, depth, splices)
    ensures NestedAt(Shift(Shift(n, InterpPart), LParen), depth + 1, splices + [depth + 1])
  {
    if n.Within? {
      var str := On(n.open.below, Str(false));
      assert Counted(str, depth, splices) && Fits(str, Splice);
    }
  }

  // ------------------------------------------------------- nested comments

  /** The comments open at `pos`, outermost first: the inside of each is read up to the next. */
  ghost predicate Levels(src: string, opens: seq<nat>, first: nat, pos: nat) {
    && opens != [] && opens[0] == first
    && (forall k | 0 <= k < |opens| :: Opens(src, opens[k]))
    && (forall k | 0 <= k < |opens| - 1 :: InsideUpTo(src, opens[k], opens[k + 1]))
    && InsideUpTo(src, opens[|opens| - 1], pos)
  }

  ghost predicate InsideUpTo(src: string, a: nat, b: nat) { a + 2 <= b && Inside(src, a + 2, b) }

  lemma LevelOpens(src: string, opens: seq<nat>, first: nat, pos: nat)
    requires Levels(src, opens, first, pos) && Opens(src, pos)
    ensures Levels(src, opens + [pos], first, pos + 2) && ClosedAt(src, pos, |opens|) == ClosedAt(src, pos + 2, |opens| + 1)
  {
    var more := opens + [pos];
    forall k | 0 <= k < |more| - 1
      ensures InsideUpTo(src, more[k], more[k + 1])
    {
      assert k < |opens| - 1 ==> InsideUpTo(src, opens[k], opens[k + 1]);
    }
  }

  lemma LevelCloses(src: string, opens: seq<nat>, first: nat, pos: nat)
    requires Levels(src, opens, first, pos) && Closes(src, pos)
    ensures if |opens| == 1 then Comment(src, first, pos + 2) else Levels(src, opens[..|opens| - 1], first, pos + 2)
    ensures ClosedAt(src, pos, |opens|) == ClosedAt(src, pos + 2, |opens| - 1)
  {
    var n := |opens| - 1;
    assert Comment(src, opens[n], pos + 2);
    if n > 0 {
      assert InsideUpTo(src, opens[n - 1], opens[n]);
      InsideGrows(src, opens[n - 1] + 2, opens[n], pos + 2);
    }
  }

  lemma LevelStays(src: string, opens: seq<nat>, first: nat, pos: nat)
    requires Levels(src, opens, first, pos) && pos < |src| && !Opens(src, pos) && !Closes(src, pos)
    ensures Levels(src, opens, first, pos + 1) && ClosedAt(src, pos, |opens|) == ClosedAt(src, pos + 1, |opens|)
  {
    InsideGrows(src, opens[|opens| - 1] + 2, pos, pos + 1);
  }

  /** From inside a string, a splice opens before the closing quote or the end of the line. */
  predicate SpliceAhead(src: string, i: nat)
    decreases |src| - i
  {
    i < |src| && src[i] != '"' && src[i] != '\n' &&
    if src[i] == '\\' then (i + 1 < |src| && src[i + 1] == '(') || SpliceAhead(src, i + 2)
    else SpliceAhead(src, i + 1)
  }

  lemma QuotedGrows(src: string, from: nat, pos: nat, splices: bool)
    requires pos < |src| && Quoted(src, from, pos, splices) && src[pos] != '"' && src[pos] != '\n'
    ensures src[pos] != '\\' ==> Quoted(src, from, pos + 1, splices)
    ensures src[pos] == '\\' && pos + 1 < |src| && (splices || src[pos + 1] != '(') ==> Quoted(src, from, pos + 2, splices)
  {
  }

  /** What follows a newline at `i` goes on with the statement before it. */
  predicate Continues(src: string, i: nat)
    requires i <= |src|
  {
    var j := Significant(src, i);
    j < |src| && src[j] in "+-*/%|^?."
  }

  /** Only line comments are looked past: a line that starts with a block comment counts as a
      continuation, whatever stands behind the comment. */
  lemma {:induction false} CommentedLineContinues(src: string, i: nat, a: nat, b: nat)
    requires i <= a < |src| && PlainGap(src, i, a) && Comment(src, a, b)
    ensures Continues(src, i)
  {
    SignificantIff(src, i, a);
  }

  lemma SliceOf(src: string, start: nat, tail: nat, c: char, c1: char, c2: char)
    requires tail <= 2 && start + tail < |src| && c == src[start]
    requires (tail > 0 ==> c1 == src[start + 1]) && (tail > 1 ==> c2 == src[start + 2])
    ensures src[start..start + tail + 1] == [c, c1, c2][..tail + 1]
  {
  }

  class Lexer {
    const src: string
    const limit: nat            // the reporter stops accepting errors here
    var pos: nat
    var depth: int              // brackets open; may fall below zero on bad input
    var splices: seq<int>       // the depth inside each open splice
    var prevWasOperator: bool
    var errors: nat
    var out: seq<Token>

    ghost predicate Valid()
      reads this
    {
      pos <= |src| && Tiled(src, out) && End(out) <= pos
    }

    /** Everything up to `start` has been accounted for. */
    ghost predicate ReadyAt(start: nat)
      reads this
    {
      Valid() && End(out) <= start <= pos && Gap(src, End(out), start)
    }

    ghost predicate Nested()
      reads this
    {
      errors == 0 ==> NestedAt(Nest(out), depth, splices)
    }

    ghost predicate PartDue()
      reads this
    {
      errors == 0 ==> PartDueAt(Nest(out), depth, splices)
    }

    constructor (src: string, limit: nat)
      ensures this.src == src && this.limit == limit && pos == 0 && out == [] && errors == 0
      ensures Valid() && Nested()
    {
      this.src, this.limit := src, limit;
      pos, depth, splices, prevWasOperator, errors, out := 0, 0, [], false, 0, [];
    }

    /** NUL past the end. */
    function Peek(ahead: nat): char
      reads this
    {
      if pos + ahead < |src| then src[pos + ahead] else '\0'
    }

    /** The text since `start` may follow the tokens as one of kind `k`. */
    ghost predicate Extends(k: Kind, start: nat)
      reads this
    {
      start <= pos <= |src| && Tiled(src, out + [Token(k, start, src[start..pos])])
    }

    lemma MayEmit(k: Kind, start: nat)
      requires ReadyAt(start) && Lexeme(k, src, start, pos)
      ensures Extends(k, start)
    {
      TiledGrows(src, out, Token(k, start, src[start..pos]));
    }

    method Emit(k: Kind, start: nat)
      requires Extends(k, start)
      modifies `out, `prevWasOperator
      ensures out == old(out) + [Token(k, start, src[start..pos])]
      ensures ReadyAt(pos) && Nest(out) == Shift(Nest(old(out)), k)
    {
      var t := Token(k, start, src[start..pos]);
      NestGrows(out, t);
      out := out + [t];
      if !k.Newline? { prevWasOperator := IsBinaryOperator(k, t.text); }
    }

    /** A token that neither opens nor closes anything. */
    method EmitPlain(k: Kind, start: nat)
      requires Extends(k, start) && Nested() && IsPlain(k)
      modifies `out, `prevWasOperator
      ensures ReadyAt(pos) && Nested() && out == old(out) + [Token(k, start, src[start..pos])]
    {
      if errors == 0 { PlainKeeps(Nest(out), depth, splices, k); }
      Emit(k, start);
    }

    method Fail(start: nat)
      requires ReadyAt(start)
      modifies `out, `prevWasOperator, `errors
      ensures ReadyAt(pos) && Nested() && errors > 0 && errors >= old(errors)
    {
      errors := errors + 1;
      MayEmit(Error, start);
      Emit(Error, start);
    }

    // --------------------------------------------------------------- trivia

    /** The comment has been opened; read on until it is closed, or to the end of the text, which
        is an error, and happens only when no comment starts there. */
    method ScanBlockComment()
      requires 2 <= pos <= |src| && Opens(src, pos - 2)
      modifies `pos, `errors
      ensures old(pos) <= pos <= |src|
      ensures if errors == old(errors) then Comment(src, old(pos) - 2, pos)
              else errors == old(errors) + 1 && pos == |src| && NeverCloses(src, old(pos) - 2)
    {
      ghost var opens: seq<nat> := [pos - 2];
      ghost var first, ending := pos - 2, ClosedAt(src, pos, 1);
      var level := 1;
      while level > 0 && pos < |src|
        invariant old(pos) <= pos <= |src| && errors == old(errors)
        invariant if level == 0 then Comment(src, first, pos) else level == |opens| && Levels(src, opens, first, pos)
        invariant ClosedAt(src, pos, level) == ending
        decreases |src| - pos
      {
        if Peek(0) == '/' && Peek(1) == '*' && pos + 1 < |src| {
          LevelOpens(src, opens, first, pos);
          opens := opens + [pos];
          pos := pos + 2;
          level := level + 1;
        } else if Peek(0) == '*' && Peek(1) == '/' && pos + 1 < |src| {
          LevelCloses(src, opens, first, pos);
          opens := opens[..level - 1];
          pos := pos + 2;
          level := level - 1;
        } else {
          LevelStays(src, opens, first, pos);
          pos := pos + 1;
        }
      }
      if level != 0 {
        PastTheText(src, first);
        errors := errors + 1;
      }
    }

    /** Past blanks, newlines and line comments, to the next character that counts. */
    method NextSignificant() returns (i: nat)
      requires pos <= |src|
      ensures i == Significant(src, pos)
    {
      i := pos;
      while i < |src|
        invariant pos <= i <= |src| && Significant(src, i) == Significant(src, pos)
      {
        if Blank(src[i]) {
          i := i + 1;
        } else if src[i] == '/' && i + 1 < |src| && src[i + 1] == '/' {
          ghost var start := i;
          while i < |src| && src[i] != '\n'
            invariant start <= i <= |src| && (i < start + 2 || LineEnd(src, i) == LineEnd(src, start + 2))
          {
            i := i + 1;
          }
        } else {
          return;
        }
      }
    }

    method SkipLine()
      requires pos + 1 < |src| && src[pos] == '/' && src[pos + 1] == '/'
      modifies `pos
      ensures LineComment(src, old(pos), pos)
    {
      while pos < |src| && src[pos] != '\n'
        invariant old(pos) <= pos <= |src| && forall i | old(pos) <= i < pos :: src[i] != '\n'
      {
        pos := pos + 1;
      }
    }

    method SkipTrivia()
      requires ReadyAt(pos) && Nested()
      modifies this
      ensures Valid() && Nested() && old(pos) <= pos && errors >= old(errors)
      ensures ReadyAt(pos) || (errors > 0 && pos == |src| && OpenGap(src, End(out)))
    {
      ghost var unclosed := false;
      while pos < |src|
        invariant Valid() && Nested() && old(pos) <= pos && errors >= old(errors)
        invariant if unclosed then errors > 0 && pos == |src| && OpenGap(src, End(out)) else ReadyAt(pos)
        decreases |src| - pos
      {
        var c := src[pos];
        if c == ' ' || c == '\t' || c == '\r' {
          GapGrows(src, End(out), pos, pos + 1);
          pos := pos + 1;
        } else if c == '\n' {
          SkipNewline();
        } else if c == '/' && Peek(1) == '/' && pos + 1 < |src| {
          ghost var start := pos;
          SkipLine();
          GapGrows(src, End(out), start, pos);
        } else if c == '/' && Peek(1) == '*' && pos + 1 < |src| {
          ghost var start, before := pos, errors;
          pos := pos + 2;
          ScanBlockComment();
          unclosed := errors > before;
          if unclosed {
            assert Gap(src, End(out), start) && Opens(src, start);
          } else {
            GapGrows(src, End(out), start, pos);
          }
        } else {
          return;
        }
      }
    }

    /** A newline ends the statement unless a bracket is open, or an operator stands before it or
        at the start of the next line that holds more than a line comment. */
    method SkipNewline()
      requires ReadyAt(pos) && Nested() && pos < |src| && src[pos] == '\n'
      modifies this
      ensures ReadyAt(pos) && Nested() && pos == old(pos) + 1 && errors == old(errors)
      ensures out == if old(depth > 0 || prevWasOperator) || Continues(src, pos) then old(out)
                     else old(out) + [Token(Newline, old(pos), "\n")]
    {
      var start := pos;
      pos := pos + 1;
      var suppressed := depth > 0 || prevWasOperator;
      if !suppressed {
        var i := NextSignificant();
        suppressed := i < |src| && (src[i] == '+' || src[i] == '-' || src[i] == '*' || src[i] == '/' || src[i] == '%'
          || src[i] == '|' || src[i] == '^' || src[i] == '?' || src[i] == '.');
      }
      if suppressed {
        GapGrows(src, End(out), start, pos);
      } else {
        assert src[start..pos] == "\n";
        MayEmit(Newline, start);
        EmitPlain(Newline, start);
      }
    }

    // ------------------------------------------------------ numbers and words

    /** To the first character that is not a digit; the digits start at `from`. */
    method EatDigits(r: Radix, ghost from: nat)
      requires Digits(src, from, pos, r)
      modifies `pos
      ensures old(pos) <= pos && Digits(src, from, pos, r)
      ensures pos < |src| ==> !InRadix(r, src[pos])
    {
      while pos < |src| && InRadix(r, src[pos])
        invariant old(pos) <= pos && Digits(src, from, pos, r)
      {
        pos := pos + 1;
      }
    }

    method ScanNumber(start: nat)
      requires ReadyAt(start) && Nested() && pos == start + 1 && IsDigit(src[start])
      modifies this
      ensures ReadyAt(pos) && Nested() && pos >= old(pos) && errors == old(errors)
    {
      var isFloat := EatNumber(start);
      if isFloat {
        MayEmit(FloatLit, start);
        EmitPlain(FloatLit, start);
      } else {
        MayEmit(IntLit, start);
        EmitPlain(IntLit, start);
      }
    }

    method EatNumber(start: nat) returns (isFloat: bool)
      requires start < pos <= |src| && pos == start + 1 && IsDigit(src[start])
      modifies `pos
      ensures old(pos) <= pos <= |src|
      ensures if isFloat then FloatText(src, start, pos) else IntText(src, start, pos)
    {
      if src[start] == '0' && RadixOf(Peek(0)).Some? {
        var r := RadixOf(Peek(0)).value;
        pos := pos + 1;
        EatDigits(r, pos);
        return false;
      }
      EatDigits(Decimal, start);
      var i := pos;
      EatFraction();
      ghost var j := pos;
      EatExponent();
      isFloat := pos > i;
      if isFloat { assert FloatParts(src, start, i, j, pos); }
    }

    /** A point belongs to the number only where a digit follows it. */
    method EatFraction()
      requires pos <= |src|
      modifies `pos
      ensures pos == old(pos) || Fraction(src, old(pos), pos)
    {
      if Peek(0) == '.' && IsDigit(Peek(1)) {
        pos := pos + 1;
        EatDigits(Decimal, pos);
      }
    }

    method EatExponent()
      requires pos <= |src|
      modifies `pos
      ensures pos == old(pos) || Exponent(src, old(pos), pos)
    {
      if Peek(0) == 'e' || Peek(0) == 'E' {
        pos := pos + 1;
        if Peek(0) == '+' || Peek(0) == '-' { pos := pos + 1; }
        EatDigits(Decimal, pos);
      }
    }

    /** To the first character that is not part of a word; `try` and `as` take a `?` or `!` that
        follows them along. */
    method EatWord(start: nat)
      requires start < pos <= |src| && pos == start + 1 && IsWordStart(src[start])
      modifies `pos
      ensures old(pos) <= pos <= |src| && WordText(src, start, pos)
      ensures pos < |src| && IsWordPart(src[pos]) ==> !IsWordPart(src[pos - 1])
    {
      while pos < |src| && IsWordPart(src[pos])
        invariant old(pos) <= pos && PlainWord(src, start, pos)
      {
        pos := pos + 1;
      }
      var word := src[start..pos];
      if (word == "try" && (Peek(0) == '?' || Peek(0) == '!')) || (word == "as" && Peek(0) == '?') {
        pos := pos + 1;
      }
    }

    method ScanWord(start: nat)
      requires ReadyAt(start) && Nested() && pos == start + 1 && IsWordStart(src[start])
      modifies this
      ensures ReadyAt(pos) && Nested() && pos >= old(pos) && errors == old(errors)
      ensures out == old(out) + [Token(Word, start, src[start..pos])]
    {
      EatWord(start);
      MayEmit(Word, start);
      EmitPlain(Word, start);
    }

    // ---------------------------------------------------- strings and splices

    /** Does a splice open before the string ends? */
    method HasSplice() returns (found: bool)
      requires pos <= |src|
      ensures found == SpliceAhead(src, pos)
    {
      var i := pos;
      while i < |src|
        invariant pos <= i && SpliceAhead(src, pos) == SpliceAhead(src, i)
      {
        if src[i] == '"' || src[i] == '\n' { return false; }
        if src[i] == '\\' {
          if i + 1 < |src| && src[i + 1] == '(' { return true; }
          i := i + 2;
        } else {
          i := i + 1;
        }
      }
      return false;
    }

    /** Only a string with a splice in it is interpolated, and never a byte string. */
    method ScanString(start: nat, isByte: bool)
      requires ReadyAt(start) && Nested() && pos == start + (if isByte then 2 else 1)
      requires src[pos - 1] == '"' && (isByte ==> src[start] == 'b')
      modifies this
      ensures ReadyAt(pos) && Nested() && pos >= old(pos) && errors >= old(errors)
    {
      if !isByte {
        var splice := HasSplice();
        if splice {
          if errors == 0 { StringOpens(Nest(out), depth, splices); }
          MayEmit(InterpBegin, start);
          Emit(InterpBegin, start);
          ScanInterpContinue();
          return;
        }
      }
      var closed := EatString(start, isByte);
      if closed && isByte {
        MayEmit(ByteStringLit, start);
        EmitPlain(ByteStringLit, start);
      } else if closed {
        MayEmit(StringLit, start);
        EmitPlain(StringLit, start);
      } else {
        Fail(start);
      }
    }

    /** To behind the closing quote, or to the end of the line. */
    method EatString(start: nat, isByte: bool) returns (closed: bool)
      requires start < pos <= |src| && pos == start + (if isByte then 2 else 1)
      requires src[pos - 1] == '"' && (if isByte then src[start] == 'b' else !SpliceAhead(src, pos))
      modifies `pos
      ensures old(pos) <= pos <= |src|
      ensures if closed then StringText(src, if isByte then start + 1 else start, pos, isByte)
        else pos == |src| || src[pos] == '\n'
    {
      ghost var from := pos;
      while pos < |src|
        invariant from <= pos <= |src|
        invariant isByte || !SpliceAhead(src, pos)
        invariant pos < |src| ==> Quoted(src, from, pos, isByte)
        decreases |src| - pos
      {
        var c := src[pos];
        if c == '"' {
          pos := pos + 1;
          return true;
        }
        if c == '\n' { return false; }
        QuotedGrows(src, from, pos, isByte);
        pos := pos + 1;
        if c == '\\' && pos < |src| { pos := pos + 1; }
      }
      return false;
    }

    /** One literal part of an interpolated string, and the end of the string or the opening of
        the next splice. */
    method ScanInterpContinue()
      requires ReadyAt(pos) && PartDue()
      modifies this
      ensures ReadyAt(pos) && Nested() && pos >= old(pos) && errors >= old(errors)
    {
      var start := pos;
      while pos < |src|
        invariant ReadyAt(start) && PartDue() && pos >= old(pos) && errors == old(errors)
        invariant pos < |src| ==> Quoted(src, start, pos, false)
        decreases |src| - pos
      {
        var c := src[pos];
        if c == '"' {
          CloseString(start);
          return;
        }
        if c == '\\' && Peek(1) == '(' && pos + 1 < |src| {
          OpenSplice(start);
          return;
        }
        if c == '\n' {
          Fail(start);
          return;
        }
        QuotedGrows(src, start, pos, false);
        pos := pos + 1;
        if c == '\\' && pos < |src| { pos := pos + 1; }
      }
      Fail(start);
    }

    /** At the closing quote. */
    method CloseString(start: nat)
      requires ReadyAt(start) && PartDue() && pos < |src| && src[pos] == '"' && Quoted(src, start, pos, false)
      modifies `pos, `out, `prevWasOperator
      ensures ReadyAt(pos) && Nested() && pos == old(pos) + 1
    {
      if errors == 0 { StringCloses(Nest(out), depth, splices); }
      MayEmit(InterpPart, start);
      EmitPart(start);
      var quote := pos;
      pos := pos + 1;
      MayEmit(InterpEnd, quote);
      Emit(InterpEnd, quote);
    }

    /** At the start of a splice. */
    method OpenSplice(start: nat)
      requires ReadyAt(start) && PartDue() && Quoted(src, start, pos, false)
      requires pos + 1 < |src| && src[pos] == '\\' && src[pos + 1] == '('
      modifies `pos, `depth, `splices, `out, `prevWasOperator
      ensures ReadyAt(pos) && Nested() && pos == old(pos) + 2
    {
      if errors == 0 { SpliceOpens(Nest(out), depth, splices); }
      MayEmit(InterpPart, start);
      EmitPart(start);
      var marker := pos;
      pos := pos + 2;
      depth := depth + 1;
      splices := splices + [depth];
      MayEmit(LParen, marker);
      Emit(LParen, marker);
    }

    /** The part token; it leaves the operator flag alone. */
    method EmitPart(start: nat)
      requires Extends(InterpPart, start)
      modifies `out
      ensures out == old(out) + [Token(InterpPart, start, src[start..pos])]
      ensures ReadyAt(pos) && Nest(out) == Shift(Nest(old(out)), InterpPart)
    {
      var t := Token(InterpPart, start, src[start..pos]);
      NestGrows(out, t);
      out := out + [t];
    }

    /** To behind the closing quote, if there is one after one character or escape. */
    method EatChar(start: nat) returns (closed: bool)
      requires pos == start + 1 <= |src| && src[start] == '\''
      modifies `pos
      ensures old(pos) <= pos <= |src|
      ensures if closed then CharText(src, start, pos) else pos == |src| || src[pos] != '\''
    {
      if Peek(0) == '\\' {
        pos := pos + 1;
        if pos < |src| { pos := pos + 1; }
      } else if pos < |src| && src[pos] != '\'' {
        pos := pos + 1;
      }
      if Peek(0) != '\'' { return false; }
      pos := pos + 1;
      return true;
    }

    method ScanChar(start: nat)
      requires ReadyAt(start) && Nested() && pos == start + 1 && src[start] == '\''
      modifies this
      ensures ReadyAt(pos) && Nested() && pos >= old(pos) && errors >= old(errors)
    {
      var closed := EatChar(start);
      if closed {
        MayEmit(CharLit, start);
        EmitPlain(CharLit, start);
      } else {
        Fail(start);
      }
    }

    // ------------------------------------------------------------- brackets

    method OpenBracket(k: Kind, start: nat)
      requires Extends(k, start) && Nested() && (k.LParen? || k.LBracket? || k.LBrace?)
      modifies `depth, `out, `prevWasOperator
      ensures ReadyAt(pos) && Nested()
    {
      if errors == 0 { BracketOpens(Nest(out), depth, splices, k); }
      depth := depth + 1;
      Emit(k, start);
    }

    method CloseBracket(k: Kind, start: nat)
      requires Extends(k, start) && Nested() && (k.RBracket? || k.RBrace?)
      modifies `depth, `out, `prevWasOperator
      ensures ReadyAt(pos) && Nested()
    {
      if errors == 0 { BracketCloses(Nest(out), depth, splices, k); }
      depth := depth - 1;
      Emit(k, start);
    }

    /** A parenthesis that takes the depth below that of the innermost splice ends the splice. */
    method CloseParen(start: nat)
      requires ReadyAt(start) && Nested() && IsChar(src, start, pos, ')')
      modifies this
      ensures ReadyAt(pos) && Nested() && pos >= old(pos) && errors >= old(errors)
    {
      if errors == 0 { ParenthesisCloses(Nest(out), depth, splices); }
      depth := depth - 1;
      MayEmit(RParen, start);
      Emit(RParen, start);
      if splices != [] && depth < splices[|splices| - 1] {
        splices := splices[..|splices| - 1];
        ScanInterpContinue();
      }
    }

    // ------------------------------------------------------------- the loop

    method ScanToken()
      requires ReadyAt(pos) && Nested() && pos < |src|
      modifies this
      ensures ReadyAt(pos) && Nested() && pos > old(pos) && errors >= old(errors)
    {
      var start, c := pos, src[pos];
      pos := pos + 1;
      if c == '(' { MayEmit(LParen, start); OpenBracket(LParen, start); }
      else if c == '[' { MayEmit(LBracket, start); OpenBracket(LBracket, start); }
      else if c == '{' { MayEmit(LBrace, start); OpenBracket(LBrace, start); }
      else if c == ')' { CloseParen(start); }
      else if c == ']' { MayEmit(RBracket, start); CloseBracket(RBracket, start); }
      else if c == '}' { MayEmit(RBrace, start); CloseBracket(RBrace, start); }
      else if c == '"' { ScanString(start, false); }
      else if c == '\'' { ScanChar(start); }
      else if StartsOperator(c) { ScanOperator(start, c); }
      else if c == 'b' && Peek(0) == '"' {
        pos := pos + 1;
        ScanString(start, true);
      }
      else if IsDigit(c) { ScanNumber(start); }
      else if IsWordStart(c) { ScanWord(start); }
      else { Fail(start); }
    }

    method ScanOperator(start: nat, c: char)
      requires ReadyAt(start) && Nested() && pos == start + 1 && c == src[start] && StartsOperator(c)
      modifies this
      ensures ReadyAt(pos) && Nested() && pos >= old(pos) && errors == old(errors)
      ensures out == old(out) + [Token(Operator, start, src[start..pos])]
      ensures pos == old(pos) + OperatorTail(c, old(Peek(0)), old(Peek(1)))
    {
      var c1, c2 := Peek(0), Peek(1);
      var tail := OperatorTail(c, c1, c2);
      LongestOperator(c, c1, c2, tail);
      SliceOf(src, start, tail, c, c1, c2);
      pos := pos + tail;
      MayEmit(Operator, start);
      EmitPlain(Operator, start);
    }

    /** The whole text.  Unless the error limit cut it off, every character is in a token or in
        trivia, or in a comment that was reported as never closed; and without errors the tokens
        of interpolated strings nest as the counters say, or some closing bracket did not match. */
    method Tokenize() returns (ghost body: seq<Token>)
      requires pos == 0 && out == [] && errors == 0 && Valid() && Nested()
      modifies this
      ensures out == body + [Token(Eof, pos, "")] && Tiled(src, body)
      ensures errors < limit ==> pos == |src| && (Gap(src, End(body), pos) || (errors > 0 && OpenGap(src, End(body))))
      ensures errors == 0 ==> NestedAt(Nest(body), depth, splices)
    {
      while pos < |src|
        invariant ReadyAt(pos) && Nested()
        decreases |src| - pos
      {
        SkipTrivia();
        if pos >= |src| { break; }
        ScanToken();
        if errors >= limit { break; }
      }
      body := out;
      out := out + [Token(Eof, pos, "")];
    }
  }
}
