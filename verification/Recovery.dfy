/** Declarations and error recovery: where the declaration parser moves its cursor, and why its
    loops end on every token list. */
module Recovery {
  datatype Kind =
    | Newline | Semicolon | LBrace | RBrace | LParen | RParen | Comma | Colon | Dot | Arrow | Amp | Dollar | At
    | Identifier
    | KwFunc | KwStruct | KwEnum | KwProtocol | KwExtension | KwOpaque | KwConst | KwStatic | KwImport | KwModule
    | KwDerive | KwLinear | KwComptime | KwAsync | KwInout | KwSink | KwDeinit | KwLet | KwVar | KwEmbed | KwCase | KwType
    | KwPublic | KwPrivate | KwPackage | KwInternal
    | Other(spelling: string)
    | Eof

  /** Productions below the declarations: each reads some tokens and reports some errors. */
  datatype Part = Type | Block | Generics | Params | Effects | Where | Splice | Attribute | Path | Rest

  predicate IsVisibility(k: Kind) { k.KwPublic? || k.KwPrivate? || k.KwPackage? || k.KwInternal? }

  /** Where recovery stops without reading further. */
  predicate StartsDecl(k: Kind) {
    || k.KwFunc? || k.KwStruct? || k.KwEnum? || k.KwProtocol? || k.KwExtension? || k.KwOpaque? || k.KwConst?
    || k.KwStatic? || k.KwImport? || k.KwModule? || k.KwDerive? || k.At? || IsVisibility(k) || k.Eof?
  }

  /** Only allowed before the first declaration. */
  predicate IsHeader(k: Kind) { k.KwImport? || k.KwModule? }

  /** The tokens `from..to` that a declaration was read from. */
  datatype Span = Span(from: nat, to: nat)

  /** No span is empty, and each starts behind the one before it. */
  predicate Apart(spans: seq<Span>, end: nat) {
    && (forall i | 0 <= i < |spans| :: spans[i].from < spans[i].to <= end)
    && (forall i, j | 0 <= i < j < |spans| :: spans[i].to <= spans[j].from)
  }

  class DeclParser {
    const tokens: seq<Kind>
    const cap: nat                        // the reporter asks to stop at this many errors
    const spent: (Part, nat) -> nat       // how far each part reads, from each place
    const faults: (Part, nat) -> nat      // and what it reports
    var pos: nat
    var errors: nat

    /** The list ends in its only Eof, and the cursor is on a token. */
    ghost predicate Valid()
      reads this
    {
      && pos < |tokens| && tokens[|tokens| - 1] == Eof
      && forall i | 0 <= i < |tokens| - 1 :: tokens[i] != Eof
    }

    constructor (tokens: seq<Kind>, cap: nat, spent: (Part, nat) -> nat, faults: (Part, nat) -> nat)
      requires tokens != [] && tokens[|tokens| - 1] == Eof && forall i | 0 <= i < |tokens| - 1 :: tokens[i] != Eof
      ensures Valid() && pos == 0 && errors == 0 && this.tokens == tokens && this.cap == cap
    {
      this.tokens, this.cap, this.spent, this.faults := tokens, cap, spent, faults;
      pos, errors := 0, 0;
    }

    function Peek(): (k: Kind)
      requires Valid()
      reads this
      ensures k.Eof? <==> pos == |tokens| - 1
    {
      tokens[pos]
    }

    predicate NextIs(k: Kind)
      requires Valid()
      reads this
    {
      pos + 1 < |tokens| && tokens[pos + 1] == k
    }

    // ----------------------------------------------------------------- cursor

    method Advance()
      requires Valid()
      modifies `pos
      ensures Valid() && pos == if old(Peek()).Eof? then old(pos) else old(pos) + 1
    {
      if pos + 1 < |tokens| { pos := pos + 1; }
    }

    method Match(k: Kind) returns (matched: bool)
      requires Valid() && k != Eof
      modifies `pos
      ensures Valid() && matched == (old(Peek()) == k) && pos == if matched then old(pos) + 1 else old(pos)
    {
      matched := Peek() == k;
      if matched { Advance(); }
    }

    method Expect(k: Kind)
      requires Valid() && k != Eof
      modifies this
      ensures Valid() && old(pos) <= pos && errors >= old(errors)
    {
      var matched := Match(k);
      if !matched { errors := errors + 1; }
    }

    /** A name, or one error. */
    method Name()
      requires Valid()
      modifies this
      ensures Valid() && old(pos) <= pos && errors >= old(errors)
    {
      if Peek() == Identifier { Advance(); } else { errors := errors + 1; }
    }

    method SkipNewlines()
      requires Valid()
      modifies `pos
      ensures Valid() && old(pos) <= pos && Peek() != Newline && Peek() != Semicolon
      ensures forall i | old(pos) <= i < pos :: tokens[i] == Newline || tokens[i] == Semicolon
    {
      while Peek() == Newline || Peek() == Semicolon
        invariant Valid() && old(pos) <= pos
        invariant forall i | old(pos) <= i < pos :: tokens[i] == Newline || tokens[i] == Semicolon
        decreases |tokens| - pos
      {
        Advance();
      }
    }

    /** Past the first newline, or to the first token that may start a declaration, whichever
        comes first. */
    method SyncToDecl()
      requires Valid()
      modifies `pos
      ensures Valid() && old(pos) <= pos
      ensures StartsDecl(old(Peek())) ==> pos == old(pos)
      ensures !StartsDecl(old(Peek())) ==> old(pos) < pos
      ensures StartsDecl(Peek()) || tokens[pos - 1] == Newline
      ensures forall i | old(pos) <= i < pos :: !StartsDecl(tokens[i]) && (tokens[i] == Newline ==> i == pos - 1)
    {
      while !Peek().Eof?
        invariant Valid() && old(pos) <= pos
        invariant forall i | old(pos) <= i < pos :: !StartsDecl(tokens[i]) && tokens[i] != Newline
        decreases |tokens| - pos
      {
        if Peek() == Newline {
          Advance();
          return;
        }
        if StartsDecl(Peek()) { return; }
        Advance();
      }
    }

    /** A production below the declarations. */
    method Read(part: Part)
      requires Valid()
      modifies this
      ensures Valid() && old(pos) <= pos && errors >= old(errors)
    {
      errors := errors + faults(part, pos);
      pos := if pos + spent(part, pos) < |tokens| then pos + spent(part, pos) else |tokens| - 1;
    }

    method ReadAttributes()
      requires Valid()
      modifies this
      ensures Valid() && old(pos) <= pos && errors >= old(errors)
      ensures if old(Peek()) == At then old(pos) < pos else pos == old(pos) && errors == old(errors)
    {
      while Peek() == At
        invariant Valid() && old(pos) <= pos && errors >= old(errors)
        invariant if old(Peek()) == At then old(pos) < pos || Peek() == At else pos == old(pos) && errors == old(errors)
        decreases |tokens| - pos
      {
        Advance();
        if Peek() != Identifier {
          errors := errors + 1;
          return;
        }
        Advance();
        var args := Match(LParen);
        if args {
          Read(Attribute);
          Expect(RParen);
        }
        SkipNewlines();
      }
    }

    // ----------------------------------------------------------- declarations

    /** Where a modifier was the last token there is nothing left to read. */
    method ReadFunc()
      requires Valid()
      modifies this
      ensures Valid() && old(pos) <= pos && errors >= old(errors) && (!old(Peek()).Eof? ==> old(pos) < pos)
    {
      Advance();
      if Peek() == Dollar { Read(Splice); } else { Name(); }
      Read(Generics);
      Read(Params);
      Read(Effects);
      var arrow := Match(Arrow);
      if arrow { Read(Type); }
      Read(Where);
      if Peek() == LBrace { Read(Block); }
    }

    method ReadTypes(separator: Kind)
      requires Valid() && separator != Eof
      modifies this
      ensures Valid() && old(pos) <= pos && errors >= old(errors)
    {
      Read(Type);
      var more := Match(separator);
      while more
        invariant Valid() && old(pos) <= pos && errors >= old(errors)
        decreases |tokens| - pos, more
      {
        Read(Type);
        more := Match(separator);
      }
    }

    /** In every body below: recover, and leave the body where recovery does not move. */
    method Recover() returns (moved: bool)
      requires Valid()
      modifies `pos
      ensures Valid() && moved == (old(pos) < pos) && old(pos) <= pos
      ensures moved <==> !StartsDecl(old(Peek()))
    {
      var before := pos;
      SyncToDecl();
      moved := pos != before;
    }

    method ReadStruct()
      requires Valid() && !Peek().Eof?
      modifies this
      ensures Valid() && old(pos) < pos && errors >= old(errors)
    {
      Advance();
      Name();
      Read(Generics);
      Expect(LBrace);
      SkipNewlines();
      var open := true;
      while open && Peek() != RBrace && !Peek().Eof?
        invariant Valid() && old(pos) < pos && errors >= old(errors)
        decreases |tokens| - pos, open
      {
        open := ReadStructMember();
      }
      Expect(RBrace);
    }

    method ReadMethod()
      requires Valid() && Peek() in {KwFunc, KwAsync, KwInout, KwSink}
      modifies this
      ensures Valid() && old(pos) < pos && errors >= old(errors)
    {
      var isAsync := Match(KwAsync);
      var isInout := Match(KwInout);
      var isSink := Match(KwSink);
      ReadFunc();
    }

    method ReadStructMember() returns (open: bool)
      requires Valid() && !Peek().Eof?
      modifies this
      ensures Valid() && old(pos) <= pos && errors >= old(errors) && (open ==> old(pos) < pos)
    {
      ReadAttributes();
      if Peek() in {KwFunc, KwAsync, KwInout, KwSink} {
        ReadMethod();
        SkipNewlines();
        return true;
      }
      var isDeinit := Match(KwDeinit);
      if isDeinit {
        Read(Block);
        SkipNewlines();
        return true;
      }
      if Peek() !in {KwLet, KwVar, KwEmbed} {
        errors := errors + 1;
        open := Recover();
        return;
      }
      Advance();
      Name();
      Expect(Colon);
      Read(Type);
      SkipNewlines();
      return true;
    }

    method ReadEnum()
      requires Valid() && !Peek().Eof?
      modifies this
      ensures Valid() && old(pos) < pos && errors >= old(errors)
    {
      Advance();
      Name();
      Read(Generics);
      Expect(LBrace);
      SkipNewlines();
      var open := true;
      while open && Peek() != RBrace && !Peek().Eof?
        invariant Valid() && old(pos) < pos && errors >= old(errors)
        decreases |tokens| - pos, open
      {
        open := ReadEnumMember();
        if open { SkipNewlines(); }
      }
      Expect(RBrace);
    }

    method ReadEnumMember() returns (open: bool)
      requires Valid() && !Peek().Eof?
      modifies this
      ensures Valid() && old(pos) <= pos && errors >= old(errors) && (open ==> old(pos) < pos)
    {
      var isCase := Match(KwCase);
      if isCase {
        Name();
        var payload := Match(LParen);
        if payload { ReadPayload(); }
        return true;
      }
      ReadAttributes();
      if Peek() == KwFunc {
        ReadFunc();
        return true;
      }
      errors := errors + 1;
      open := Recover();
    }

    method ReadPayload()
      requires Valid()
      modifies this
      ensures Valid() && old(pos) <= pos && errors >= old(errors)
    {
      var more := Peek() != RParen;
      while more
        invariant Valid() && old(pos) <= pos && errors >= old(errors)
        decreases |tokens| - pos, more
      {
        if Peek() == Identifier && NextIs(Colon) {
          Advance();
          Advance();
        }
        Read(Type);
        more := Match(Comma);
      }
      Expect(RParen);
    }

    method ReadProtocol()
      requires Valid() && !Peek().Eof?
      modifies this
      ensures Valid() && old(pos) < pos && errors >= old(errors)
    {
      Advance();
      Name();
      Read(Generics);
      var refining := Match(Colon);
      if refining { ReadTypes(Comma); }
      Expect(LBrace);
      SkipNewlines();
      var open := true;
      while open && Peek() != RBrace && !Peek().Eof?
        invariant Valid() && old(pos) < pos && errors >= old(errors)
        decreases |tokens| - pos, open
      {
        open := ReadRequirement();
        if open { SkipNewlines(); }
      }
      Expect(RBrace);
    }

    /** A modifier that no function follows is read, and recovery may then stay where it is: the
        body is left even so. */
    method ReadRequirement() returns (open: bool)
      requires Valid() && !Peek().Eof?
      modifies this
      ensures Valid() && old(pos) <= pos && errors >= old(errors) && (open ==> old(pos) < pos)
    {
      var assoc := Match(KwType);
      if assoc {
        Name();
        var bound := Match(Colon);
        if bound { ReadTypes(Amp); }
        return true;
      }
      var isAsync := Match(KwAsync);
      var isInout := Match(KwInout);
      var isSink := Match(KwSink);
      if Peek() != KwFunc && Peek() != KwComptime {
        errors := errors + 1;
        open := Recover();
        return;
      }
      var isComptime := Match(KwComptime);
      ReadFunc();
      return true;
    }

    method ReadExtension()
      requires Valid() && !Peek().Eof?
      modifies this
      ensures Valid() && old(pos) < pos && errors >= old(errors)
      decreases |tokens| - pos, 0
    {
      Advance();
      Read(Type);
      var conforms := Match(Colon);
      if conforms { ReadTypes(Comma); }
      Expect(LBrace);
      SkipNewlines();
      var open := true;
      while open && Peek() != RBrace && !Peek().Eof?
        invariant Valid() && old(pos) < pos && errors >= old(errors)
        decreases |tokens| - pos, open
      {
        ReadAttributes();
        var read := ReadDecl();
        if !read { open := Recover(); }
        if open { SkipNewlines(); }
      }
      Expect(RBrace);
    }

    /** A declaration, or one error, and then only modifiers have been read. */
    method ReadDecl() returns (read: bool)
      requires Valid()
      modifies this
      ensures Valid() && old(pos) <= pos && errors >= old(errors)
      ensures if read then old(pos) < pos else errors > old(errors)
      ensures IsHeader(old(Peek())) || old(Peek()).Eof? ==> !read && pos == old(pos) && errors == old(errors) + 1
      ensures !read && pos == old(pos) && StartsDecl(Peek()) ==> IsHeader(Peek()) || Peek() == At || Peek().Eof?
      decreases |tokens| - pos, 2
    {
      ReadModifiers();
      read := ReadKeyword();
    }

    method ReadModifiers()
      requires Valid()
      modifies `pos
      ensures Valid() && old(pos) <= pos
      ensures pos == old(pos) <==>
        !(|| IsVisibility(old(Peek())) || old(Peek()) == KwAsync
          || (old(Peek()) == KwComptime && old(NextIs(KwFunc) || NextIs(KwAsync) || NextIs(KwInout) || NextIs(KwSink)))
          || ((old(Peek()) == KwInout || old(Peek()) == KwSink) && old(NextIs(KwFunc))))
    {
      if IsVisibility(Peek()) { Advance(); }
      if Peek() == KwComptime && (NextIs(KwFunc) || NextIs(KwAsync) || NextIs(KwInout) || NextIs(KwSink)) { Advance(); }
      var isAsync := Match(KwAsync);
      if (Peek() == KwInout || Peek() == KwSink) && NextIs(KwFunc) { Advance(); }
    }

    /** The declaration that the next keyword starts. */
    method ReadKeyword() returns (read: bool)
      requires Valid()
      modifies this
      ensures Valid() && old(pos) <= pos && errors >= old(errors)
      ensures if read then old(pos) < pos else errors == old(errors) + 1 && old(pos) <= pos <= old(pos) + 1
      ensures pos == old(pos) ==> !read && (StartsDecl(Peek()) ==> IsHeader(Peek()) || IsVisibility(Peek()) || Peek() == At || Peek().Eof?)
      ensures IsHeader(old(Peek())) || old(Peek()).Eof? ==> !read && pos == old(pos)
      decreases |tokens| - pos, 1
    {
      match Peek() {
        case KwFunc => ReadFunc();
        case KwStruct => ReadStruct();
        case KwLinear =>
          Advance();
          if Peek() != KwStruct {
            errors := errors + 1;
            return false;
          }
          ReadStruct();
        case KwEnum => ReadEnum();
        case KwProtocol => ReadProtocol();
        case KwExtension => ReadExtension();
        case KwOpaque | KwConst | KwStatic | KwDerive =>
          Advance();
          Read(Rest);
        case _ =>
          errors := errors + 1;
          return false;
      }
      return true;
    }

    // -------------------------------------------------------------- the unit

    /** One turn of the top-level loop.  It moves the cursor unless it finds a `module` or an
        `import`, which may only stand before the first declaration; then all it does is report. */
    method Turn() returns (decl: seq<Span>)
      requires Valid() && !Peek().Eof?
      modifies this
      ensures Valid() && old(pos) <= pos && errors >= old(errors)
      ensures pos == old(pos) <==> IsHeader(old(Peek()))
      ensures pos == old(pos) ==> decl == [] && errors == old(errors) + 1
      ensures |decl| <= 1 && forall d | d in decl :: old(pos) <= d.from < d.to <= pos
    {
      ReadAttributes();
      if Peek().Eof? { return []; }
      var from := pos;
      var read := ReadDecl();
      if read {
        decl := [Span(from, pos)];
      } else {
        decl := [];
        SyncToDecl();
      }
      SkipNewlines();
    }

    /** The loop ends on every token list: each turn leaves fewer tokens, or fewer errors before
        the cap.  It reads everything unless the cap is reached; and it reaches the cap, without
        moving, wherever a `module` or an `import` stands behind a declaration. */
    method ReadDecls() returns (decls: seq<Span>, ghost turns: nat)
      requires Valid()
      modifies this
      ensures Valid() && old(pos) <= pos && errors >= old(errors)
      ensures Peek().Eof? || errors >= cap
      ensures turns <= (pos - old(pos)) + (if old(errors) < cap then cap - old(errors) else 0)
      ensures Apart(decls, pos)
      ensures IsHeader(old(Peek())) && old(errors) < cap ==> pos == old(pos) && errors == cap && decls == []
    {
      decls, turns := [], 0;
      while !Peek().Eof? && errors < cap
        invariant Valid() && old(pos) <= pos && errors >= old(errors) && Apart(decls, pos)
        invariant turns <= (pos - old(pos)) + Used(old(errors), errors)
        invariant IsHeader(old(Peek())) && old(errors) < cap ==> pos == old(pos) && errors <= cap && decls == []
        decreases |tokens| - pos, if errors < cap then cap - errors else 0
      {
        var decl := Turn();
        decls := decls + decl;
        turns := turns + 1;
      }
    }

    /** How many of the errors between two counts came before the cap. */
    function Used(before: nat, now: nat): nat
      requires before <= now
    {
      (if now < cap then now else cap) - (if before < cap then before else cap)
    }

    /** The whole unit: at most one `module`, then `import`s, then declarations. */
    method ReadUnit() returns (decls: seq<Span>)
      requires Valid() && pos == 0 && errors == 0
      modifies this
      ensures Valid() && (Peek().Eof? || errors >= cap) && Apart(decls, pos)
    {
      SkipNewlines();
      if Peek() == KwModule {
        Advance();
        Read(Path);
        SkipNewlines();
      }
      while Peek() == KwImport
        invariant Valid()
        decreases |tokens| - pos
      {
        Advance();
        Read(Path);
        SkipNewlines();
      }
      ghost var turns;
      decls, turns := ReadDecls();
    }
  }
}
