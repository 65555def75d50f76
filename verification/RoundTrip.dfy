/** The parser inverts spelling, on exactly the precedence-normal trees. */
module RoundTrip {
  import opened Syntax
  import opened Pratt
  import opened PrattSound
  import opened PrattComplete

  /** A parse is error-free and returns `e` exactly when `e` is normal, the tokens read spell it,
      and the next token does not continue it. */
  lemma ParseIffSpelled(tab: Table, ts: Tokens, min: nat, e: Expr, rest: Tokens)
    requires Closes(Peek(rest))
    ensures ParseBp(tab, ts, min) == Parsed(e, rest, 0) <==>
      Normal(tab, e, min) && ts == Spell(e, rest) && Stops(tab, Peek(rest), min)
  {
    BpSound(tab, ts, min);
    if Normal(tab, e, min) && ts == Spell(e, rest) && Stops(tab, Peek(rest), min) {
      BpStops(tab, e, rest, min);
    }
  }

  /** Two normal trees spelled alike are one tree: the grammar is unambiguous. */
  lemma SpellingIsUnique(tab: Table, min: nat, e1: Expr, rest1: Tokens, e2: Expr, rest2: Tokens)
    requires Normal(tab, e1, min) && Closes(Peek(rest1)) && Stops(tab, Peek(rest1), min)
    requires Normal(tab, e2, min) && Closes(Peek(rest2)) && Stops(tab, Peek(rest2), min)
    requires Spell(e1, rest1) == Spell(e2, rest2)
    ensures e1 == e2 && rest1 == rest2
  {
    BpStops(tab, e1, rest1, min);
    BpStops(tab, e2, rest2, min);
  }

  /** A text `printed` in front of `x` is no longer than `spelled` in front of `y` allows, and is
      that spelling exactly when the tree is faithful and `x` is `y`. */
  predicate Mirrors(printed: Tokens, spelled: Tokens, faithful: bool, x: Tokens, y: Tokens) {
    && Len(spelled) >= Len(y)
    && Len(spelled) - Len(printed) >= Len(y) - Len(x)
    && (printed == spelled <==> faithful && x == y)
  }
}
