/** The expression parser over its token list and cursor. */
module KconfigParser {
  import opened KconfigExpr

  class Parser {
    const tokens: seq<Token>      // _tokens, without the terminator
    var next: nat                 // _tokens_i + 1

    constructor (tokens: seq<Token>)
      ensures this.tokens == tokens && next == 0
    {
      this.tokens, next := tokens, 0;
    }

    /** _next_token. */
    method NextToken() returns (x: Token)
      modifies this
      ensures x == At(tokens, old(next)) && next == old(next) + 1
    {
      x := if next < |tokens| then tokens[next] else TEnd;
      next := next + 1;
    }

    /** _check_token: takes the next token if it is x. */
    method CheckToken(x: Token) returns (yes: bool)
      modifies this
      ensures yes == (At(tokens, old(next)) == x) && next == if yes then old(next) + 1 else old(next)
    {
      yes := (if next < |tokens| then tokens[next] else TEnd) == x;
      if yes {
        next := next + 1;
      }
    }

    /** What a parsing method must do: give the expression and move behind it, or fail. */
    ghost predicate Did(p: Parsed, e: Expr, ok: bool)
      reads this
    {
      ok == p.Ok? && (ok ==> e == p.e && next == p.i)
    }

    /** _parse_expr; ok is false where it raises an error. */
    method ParseExprHere(w: Rewrite) returns (e: Expr, ok: bool)
      modifies this
      ensures Did(ParseExpr(tokens, old(next), w), e, ok)
      decreases |tokens| - next, 2
    {
      e, ok := ParseAndHere(w);
      if ok {
        var more := CheckToken(TOr);
        if more {
          var r;
          r, ok := ParseExprHere(w);
          e := Or(e, r);
        }
      }
    }

    /** _parse_and_expr. */
    method ParseAndHere(w: Rewrite) returns (e: Expr, ok: bool)
      modifies this
      ensures Did(ParseAnd(tokens, old(next), w), e, ok)
      decreases |tokens| - next, 1
    {
      e, ok := ParseFactorHere(w);
      if ok {
        var more := CheckToken(TAnd);
        if more {
          var r;
          r, ok := ParseAndHere(w);
          e := And(e, r);
        }
      }
    }

    /** _parse_factor. */
    method ParseFactorHere(w: Rewrite) returns (e: Expr, ok: bool)
      modifies this
      ensures Did(ParseFactor(tokens, old(next), w), e, ok)
      decreases |tokens| - next, 0
    {
      var token := NextToken();
      if token.TSym? {
        if !At(tokens, next).TRel? {
          if w.Modules? && token.s == w.m {
            return And(Sym(w.m), Sym(w.modules)), true;
          }
          return Sym(token.s), true;
        }
        var op := NextToken();
        var b := NextToken();
        if !b.TSym? {
          return Sym(token.s), false;
        }
        return Relation(op.op, token.s, b.s), true;
      }
      if token == TNot {
        e, ok := ParseFactorHere(w);
        e := Not(e);
        return;
      }
      if token == TOpen {
        e, ok := ParseExprHere(w);
        if ok {
          ok := CheckToken(TClose);
        }
        return;
      }
      return Sym(0), false;
    }
  }

  /** A printed expression is read back to the last token as its right-nested form, with m rewritten if asked for. */
  method Reparse(e: Expr, w: Rewrite) returns (r: Expr, ok: bool)
    ensures ok && r == Rewritten(Renest(e), w)
    ensures w.Plain? ==> Print(r) == Print(e) && (r == e <==> RightNested(e))
  {
    RoundTripIsIdentityIff(e);
    RoundTrip(e, [], [], w);
    PlainStays(Renest(e));
    assert [] + Print(e) + [] == Print(e);
    RenestPrints(e);
    var p := new Parser(Print(e));
    r, ok := p.ParseExprHere(w);
  }
}
