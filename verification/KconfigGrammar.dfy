/** The grammar of Kconfig expressions, and that the parser accepts exactly what it derives. */
module KconfigGrammar {
  import opened KconfigExpr

  /** The tokens from i up to j are an expression: an and-expression, or one and || and an expression. */
  ghost predicate IsExpr(t: seq<Token>, i: nat, j: nat, e: Expr)
    requires i <= j <= |t|
    decreases j - i, 2
  {
    || IsAnd(t, i, j, e)
    || (e.Or? && exists k: nat :: i < k < j && t[k] == TOr && IsAnd(t, i, k, e.l) && IsExpr(t, k + 1, j, e.r))
  }

  /** A factor, or one and && and an and-expression. */
  ghost predicate IsAnd(t: seq<Token>, i: nat, j: nat, e: Expr)
    requires i <= j <= |t|
    decreases j - i, 1
  {
    || IsFactor(t, i, j, e)
    || (e.And? && exists k: nat :: i < k < j && t[k] == TAnd && IsFactor(t, i, k, e.l) && IsAnd(t, k + 1, j, e.r))
  }

  /** A symbol, a relation, a negated factor or an expression in parentheses. */
  ghost predicate IsFactor(t: seq<Token>, i: nat, j: nat, e: Expr)
    requires i <= j <= |t|
    decreases j - i, 0
  {
    || (j == i + 1 && e.Sym? && t[i] == TSym(e.s))
    || (j == i + 3 && e.Relation? && t[i] == TSym(e.a) && t[i + 1] == TRel(e.op) && t[i + 2] == TSym(e.b))
    || (j > i && t[i] == TNot && e.Not? && IsFactor(t, i + 1, j, e.e))
    || (j > i + 1 && t[i] == TOpen && t[j - 1] == TClose && IsExpr(t, i + 1, j - 1, e))
  }

  // ---- what is parsed is derived

  lemma {:induction false} ExprSound(t: seq<Token>, i: nat)
    requires ParseExpr(t, i, Plain).Ok?
    ensures var p := ParseExpr(t, i, Plain); IsExpr(t, i, p.i, p.e)
    decreases |t| - i, 2
  {
    AndSound(t, i);
    var p := ParseAnd(t, i, Plain);
    if At(t, p.i) == TOr {
      ExprSound(t, p.i + 1);
      assert t[p.i] == TOr;
    }
  }

  lemma {:induction false} AndSound(t: seq<Token>, i: nat)
    requires ParseAnd(t, i, Plain).Ok?
    ensures var p := ParseAnd(t, i, Plain); IsAnd(t, i, p.i, p.e)
    decreases |t| - i, 1
  {
    FactorSound(t, i);
    var p := ParseFactor(t, i, Plain);
    if At(t, p.i) == TAnd {
      AndSound(t, p.i + 1);
      assert t[p.i] == TAnd;
    }
  }

  lemma {:induction false} FactorSound(t: seq<Token>, i: nat)
    requires ParseFactor(t, i, Plain).Ok?
    ensures var p := ParseFactor(t, i, Plain); IsFactor(t, i, p.i, p.e)
    decreases |t| - i, 0
  {
    if At(t, i) == TNot { FactorSound(t, i + 1); }
    if At(t, i) == TOpen { ExprSound(t, i + 1); }
  }

  // ---- what is derived is parsed

  lemma {:induction false} ExprComplete(t: seq<Token>, i: nat, j: nat, e: Expr)
    requires i <= j <= |t| && IsExpr(t, i, j, e) && !At(t, j).TRel? && At(t, j) != TAnd && At(t, j) != TOr
    ensures ParseExpr(t, i, Plain) == Ok(e, j)
    decreases j - i, 2
  {
    if IsAnd(t, i, j, e) {
      AndComplete(t, i, j, e);
    } else {
      var k: nat :| i < k < j && t[k] == TOr && IsAnd(t, i, k, e.l) && IsExpr(t, k + 1, j, e.r);
      AndComplete(t, i, k, e.l);
      ExprComplete(t, k + 1, j, e.r);
    }
  }

  lemma {:induction false} AndComplete(t: seq<Token>, i: nat, j: nat, e: Expr)
    requires i <= j <= |t| && IsAnd(t, i, j, e) && !At(t, j).TRel? && At(t, j) != TAnd
    ensures ParseAnd(t, i, Plain) == Ok(e, j)
    decreases j - i, 1
  {
    if IsFactor(t, i, j, e) {
      FactorComplete(t, i, j, e);
    } else {
      var k: nat :| i < k < j && t[k] == TAnd && IsFactor(t, i, k, e.l) && IsAnd(t, k + 1, j, e.r);
      FactorComplete(t, i, k, e.l);
      AndComplete(t, k + 1, j, e.r);
    }
  }

  lemma {:induction false} FactorComplete(t: seq<Token>, i: nat, j: nat, e: Expr)
    requires i <= j <= |t| && IsFactor(t, i, j, e) && !At(t, j).TRel?
    ensures ParseFactor(t, i, Plain) == Ok(e, j)
    decreases j - i, 0
  {
    if t[i] == TNot {
      FactorComplete(t, i + 1, j, e.e);
    } else if t[i] == TOpen {
      ExprComplete(t, i + 1, j - 1, e);
    }
  }

  /** The parser accepts a text exactly if the grammar derives it, and gives the derived expression. */
  lemma ParsesIff(t: seq<Token>, e: Expr)
    ensures ParseExpr(t, 0, Plain) == Ok(e, |t|) <==> IsExpr(t, 0, |t|, e)
  {
    if ParseExpr(t, 0, Plain).Ok? { ExprSound(t, 0); }
    if IsExpr(t, 0, |t|, e) { ExprComplete(t, 0, |t|, e); }
  }

  /** No text has two meanings. */
  lemma Unambiguous(t: seq<Token>, e: Expr, e': Expr)
    requires IsExpr(t, 0, |t|, e) && IsExpr(t, 0, |t|, e')
    ensures e == e'
  {
    ParsesIff(t, e);
    ParsesIff(t, e');
  }

  /** With the rewrite the parser accepts the same texts, and rewrites what it derives. */
  lemma RewritingParsesIff(t: seq<Token>, e: Expr, w: Rewrite)
    ensures ParseExpr(t, 0, w) == Ok(e, |t|) <==> exists d :: IsExpr(t, 0, |t|, d) && e == Rewritten(d, w)
  {
    ExprRewrites(t, 0, w);
    var p := ParseExpr(t, 0, Plain);
    if p.Ok? { ParsesIff(t, p.e); }
    if d :| IsExpr(t, 0, |t|, d) && e == Rewritten(d, w) { ParsesIff(t, d); }
  }
}
