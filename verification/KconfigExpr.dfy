/** Kconfig expressions: printing, parsing and tristate values. */
module KconfigExpr {
  import opened Basics

  datatype Rel = Equal | Unequal | Less | LessEqual | Greater | GreaterEqual

  /** Symbols are named by numbers. */
  datatype Expr = Sym(s: int) | And(l: Expr, r: Expr) | Or(l: Expr, r: Expr) | Not(e: Expr) | Relation(op: Rel, a: int, b: int)

  datatype Token = TSym(s: int) | TRel(op: Rel) | TAnd | TOr | TNot | TOpen | TClose | TEnd

  // ---- printing

  /** _parenthesize around a printed expression. */
  function Wrapped(p: seq<Token>, yes: bool): seq<Token>
  {
    if yes then [TOpen] + p + [TClose] else p
  }

  /** expr_str, as tokens. */
  function Print(e: Expr): seq<Token>
  {
    match e
    case Sym(s) => [TSym(s)]
    case And(l, r) => Wrapped(Print(l), l.Or?) + [TAnd] + Wrapped(Print(r), r.Or?)
    case Or(l, r) => Wrapped(Print(l), l.And?) + [TOr] + Wrapped(Print(r), r.And?)
    case Not(x) => [TNot] + Wrapped(Print(x), !x.Sym?)
    case Relation(op, a, b) => [TSym(a), TRel(op), TSym(b)]
  }

  // ---- parsing

  /** The m symbol and the MODULES symbol, when m is to be rewritten to m && MODULES. */
  datatype Rewrite = Plain | Modules(m: int, modules: int)

  datatype Parsed = Ok(e: Expr, i: nat) | Malformed

  /** The token list ends in a terminator. */
  function At(t: seq<Token>, i: nat): Token
  {
    if i < |t| then t[i] else TEnd
  }

  /** _parse_expr from token i on. */
  function ParseExpr(t: seq<Token>, i: nat, w: Rewrite): (p: Parsed)
    ensures p.Ok? ==> i < p.i <= |t|
    decreases |t| - i, 2
  {
    var p := ParseAnd(t, i, w);
    if p.Ok? && At(t, p.i) == TOr then
      var q := ParseExpr(t, p.i + 1, w);
      if q.Ok? then Ok(Or(p.e, q.e), q.i) else Malformed
    else p
  }

  /** _parse_and_expr. */
  function ParseAnd(t: seq<Token>, i: nat, w: Rewrite): (p: Parsed)
    ensures p.Ok? ==> i < p.i <= |t|
    decreases |t| - i, 1
  {
    var p := ParseFactor(t, i, w);
    if p.Ok? && At(t, p.i) == TAnd then
      var q := ParseAnd(t, p.i + 1, w);
      if q.Ok? then Ok(And(p.e, q.e), q.i) else Malformed
    else p
  }

  /** _parse_factor. */
  function ParseFactor(t: seq<Token>, i: nat, w: Rewrite): (p: Parsed)
    ensures p.Ok? ==> i < p.i <= |t|
    decreases |t| - i, 0
  {
    match At(t, i)
    case TSym(s) =>
      if At(t, i + 1).TRel? then (if At(t, i + 2).TSym? then Ok(Relation(At(t, i + 1).op, s, At(t, i + 2).s), i + 3) else Malformed)
      else if w.Modules? && s == w.m then Ok(And(Sym(w.m), Sym(w.modules)), i + 1)
      else Ok(Sym(s), i + 1)
    case TNot =>
      var p := ParseFactor(t, i + 1, w);
      if p.Ok? then Ok(Not(p.e), p.i) else Malformed
    case TOpen =>
      var p := ParseExpr(t, i + 1, w);
      if p.Ok? && At(t, p.i) == TClose then Ok(p.e, p.i + 1) else Malformed
    case TRel(_) => Malformed
    case TAnd => Malformed
    case TOr => Malformed
    case TClose => Malformed
    case TEnd => Malformed
  }

  // ---- nesting to the right

  /** a && b, with the operands of a chained in front of b. */
  function JoinAnd(a: Expr, b: Expr): (r: Expr)
    ensures r.And?
  {
    if a.And? then And(a.l, JoinAnd(a.r, b)) else And(a, b)
  }

  function JoinOr(a: Expr, b: Expr): (r: Expr)
    ensures r.Or?
  {
    if a.Or? then Or(a.l, JoinOr(a.r, b)) else Or(a, b)
  }

  /** The same expression with every chain of && and of || nested to the right. */
  function Renest(e: Expr): (r: Expr)
    ensures (r.And? <==> e.And?) && (r.Or? <==> e.Or?) && (r.Sym? <==> e.Sym?)
  {
    match e
    case Sym(_) => e
    case And(l, r) => JoinAnd(Renest(l), Renest(r))
    case Or(l, r) => JoinOr(Renest(l), Renest(r))
    case Not(x) => Not(Renest(x))
    case Relation(_, _, _) => e
  }

  /** No && is the left operand of a &&, and no || of a ||. */
  predicate RightNested(e: Expr)
  {
    match e
    case Sym(_) => true
    case And(l, r) => !l.And? && RightNested(l) && RightNested(r)
    case Or(l, r) => !l.Or? && RightNested(l) && RightNested(r)
    case Not(x) => RightNested(x)
    case Relation(_, _, _) => true
  }

  lemma {:induction false} JoinAndAssoc(a: Expr, b: Expr, c: Expr)
    ensures JoinAnd(a, JoinAnd(b, c)) == JoinAnd(JoinAnd(a, b), c)
    decreases a
  {
    if a.And? { JoinAndAssoc(a.r, b, c); }
  }

  lemma {:induction false} JoinOrAssoc(a: Expr, b: Expr, c: Expr)
    ensures JoinOr(a, JoinOr(b, c)) == JoinOr(JoinOr(a, b), c)
    decreases a
  {
    if a.Or? { JoinOrAssoc(a.r, b, c); }
  }

  // ---- printing, then parsing

  /** p stands in t from i on. */
  ghost predicate HasAt(t: seq<Token>, i: nat, p: seq<Token>)
  {
    i + |p| <= |t| && forall k :: i <= k < i + |p| ==> t[k] == p[k - i]
  }

  lemma HasSplit(t: seq<Token>, i: nat, p: seq<Token>, q: seq<Token>)
    requires HasAt(t, i, p + q)
    ensures HasAt(t, i, p) && HasAt(t, i + |p|, q)
  {
    forall k | i + |p| <= k < i + |p| + |q| ensures t[k] == q[k - i - |p|] { assert (p + q)[k - i] == q[k - i - |p|]; }
  }

  lemma HasTwo(t: seq<Token>, i: nat, p: seq<Token>, x: Token, q: seq<Token>)
    requires HasAt(t, i, p + [x] + q)
    ensures HasAt(t, i, p) && At(t, i + |p|) == x && HasAt(t, i + |p| + 1, q) && |p + [x] + q| == |p| + 1 + |q|
  {
    HasSplit(t, i, p + [x], q);
    HasSplit(t, i, p, [x]);
  }

  lemma HasWrapped(t: seq<Token>, i: nat, p: seq<Token>)
    requires HasAt(t, i, Wrapped(p, true))
    ensures At(t, i) == TOpen && HasAt(t, i + 1, p) && At(t, i + 1 + |p|) == TClose && |Wrapped(p, true)| == |p| + 2
  {
    HasTwo(t, i, [TOpen] + p, TClose, []);
    assert [TOpen] + p + [TClose] + [] == Wrapped(p, true);
    HasSplit(t, i, [TOpen], p);
  }

  /** What can follow a printed expression without becoming part of it. */
  predicate Stops(x: Token)
  {
    !x.TRel? && x != TAnd && x != TOr
  }

  /** A factor that no && follows is a whole operand of ||. */
  lemma FactorLifts(t: seq<Token>, i: nat, e: Expr, j: nat)
    requires ParseFactor(t, i, Plain) == Ok(e, j)
    ensures At(t, j) != TAnd ==> ParseAnd(t, i, Plain) == Ok(e, j)
    ensures At(t, j) == TAnd ==> ParseAnd(t, i, Plain) == (var q := ParseAnd(t, j + 1, Plain); if q.Ok? then Ok(And(e, q.e), q.i) else Malformed)
  {
  }

  lemma OperandLifts(t: seq<Token>, i: nat, e: Expr, j: nat)
    requires ParseAnd(t, i, Plain) == Ok(e, j)
    ensures At(t, j) != TOr ==> ParseExpr(t, i, Plain) == Ok(e, j)
    ensures At(t, j) == TOr ==> ParseExpr(t, i, Plain) == (var q := ParseExpr(t, j + 1, Plain); if q.Ok? then Ok(Or(e, q.e), q.i) else Malformed)
  {
  }

  /** A printed symbol, relation or negation parses as a factor. */
  lemma {:induction false} FactorParses(e: Expr, t: seq<Token>, i: nat)
    requires !e.And? && !e.Or? && HasAt(t, i, Print(e)) && !At(t, i + |Print(e)|).TRel?
    ensures ParseFactor(t, i, Plain) == Ok(Renest(e), i + |Print(e)|)
    decreases e, 0
  {
    match e
    case Sym(s) => SymbolParses(t, i, s);
    case Relation(op, a, b) => RelationParses(t, i, op, a, b);
    case Not(x) => NegationParses(x, t, i);
  }

  lemma {:induction false} NegationParses(x: Expr, t: seq<Token>, i: nat)
    requires HasAt(t, i, [TNot] + Wrapped(Print(x), !x.Sym?)) && !At(t, i + |Print(Not(x))|).TRel?
    ensures ParseFactor(t, i, Plain) == Ok(Not(Renest(x)), i + |Print(Not(x))|)
    decreases x, 5
  {
    HasNot(t, i, Wrapped(Print(x), !x.Sym?));
    NotLength(x);
    if x.Sym? {
      SymbolParses(t, i + 1, x.s);
      NotLifts(t, i, x, i + 2);
    } else {
      GroupParses(x, t, i + 1);
      NotLifts(t, i, Renest(x), i + |Print(x)| + 3);
    }
  }

  lemma NotLength(x: Expr)
    ensures |Print(Not(x))| == if x.Sym? then 2 else |Print(x)| + 3
  {
  }

  lemma SymbolParses(t: seq<Token>, i: nat, s: int)
    requires HasAt(t, i, [TSym(s)]) && !At(t, i + 1).TRel?
    ensures ParseFactor(t, i, Plain) == Ok(Sym(s), i + 1)
  {
    assert t[i] == TSym(s);
  }

  lemma HasNot(t: seq<Token>, i: nat, p: seq<Token>)
    requires HasAt(t, i, [TNot] + p)
    ensures At(t, i) == TNot && HasAt(t, i + 1, p)
  {
    HasSplit(t, i, [TNot], p);
    assert t[i] == ([TNot] + p)[0];
  }

  lemma NotLifts(t: seq<Token>, i: nat, x: Expr, j: nat)
    requires At(t, i) == TNot && ParseFactor(t, i + 1, Plain) == Ok(x, j)
    ensures ParseFactor(t, i, Plain) == Ok(Not(x), j)
  {
  }

  lemma RelationParses(t: seq<Token>, i: nat, op: Rel, a: int, b: int)
    requires HasAt(t, i, [TSym(a), TRel(op), TSym(b)])
    ensures ParseFactor(t, i, Plain) == Ok(Relation(op, a, b), i + 3)
  {
    assert t[i] == TSym(a) && t[i + 1] == TRel(op) && t[i + 2] == TSym(b);
  }

  /** A parenthesized expression parses as a factor. */
  lemma {:induction false} GroupParses(e: Expr, t: seq<Token>, i: nat)
    requires HasAt(t, i, Wrapped(Print(e), true))
    ensures ParseFactor(t, i, Plain) == Ok(Renest(e), i + |Print(e)| + 2)
    decreases e, 3
  {
    HasWrapped(t, i, Print(e));
    ExprParses(e, t, i + 1);
  }

  /** What ParseAnd gives on an operand e of && that ends at j. */
  ghost predicate ChainsAnd(t: seq<Token>, i: nat, e: Expr, j: nat)
  {
    if At(t, j) != TAnd then ParseAnd(t, i, Plain) == Ok(e, j)
    else var q := ParseAnd(t, j + 1, Plain); ParseAnd(t, i, Plain) == if q.Ok? then Ok(JoinAnd(e, q.e), q.i) else Malformed
  }

  /** What ParseExpr gives on an operand e of || that ends at j. */
  ghost predicate ChainsOr(t: seq<Token>, i: nat, e: Expr, j: nat)
  {
    if At(t, j) != TOr then ParseExpr(t, i, Plain) == Ok(e, j)
    else var q := ParseExpr(t, j + 1, Plain); ParseExpr(t, i, Plain) == if q.Ok? then Ok(JoinOr(e, q.e), q.i) else Malformed
  }

  lemma ChainAnd(t: seq<Token>, i: nat, a: Expr, j: nat, b: Expr, k: nat)
    requires At(t, j) == TAnd && ChainsAnd(t, i, a, j) && ChainsAnd(t, j + 1, b, k)
    ensures ChainsAnd(t, i, JoinAnd(a, b), k)
  {
    if At(t, k) == TAnd {
      var q := ParseAnd(t, k + 1, Plain);
      if q.Ok? { JoinAndAssoc(a, b, q.e); }
    }
  }

  lemma ChainOr(t: seq<Token>, i: nat, a: Expr, j: nat, b: Expr, k: nat)
    requires At(t, j) == TOr && ChainsOr(t, i, a, j) && ChainsOr(t, j + 1, b, k)
    ensures ChainsOr(t, i, JoinOr(a, b), k)
  {
    if At(t, k) == TOr {
      var q := ParseExpr(t, k + 1, Plain);
      if q.Ok? { JoinOrAssoc(a, b, q.e); }
    }
  }

  lemma FactorChainsAnd(t: seq<Token>, i: nat, e: Expr, j: nat)
    requires ParseFactor(t, i, Plain) == Ok(e, j) && !e.And?
    ensures ChainsAnd(t, i, e, j)
  {
  }

  lemma OperandChainsOr(t: seq<Token>, i: nat, e: Expr, j: nat)
    requires ParseAnd(t, i, Plain) == Ok(e, j) && !e.Or?
    ensures ChainsOr(t, i, e, j)
  {
  }

  function AndOperand(e: Expr): seq<Token>
  {
    Wrapped(Print(e), e.Or?)
  }

  function OrOperand(e: Expr): seq<Token>
  {
    Wrapped(Print(e), e.And?)
  }

  /** An operand of && parses, and chains with what follows. */
  lemma {:induction false} AndParses(e: Expr, t: seq<Token>, i: nat)
    requires HasAt(t, i, AndOperand(e)) && !At(t, i + |AndOperand(e)|).TRel?
    ensures ChainsAnd(t, i, Renest(e), i + |AndOperand(e)|)
    decreases e, 4
  {
    if e.And? {
      BothAnd(e, t, i);
    } else {
      if e.Or? { GroupParses(e, t, i); } else { FactorParses(e, t, i); }
      FactorChainsAnd(t, i, Renest(e), i + |AndOperand(e)|);
    }
  }

  lemma {:induction false} BothAnd(e: Expr, t: seq<Token>, i: nat)
    requires e.And? && HasAt(t, i, Print(e)) && !At(t, i + |Print(e)|).TRel?
    ensures ChainsAnd(t, i, Renest(e), i + |Print(e)|)
    decreases e, 1
  {
    var k := i + |AndOperand(e.l)|;
    HasTwo(t, i, AndOperand(e.l), TAnd, AndOperand(e.r));
    AndParses(e.l, t, i);
    AndParses(e.r, t, k + 1);
    ChainAnd(t, i, Renest(e.l), k, Renest(e.r), i + |Print(e)|);
  }

  /** An operand of || parses, and chains with what follows. */
  lemma {:induction false} OrParses(e: Expr, t: seq<Token>, i: nat)
    requires HasAt(t, i, OrOperand(e)) && !At(t, i + |OrOperand(e)|).TRel? && At(t, i + |OrOperand(e)|) != TAnd
    ensures ChainsOr(t, i, Renest(e), i + |OrOperand(e)|)
    decreases e, 4
  {
    if e.Or? {
      BothOr(e, t, i);
    } else {
      if e.And? { GroupParses(e, t, i); } else { FactorParses(e, t, i); }
      FactorLifts(t, i, Renest(e), i + |OrOperand(e)|);
      OperandChainsOr(t, i, Renest(e), i + |OrOperand(e)|);
    }
  }

  lemma {:induction false} BothOr(e: Expr, t: seq<Token>, i: nat)
    requires e.Or? && HasAt(t, i, Print(e)) && !At(t, i + |Print(e)|).TRel? && At(t, i + |Print(e)|) != TAnd
    ensures ChainsOr(t, i, Renest(e), i + |Print(e)|)
    decreases e, 1
  {
    var k := i + |OrOperand(e.l)|;
    HasTwo(t, i, OrOperand(e.l), TOr, OrOperand(e.r));
    OrParses(e.l, t, i);
    OrParses(e.r, t, k + 1);
    ChainOr(t, i, Renest(e.l), k, Renest(e.r), i + |Print(e)|);
  }

  lemma {:induction false} ExprParses(e: Expr, t: seq<Token>, i: nat)
    requires HasAt(t, i, Print(e)) && Stops(At(t, i + |Print(e)|))
    ensures ParseExpr(t, i, Plain) == Ok(Renest(e), i + |Print(e)|)
    decreases e, 2
  {
    if e.Or? {
      BothOr(e, t, i);
    } else {
      if e.And? {
        BothAnd(e, t, i);
      } else {
        FactorParses(e, t, i);
        FactorLifts(t, i, Renest(e), i + |Print(e)|);
      }
      OperandLifts(t, i, Renest(e), i + |Print(e)|);
    }
  }

  // ---- the rewriting of m

  /** Every m outside relations becomes m && MODULES. */
  function Rewritten(e: Expr, w: Rewrite): Expr
  {
    match e
    case Sym(s) => if w.Modules? && s == w.m then And(Sym(w.m), Sym(w.modules)) else e
    case And(l, r) => And(Rewritten(l, w), Rewritten(r, w))
    case Or(l, r) => Or(Rewritten(l, w), Rewritten(r, w))
    case Not(x) => Not(Rewritten(x, w))
    case Relation(_, _, _) => e
  }

  function RewrittenParse(p: Parsed, w: Rewrite): Parsed
  {
    if p.Ok? then Ok(Rewritten(p.e, w), p.i) else Malformed
  }

  lemma {:induction false} ExprRewrites(t: seq<Token>, i: nat, w: Rewrite)
    ensures ParseExpr(t, i, w) == RewrittenParse(ParseExpr(t, i, Plain), w)
    decreases |t| - i, 2
  {
    AndRewrites(t, i, w);
    var p := ParseAnd(t, i, Plain);
    if p.Ok? && At(t, p.i) == TOr { ExprRewrites(t, p.i + 1, w); }
  }

  lemma {:induction false} AndRewrites(t: seq<Token>, i: nat, w: Rewrite)
    ensures ParseAnd(t, i, w) == RewrittenParse(ParseAnd(t, i, Plain), w)
    decreases |t| - i, 1
  {
    FactorRewrites(t, i, w);
    var p := ParseFactor(t, i, Plain);
    if p.Ok? && At(t, p.i) == TAnd { AndRewrites(t, p.i + 1, w); }
  }

  lemma {:induction false} FactorRewrites(t: seq<Token>, i: nat, w: Rewrite)
    ensures ParseFactor(t, i, w) == RewrittenParse(ParseFactor(t, i, Plain), w)
    decreases |t| - i, 0
  {
    if At(t, i) == TNot { FactorRewrites(t, i + 1, w); }
    if At(t, i) == TOpen { ExprRewrites(t, i + 1, w); }
  }

  /** Printing and parsing again consumes exactly the printed tokens and gives the expression nested to the right,
      with m rewritten in it where the parser is asked to. */
  lemma RoundTrip(e: Expr, before: seq<Token>, after: seq<Token>, w: Rewrite)
    requires after == [] || Stops(after[0])
    ensures ParseExpr(before + Print(e) + after, |before|, w) == Ok(Rewritten(Renest(e), w), |before| + |Print(e)|)
  {
    ExprParses(e, before + Print(e) + after, |before|);
    ExprRewrites(before + Print(e) + after, |before|, w);
  }

  lemma {:induction false} PlainStays(e: Expr)
    ensures Rewritten(e, Plain) == e
    decreases e
  {
    match e
    case Sym(_) =>
    case And(l, r) => PlainStays(l); PlainStays(r);
    case Or(l, r) => PlainStays(l); PlainStays(r);
    case Not(x) => PlainStays(x);
    case Relation(_, _, _) =>
  }

  // ---- renesting changes neither print nor value

  lemma {:induction false} JoinAndPrints(a: Expr, b: Expr)
    ensures Print(JoinAnd(a, b)) == Wrapped(Print(a), a.Or?) + [TAnd] + Wrapped(Print(b), b.Or?)
    decreases a
  {
    if a.And? {
      JoinAndPrints(a.r, b);
      var p, q, r := AndOperand(a.l), AndOperand(a.r), AndOperand(b);
      assert p + [TAnd] + (q + [TAnd] + r) == (p + [TAnd] + q) + [TAnd] + r;
    }
  }

  lemma {:induction false} JoinOrPrints(a: Expr, b: Expr)
    ensures Print(JoinOr(a, b)) == Wrapped(Print(a), a.And?) + [TOr] + Wrapped(Print(b), b.And?)
    decreases a
  {
    if a.Or? {
      JoinOrPrints(a.r, b);
      var p, q, r := OrOperand(a.l), OrOperand(a.r), OrOperand(b);
      assert p + [TOr] + (q + [TOr] + r) == (p + [TOr] + q) + [TOr] + r;
    }
  }

  /** The renested expression prints identically. */
  lemma {:induction false} RenestPrints(e: Expr)
    ensures Print(Renest(e)) == Print(e)
    decreases e
  {
    match e
    case Sym(_) =>
    case And(l, r) =>
      RenestPrints(l);
      RenestPrints(r);
      JoinAndPrints(Renest(l), Renest(r));
    case Or(l, r) =>
      RenestPrints(l);
      RenestPrints(r);
      JoinOrPrints(Renest(l), Renest(r));
    case Not(x) => RenestPrints(x);
    case Relation(_, _, _) =>
  }

  /** The values that symbols have: their tristate values, and how two of them compare as operands. */
  datatype Values = Values(tri: int -> int, compare: (int, int) -> int)

  predicate Holds(op: Rel, c: int)
  {
    match op
    case Equal => c == 0
    case Unequal => c != 0
    case Less => c < 0
    case LessEqual => c <= 0
    case Greater => c > 0
    case GreaterEqual => c >= 0
  }

  /** expr_value, with both short cuts. */
  function Value(e: Expr, v: Values): int
  {
    match e
    case Sym(s) => v.tri(s)
    case And(l, r) => if Value(l, v) == 0 then 0 else Min(Value(l, v), Value(r, v))
    case Or(l, r) => if Value(l, v) == 2 then 2 else Max(Value(l, v), Value(r, v))
    case Not(x) => 2 - Value(x, v)
    case Relation(op, a, b) => if Holds(op, v.compare(a, b)) then 2 else 0
  }

  ghost predicate Tristate(v: Values)
  {
    forall s :: 0 <= v.tri(s) <= 2
  }

  lemma {:induction false} ValueRange(e: Expr, v: Values)
    requires Tristate(v)
    ensures 0 <= Value(e, v) <= 2
    decreases e
  {
    match e
    case Sym(s) => assert 0 <= v.tri(s) <= 2;
    case And(l, r) => ValueRange(l, v); ValueRange(r, v);
    case Or(l, r) => ValueRange(l, v); ValueRange(r, v);
    case Not(x) => ValueRange(x, v);
    case Relation(_, _, _) =>
  }

  /** The short cuts do not change the value: && is the minimum and || the maximum. */
  lemma ShortCuts(l: Expr, r: Expr, v: Values)
    requires Tristate(v)
    ensures Value(And(l, r), v) == Min(Value(l, v), Value(r, v)) && Value(Or(l, r), v) == Max(Value(l, v), Value(r, v))
  {
    ValueRange(l, v);
    ValueRange(r, v);
  }

  lemma {:induction false} JoinValues(a: Expr, b: Expr, v: Values)
    requires Tristate(v)
    ensures Value(JoinAnd(a, b), v) == Min(Value(a, v), Value(b, v)) && Value(JoinOr(a, b), v) == Max(Value(a, v), Value(b, v))
    decreases a
  {
    ShortCuts(a, b, v);
    if a.And? {
      JoinValues(a.r, b, v);
      ShortCuts(a.l, a.r, v);
      ShortCuts(a.l, JoinAnd(a.r, b), v);
    } else if a.Or? {
      JoinValues(a.r, b, v);
      ShortCuts(a.l, a.r, v);
      ShortCuts(a.l, JoinOr(a.r, b), v);
    }
  }

  /** The renested expression has the same value whatever the symbols are. */
  lemma {:induction false} RenestKeepsValue(e: Expr, v: Values)
    requires Tristate(v)
    ensures Value(Renest(e), v) == Value(e, v)
    decreases e
  {
    match e
    case Sym(_) =>
    case And(l, r) =>
      RenestKeepsValue(l, v);
      RenestKeepsValue(r, v);
      JoinValues(Renest(l), Renest(r), v);
      ShortCuts(l, r, v);
    case Or(l, r) =>
      RenestKeepsValue(l, v);
      RenestKeepsValue(r, v);
      JoinValues(Renest(l), Renest(r), v);
      ShortCuts(l, r, v);
    case Not(x) => RenestKeepsValue(x, v);
    case Relation(_, _, _) =>
  }

  /** The expression reads with every m lowered to MODULES. */
  ghost function Lowered(v: Values, w: Rewrite): Values
  {
    if w.Plain? then v else Values(s => if s == w.m then Min(v.tri(s), v.tri(w.modules)) else v.tri(s), v.compare)
  }

  /** Rewriting m makes exactly this difference: outside relations m counts as no more than MODULES. */
  lemma {:induction false} RewrittenValue(e: Expr, w: Rewrite, v: Values)
    requires Tristate(v)
    ensures Value(Rewritten(e, w), v) == Value(e, Lowered(v, w))
    decreases e
  {
    match e
    case Sym(s) => ShortCuts(e, if w.Modules? then Sym(w.modules) else e, v);
    case And(l, r) => RewrittenValue(l, w, v); RewrittenValue(r, w, v);
    case Or(l, r) => RewrittenValue(l, w, v); RewrittenValue(r, w, v);
    case Not(x) => RewrittenValue(x, w, v);
    case Relation(_, _, _) =>
  }

  lemma {:induction false} LoweredTwice(e: Expr, w: Rewrite, v: Values)
    requires Tristate(v)
    ensures Value(e, Lowered(Lowered(v, w), w)) == Value(e, Lowered(v, w))
    decreases e
  {
    match e
    case Sym(_) =>
    case And(l, r) => LoweredTwice(l, w, v); LoweredTwice(r, w, v);
    case Or(l, r) => LoweredTwice(l, w, v); LoweredTwice(r, w, v);
    case Not(x) => LoweredTwice(x, w, v);
    case Relation(_, _, _) =>
  }

  /** An expression that was parsed with m rewritten keeps its value when it is printed and parsed so again. */
  lemma ReparsedValue(e: Expr, w: Rewrite, v: Values)
    requires Tristate(v)
    ensures var r := Rewritten(e, w);
      ParseExpr(Print(r), 0, w) == Ok(Rewritten(Renest(r), w), |Print(r)|) && Value(Rewritten(Renest(r), w), v) == Value(r, v)
  {
    var r := Rewritten(e, w);
    RoundTrip(r, [], [], w);
    assert [] + Print(r) + [] == Print(r);
    RewrittenValue(Renest(r), w, v);
    RenestKeepsValue(r, Lowered(v, w));
    RewrittenValue(e, w, v);
    RewrittenValue(e, w, Lowered(v, w));
    LoweredTwice(e, w, v);
  }

  // ---- which expressions come back unchanged

  lemma {:induction false} JoinNests(a: Expr, b: Expr)
    requires RightNested(a) && RightNested(b)
    ensures RightNested(JoinAnd(a, b)) && RightNested(JoinOr(a, b))
    decreases a
  {
    if a.And? || a.Or? { JoinNests(a.r, b); }
  }

  lemma {:induction false} RenestIsNested(e: Expr)
    ensures RightNested(Renest(e))
    decreases e
  {
    match e
    case Sym(_) =>
    case And(l, r) =>
      RenestIsNested(l);
      RenestIsNested(r);
      JoinNests(Renest(l), Renest(r));
    case Or(l, r) =>
      RenestIsNested(l);
      RenestIsNested(r);
      JoinNests(Renest(l), Renest(r));
    case Not(x) => RenestIsNested(x);
    case Relation(_, _, _) =>
  }

  lemma {:induction false} NestedStays(e: Expr)
    requires RightNested(e)
    ensures Renest(e) == e
    decreases e
  {
    match e
    case Sym(_) =>
    case And(l, r) =>
      NestedStays(l);
      NestedStays(r);
    case Or(l, r) =>
      NestedStays(l);
      NestedStays(r);
    case Not(x) => NestedStays(x);
    case Relation(_, _, _) =>
  }

  /** Printing and parsing gives back the very same expression exactly when it is nested to the right; what
      comes back always is, so a second time changes nothing. */
  lemma RoundTripIsIdentityIff(e: Expr)
    ensures ParseExpr(Print(e), 0, Plain) == Ok(e, |Print(e)|) <==> RightNested(e)
    ensures ParseExpr(Print(Renest(e)), 0, Plain) == Ok(Renest(e), |Print(e)|)
  {
    ParsedBack(e);
    ParsedBack(Renest(e));
    RenestIsNested(e);
    RenestPrints(e);
    NestedStays(Renest(e));
    if RightNested(e) { NestedStays(e); }
  }

  lemma ParsedBack(e: Expr)
    ensures ParseExpr(Print(e), 0, Plain) == Ok(Renest(e), |Print(e)|)
  {
    RoundTrip(e, [], [], Plain);
    PlainStays(Renest(e));
    assert [] + Print(e) + [] == Print(e);
  }

  /** A chain that is nested to the left comes back nested to the right. */
  lemma LeftChainComesBackChanged(a: int, b: int, c: int)
    ensures var e := And(And(Sym(a), Sym(b)), Sym(c));
      ParseExpr(Print(e), 0, Plain) == Ok(And(Sym(a), And(Sym(b), Sym(c))), |Print(e)|)
  {
    var e := And(And(Sym(a), Sym(b)), Sym(c));
    RoundTrip(e, [], [], Plain);
    assert [] + Print(e) + [] == Print(e);
    assert Renest(Sym(a)) == Sym(a) && Renest(Sym(b)) == Sym(b) && Renest(Sym(c)) == Sym(c);
    assert Renest(e.l) == JoinAnd(Sym(a), Sym(b)) == e.l;
    assert JoinAnd(Sym(b), Sym(c)) == And(Sym(b), Sym(c));
    assert Renest(e) == JoinAnd(e.l, Sym(c));
    PlainStays(Renest(e));
  }
}
