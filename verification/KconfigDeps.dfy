/** Building the dependency sets of Kconfig symbols, and when all values can be computed. */
module KconfigDeps {
  import opened KconfigExpr
  import opened KconfigItems
  import opened KconfigEvaluation
  import opened KconfigLoops
  import opened KconfigCoherence
  import Cache = KconfigCache

  /** b is a with s added to the dependents of the symbols in m that are not constant. */
  ghost predicate Extends(g: Graph, a: map<int, set<int>>, b: map<int, set<int>>, s: int, m: set<int>)
  {
    forall d {:trigger Dependents(b, d)} :: Dependents(b, d) == Dependents(a, d) + if d in m && !It(g, d).constant then {s} else {}
  }

  lemma ExtendsMore(g: Graph, a: map<int, set<int>>, b: map<int, set<int>>, c: map<int, set<int>>, s: int, m: set<int>, n: set<int>)
    requires Extends(g, a, b, s, m) && Extends(g, b, c, s, n)
    ensures Extends(g, a, c, s, m + n)
  {
    forall d ensures Dependents(c, d) == Dependents(a, d) + if d in m + n && !It(g, d).constant then {s} else {} {
      assert Dependents(b, d) == Dependents(a, d) + if d in m && !It(g, d).constant then {s} else {};
    }
  }

  /** _make_depend_on at a symbol. */
  method DependOnSym(g: Graph, a: map<int, set<int>>, s: int, d: int) returns (b: map<int, set<int>>)
    ensures Extends(g, a, b, s, {d})
  {
    b := if It(g, d).constant then a else a[d := Dependents(a, d) + {s}];
  }

  /** _make_depend_on. */
  method DependOn(g: Graph, a: map<int, set<int>>, s: int, e: Expr) returns (b: map<int, set<int>>)
    ensures Extends(g, a, b, s, Mentions(e))
    decreases e
  {
    match e
    case Sym(d) => b := DependOnSym(g, a, s, d);
    case And(l, r) =>
      var c := DependOn(g, a, s, l);
      b := DependOn(g, c, s, r);
      ExtendsMore(g, a, c, b, s, Mentions(l), Mentions(r));
    case Or(l, r) =>
      var c := DependOn(g, a, s, l);
      b := DependOn(g, c, s, r);
      ExtendsMore(g, a, c, b, s, Mentions(l), Mentions(r));
    case Not(x) => b := DependOn(g, a, s, x);
    case Relation(_, x, y) =>
      var c := DependOnSym(g, a, s, x);
      b := DependOnSym(g, c, s, y);
      ExtendsMore(g, a, c, b, s, {x}, {y});
      assert {x} + {y} == Mentions(e);
  }

  method DependOnPrompts(g: Graph, a: map<int, set<int>>, s: int, l: seq<Expr>) returns (b: map<int, set<int>>)
    ensures Extends(g, a, b, s, Union(PromptSets(l)))
  {
    b := a;
    for i := 0 to |l|
      invariant Extends(g, a, b, s, Union(PromptSets(l)[..i]))
    {
      var c := DependOn(g, b, s, l[i]);
      ExtendsMore(g, a, b, c, s, Union(PromptSets(l)[..i]), Mentions(l[i]));
      UnionGrows(PromptSets(l), i);
      b := c;
    }
    assert PromptSets(l)[..|l|] == PromptSets(l);
  }

  method DependOnDefaults(g: Graph, a: map<int, set<int>>, s: int, l: seq<Default>) returns (b: map<int, set<int>>)
    ensures Extends(g, a, b, s, Union(DefaultSets(l)))
  {
    b := a;
    for i := 0 to |l|
      invariant Extends(g, a, b, s, Union(DefaultSets(l)[..i]))
    {
      var c := DependOn(g, b, s, l[i].value);
      var d := DependOn(g, c, s, l[i].cond);
      ExtendsMore(g, b, c, d, s, Mentions(l[i].value), Mentions(l[i].cond));
      ExtendsMore(g, a, b, d, s, Union(DefaultSets(l)[..i]), DefaultMentions(l[i]));
      UnionGrows(DefaultSets(l), i);
      b := d;
    }
    assert DefaultSets(l)[..|l|] == DefaultSets(l);
  }

  method DependOnTexts(g: Graph, a: map<int, set<int>>, s: int, l: seq<StrDefault>) returns (b: map<int, set<int>>)
    ensures Extends(g, a, b, s, Union(TextSets(l)))
  {
    b := a;
    for i := 0 to |l|
      invariant Extends(g, a, b, s, Union(TextSets(l)[..i]))
    {
      var c := DependOnSym(g, b, s, l[i].sym);
      var d := DependOn(g, c, s, l[i].cond);
      ExtendsMore(g, b, c, d, s, {l[i].sym}, Mentions(l[i].cond));
      ExtendsMore(g, a, b, d, s, Union(TextSets(l)[..i]), TextMentions(l[i]));
      UnionGrows(TextSets(l), i);
      b := d;
    }
    assert TextSets(l)[..|l|] == TextSets(l);
  }

  method DependOnRange(g: Graph, a: map<int, set<int>>, s: int, r: Range) returns (b: map<int, set<int>>)
    ensures Extends(g, a, b, s, RangeMentions(r))
  {
    var c := DependOnSym(g, a, s, r.low);
    var d := DependOnSym(g, c, s, r.high);
    b := DependOn(g, d, s, r.cond);
    ExtendsMore(g, a, c, d, s, {r.low}, {r.high});
    ExtendsMore(g, a, d, b, s, {r.low} + {r.high}, Mentions(r.cond));
    assert {r.low} + {r.high} == {r.low, r.high};
  }

  method DependOnRanges(g: Graph, a: map<int, set<int>>, s: int, l: seq<Range>) returns (b: map<int, set<int>>)
    ensures Extends(g, a, b, s, Union(RangeSets(l)))
  {
    b := a;
    for i := 0 to |l|
      invariant Extends(g, a, b, s, Union(RangeSets(l)[..i]))
    {
      var c := DependOnRange(g, b, s, l[i]);
      ExtendsMore(g, a, b, c, s, Union(RangeSets(l)[..i]), RangeMentions(l[i]));
      UnionGrows(RangeSets(l), i);
      b := c;
    }
    assert RangeSets(l)[..|l|] == RangeSets(l);
  }

  /** What one symbol depends on. */
  method DependOnItem(g: Graph, a: map<int, set<int>>, s: int) returns (b: map<int, set<int>>)
    ensures Extends(g, a, b, s, ItemMentions(It(g, s)))
  {
    var it := It(g, s);
    b := DependOnPrompts(g, a, s, it.prompts);
    ghost var m := Union(PromptSets(it.prompts));
    var c := DependOnDefaults(g, b, s, it.defaults);
    ExtendsMore(g, a, b, c, s, m, Union(DefaultSets(it.defaults)));
    m := m + Union(DefaultSets(it.defaults));
    var d := DependOnTexts(g, c, s, it.strDefaults);
    ExtendsMore(g, a, c, d, s, m, Union(TextSets(it.strDefaults)));
    m := m + Union(TextSets(it.strDefaults));
    b := DependOn(g, d, s, it.rev);
    ExtendsMore(g, a, d, b, s, m, Mentions(it.rev));
    m := m + Mentions(it.rev);
    c := DependOn(g, b, s, it.weak);
    ExtendsMore(g, a, b, c, s, m, Mentions(it.weak));
    m := m + Mentions(it.weak);
    d := DependOnRanges(g, c, s, it.ranges);
    ExtendsMore(g, a, c, d, s, m, Union(RangeSets(it.ranges)));
    m := m + Union(RangeSets(it.ranges));
    b := DependOn(g, d, s, it.direct);
    ExtendsMore(g, a, d, b, s, m, Mentions(it.direct));
    assert m + Mentions(it.direct) == ItemMentions(it);
  }

  /** Kconfig._build_dep over the defined symbols. */
  method BuildDep(g: Graph, defined: seq<int>) returns (deps: map<int, set<int>>)
    requires forall s :: s in defined <==> It(g, s).defined
    ensures DepsOk(g, deps) && DefinedOnly(deps, defined)
  {
    deps := map[];
    for i := 0 to |defined|
      invariant DepsOf(g, deps, defined[..i])
    {
      var next := DependOnItem(g, deps, defined[i]);
      DepsGrow(g, deps, next, defined, i);
      deps := next;
    }
    assert defined[..|defined|] == defined;
    DepsDone(g, deps, defined);
  }

  lemma DepsDone(g: Graph, deps: map<int, set<int>>, defined: seq<int>)
    requires DepsOf(g, deps, defined) && forall s :: s in defined <==> It(g, s).defined
    ensures DepsOk(g, deps) && DefinedOnly(deps, defined)
  {
    forall d, s ensures s in Dependents(deps, d) <==> It(g, s).defined && !It(g, d).constant && d in ItemMentions(It(g, s)) {
      assert DepsOfAt(g, deps, defined, d, s);
    }
  }

  ghost predicate DepsOfAt(g: Graph, deps: map<int, set<int>>, done: seq<int>, d: int, s: int)
  {
    s in Dependents(deps, d) <==> s in done && !It(g, d).constant && d in ItemMentions(It(g, s))
  }

  /** The dependency sets after the symbols in done. */
  ghost predicate DepsOf(g: Graph, deps: map<int, set<int>>, done: seq<int>)
  {
    forall d, s {:trigger DepsOfAt(g, deps, done, d, s)} :: DepsOfAt(g, deps, done, d, s)
  }

  lemma DepsGrow(g: Graph, a: map<int, set<int>>, b: map<int, set<int>>, defined: seq<int>, i: nat)
    requires i < |defined| && DepsOf(g, a, defined[..i]) && Extends(g, a, b, defined[i], ItemMentions(It(g, defined[i])))
    ensures DepsOf(g, b, defined[..i + 1])
  {
    assert defined[..i + 1] == defined[..i] + [defined[i]];
    var front, more := defined[..i], defined[..i + 1];
    forall d, s ensures DepsOfAt(g, b, more, d, s) {
      assert DepsOfAt(g, a, front, d, s);
      ExtendsAt(g, a, b, defined[i], ItemMentions(It(g, defined[i])), d);
    }
  }

  lemma ExtendsAt(g: Graph, a: map<int, set<int>>, b: map<int, set<int>>, s: int, m: set<int>, d: int)
    requires Extends(g, a, b, s, m)
    ensures forall x :: x in Dependents(b, d) <==> x in Dependents(a, d) || (x == s && d in m && !It(g, d).constant)
  {
    assert Dependents(b, d) == Dependents(a, d) + if d in m && !It(g, d).constant then {s} else {};
  }

  // ---- when all values can be computed

  /** Where the loop check puts a symbol: above all that it mentions. */
  function Height(g: Graph, order: seq<int>, s: int): nat
  {
    if It(g, s).defined then 1 + Rank(order, s) else 0
  }

  function KeyHeight(g: Graph, order: seq<int>, k: Key): nat
  {
    5 * Height(g, order, k.s) + FieldNo(k.f)
  }

  lemma MentionsAreLower(g: Graph, deps: map<int, set<int>>, order: seq<int>, s: int, d: int)
    requires WellFormed(g) && DepsOk(g, deps) && Ranked(deps, order) && It(g, s).defined && d in ItemMentions(It(g, s))
    ensures Height(g, order, d) < Height(g, order, s)
  {
    assert ItemOk(It(g, d));
    if It(g, d).defined { assert s in Dependents(deps, d); }
  }

  // ---- what evaluation reads

  /** m is what evaluation gives: which fields can be computed, with which values, and how deep that nests. */
  ghost predicate Evaluated(g: Graph, user: map<int, User>, m: Semantics)
  {
    Evaluates(Evaluation(g, user), m)
  }

  lemma EvaluatedAt(g: Graph, user: map<int, User>, m: Semantics, k: Key)
    requires Evaluated(g, user, m)
    ensures var u := UserOf(user, k.s);
      && (k in m.live <==> forall r :: r in Needs(g, u, k, m.val) ==> r in m.live)
      && (k in m.live ==> m.val(k) == Compute(g, u, k, m.val))
      && (k in m.live ==> forall r :: r in Needs(g, u, k, m.val) ==> m.depth(r) < m.depth(k))
  {
    assert EvaluatesAt(Evaluation(g, user), m, k);
  }

  /** All fields as far as they can be computed. */
  ghost function Outcome(g: Graph, user: map<int, User>): Semantics
  {
    Recomputation(Evaluation(g, user))
  }

  lemma OutcomeIs(g: Graph, user: map<int, User>)
    ensures Evaluated(g, user, Outcome(g, user))
  {
    EvaluationIsStable(g, user);
    RecomputationEvaluates(Evaluation(g, user));
  }

  lemma EvaluatedIsBlind(g: Graph, user: map<int, User>, m: Semantics, k: Key)
    requires Evaluated(g, user, m)
    ensures Blind(g, k, m.val)
  {
    EvaluatedAt(g, user, m, Key(k.s, FVis));
  }

  /** Read for a warning: a field of a symbol that a mentioned symbol mentions. */
  ghost predicate Indirect(g: Graph, s: int, x: int, r: Key)
  {
    It(g, s).defined && x in ItemMentions(It(g, s)) && It(g, x).defined && r.s in ItemMentions(It(g, x))
  }

  ghost predicate WarnForeseen(g: Graph, s: int, r: Key)
  {
    (It(g, s).defined && r.s in ItemMentions(It(g, s))) || exists x :: Indirect(g, s, x, r)
  }

  lemma {:induction false} FirstIsMentioned(e: Expr)
    requires FirstOperand(e).Sym?
    ensures FirstOperand(e).s in Mentions(e)
    decreases e
  {
    if e.And? { FirstIsMentioned(e.l); }
  }

  lemma SelectForeseen(g: Graph, s: int, e: Expr, t: Table, r: Key)
    requires It(g, s).defined && Mentions(e) <= Mentions(It(g, s).rev) && r in SelectReads(g, e, t)
    ensures WarnForeseen(g, s, r)
  {
    var first := FirstOperand(e);
    if e.And? && r in ExprReads(g, e.r, t) {
      ExprReadsMention(g, e.r, t, r);
    } else {
      FirstIsMentioned(e);
      if r != Key(first.s, FStr) {
        ExprReadsMention(g, It(g, first.s).direct, t, r);
        assert Indirect(g, s, first.s, r);
      }
    }
  }

  lemma {:induction false} WarnReadsForeseen(g: Graph, s: int, e: Expr, d: int, t: Table, r: Key)
    requires It(g, s).defined && Mentions(e) <= Mentions(It(g, s).rev) && r in WarnReads(g, e, d, t)
    ensures WarnForeseen(g, s, r)
    decreases e
  {
    if e.Or? {
      if r in WarnReads(g, e.l, d, t) { WarnReadsForeseen(g, s, e.l, d, t, r); } else { WarnReadsForeseen(g, s, e.r, d, t, r); }
    } else if r in ExprReads(g, e, t) {
      ExprReadsMention(g, e, t, r);
    } else {
      SelectForeseen(g, s, e, t, r);
    }
  }

  lemma NeedsForeseen(g: Graph, user: map<int, User>, m: Semantics, k: Key, r: Key)
    requires WellFormed(g) && Evaluated(g, user, m) && r in Needs(g, UserOf(user, k.s), k, m.val)
    ensures Foreseen(g, k, r) || WarnForeseen(g, k.s, r)
  {
    if r in Reads(g, UserOf(user, k.s), k, m.val) {
      EvaluatedIsBlind(g, user, m, k);
      ReadsForeseen(g, UserOf(user, k.s), k, m.val, r);
    } else {
      assert ItemOk(It(g, k.s));
      WarnReadsForeseen(g, k.s, It(g, k.s).rev, ExprValue(g, It(g, k.s).direct, m.val), m.val, r);
    }
  }

  /** Reads go down, except that the type of a tristate symbol asks for MODULES. */
  lemma ReadsAreLower(g: Graph, deps: map<int, set<int>>, order: seq<int>, user: map<int, User>, m: Semantics, k: Key, r: Key)
    requires WellFormed(g) && DepsOk(g, deps) && Ranked(deps, order) && Evaluated(g, user, m)
    requires r in Needs(g, UserOf(user, k.s), k, m.val)
    ensures KeyHeight(g, order, r) < KeyHeight(g, order, k) || r == Key(g.modules, FTri)
  {
    NeedsForeseen(g, user, m, k, r);
    if WarnForeseen(g, k.s, r) { WarnedIsLower(g, deps, order, k.s, r); }
  }

  /** What a symbol mentions, and what that mentions, lies lower. */
  lemma WarnedIsLower(g: Graph, deps: map<int, set<int>>, order: seq<int>, s: int, r: Key)
    requires WellFormed(g) && DepsOk(g, deps) && Ranked(deps, order) && WarnForeseen(g, s, r)
    ensures Height(g, order, r.s) < Height(g, order, s)
  {
    if It(g, s).defined && r.s in ItemMentions(It(g, s)) {
      MentionsAreLower(g, deps, order, s, r.s);
    } else {
      var x :| Indirect(g, s, x, r);
      MentionsAreLower(g, deps, order, s, x);
      MentionsAreLower(g, deps, order, x, r.s);
    }
  }

  /** Once MODULES ends, everything does. */
  lemma {:induction false} AllFollow(g: Graph, deps: map<int, set<int>>, order: seq<int>, user: map<int, User>, m: Semantics, k: Key)
    requires WellFormed(g) && DepsOk(g, deps) && Ranked(deps, order) && Evaluated(g, user, m) && Key(g.modules, FTri) in m.live
    ensures k in m.live
    decreases KeyHeight(g, order, k)
  {
    forall r | r in Needs(g, UserOf(user, k.s), k, m.val) ensures r in m.live {
      ReadsAreLower(g, deps, order, user, m, k, r);
      if r != Key(g.modules, FTri) { AllFollow(g, deps, order, user, m, r); }
    }
    EvaluatedAt(g, user, m, k);
  }

  /** The fields below a field, as far as they settle. */
  function Below(g: Graph, order: seq<int>, user: map<int, User>, k: Key): Table
    decreases KeyHeight(g, order, k), 0
  {
    (r: Key) => if KeyHeight(g, order, r) < KeyHeight(g, order, k) then Known(Settle(g, order, user, r)) else N(0)
  }

  /** Evaluates a field on the way down from MODULES; None as soon as a type asks for MODULES again. */
  function Settle(g: Graph, order: seq<int>, user: map<int, User>, k: Key): Option<Val>
    decreases KeyHeight(g, order, k), 1
  {
    var t := Below(g, order, user, k);
    if forall r :: r in Needs(g, UserOf(user, k.s), k, t) ==>
         KeyHeight(g, order, r) < KeyHeight(g, order, k) && Settle(g, order, user, r).Some?
    then Some(Compute(g, UserOf(user, k.s), k, t))
    else None
  }

  lemma {:induction false} SettledIsLive(g: Graph, order: seq<int>, user: map<int, User>, m: Semantics, k: Key)
    requires Evaluated(g, user, m) && Settle(g, order, user, k).Some?
    ensures k in m.live && Settle(g, order, user, k) == Some(m.val(k))
    decreases KeyHeight(g, order, k)
  {
    var t := Below(g, order, user, k);
    forall r | r in Needs(g, UserOf(user, k.s), k, t) ensures r in m.live && t(r) == m.val(r) {
      SettledIsLive(g, order, user, m, r);
    }
    NeedsAgree(g, UserOf(user, k.s), k, t, m.val);
    EvaluatedAt(g, user, m, k);
  }

  lemma {:induction false} LiveSettles(g: Graph, deps: map<int, set<int>>, order: seq<int>, user: map<int, User>, m: Semantics, k: Key)
    requires WellFormed(g) && DepsOk(g, deps) && Ranked(deps, order) && Evaluated(g, user, m)
    requires k in m.live && m.depth(k) <= m.depth(Key(g.modules, FTri))
    ensures Settle(g, order, user, k).Some?
    decreases KeyHeight(g, order, k)
  {
    var t := Below(g, order, user, k);
    EvaluatedAt(g, user, m, k);
    forall r | r in Needs(g, UserOf(user, k.s), k, m.val)
      ensures KeyHeight(g, order, r) < KeyHeight(g, order, k) && Settle(g, order, user, r).Some? && m.val(r) == t(r)
    {
      ReadsAreLower(g, deps, order, user, m, k, r);
      LiveSettles(g, deps, order, user, m, r);
      SettledIsLive(g, order, user, m, r);
    }
    NeedsAgree(g, UserOf(user, k.s), k, m.val, t);
  }

  /** After a clean loop check every value can be computed exactly if MODULES settles without the type of a tristate
      symbol asking for it; the loop check does not see that tristate symbols look at MODULES. */
  lemma AllFiniteIff(g: Graph, deps: map<int, set<int>>, order: seq<int>, user: map<int, User>)
    requires WellFormed(g) && DepsOk(g, deps) && Ranked(deps, order)
    ensures (forall k :: Finite(g, user, k)) <==> Settle(g, order, user, Key(g.modules, FTri)).Some?
  {
    var m, top := Outcome(g, user), Key(g.modules, FTri);
    OutcomeIs(g, user);
    if Settle(g, order, user, top).Some? {
      SettledIsLive(g, order, user, m, top);
      forall k ensures Finite(g, user, k) { AllFollow(g, deps, order, user, m, k); }
    } else if Finite(g, user, top) {
      LiveSettles(g, deps, order, user, m, top);
    }
  }

  ghost predicate ReadBy(g: Graph, user: map<int, User>, m: Semantics, w: seq<Key>, i: int)
    requires 0 <= i < |w| - 1
  {
    w[i + 1] in Needs(g, UserOf(user, w[i].s), w[i], m.val)
  }

  /** Each field of w is read by the computation of the one before it. */
  ghost predicate ReadWalk(g: Graph, user: map<int, User>, m: Semantics, w: seq<Key>)
  {
    forall i {:trigger ReadBy(g, user, m, w, i)} :: 0 <= i < |w| - 1 ==> ReadBy(g, user, m, w, i)
  }

  /** Fields that read each other in turn, the last one the first; what never ends counts as n. */
  ghost predicate ReadCircle(g: Graph, user: map<int, User>, w: seq<Key>)
  {
    w != [] && ReadWalk(g, user, Outcome(g, user), w + [w[0]])
  }

  lemma {:induction false} WalkFalls(g: Graph, user: map<int, User>, m: Semantics, w: seq<Key>, n: nat)
    requires Evaluated(g, user, m) && ReadWalk(g, user, m, w) && n < |w| && w[0] in m.live
    ensures w[n] in m.live && m.depth(w[n]) + n <= m.depth(w[0])
  {
    if n > 0 {
      WalkFalls(g, user, m, w, n - 1);
      assert ReadBy(g, user, m, w, n - 1);
      ReadFalls(g, user, m, w[n - 1], w[n]);
    }
  }

  lemma ReadFalls(g: Graph, user: map<int, User>, m: Semantics, k: Key, r: Key)
    requires Evaluated(g, user, m) && k in m.live && r in Needs(g, UserOf(user, k.s), k, m.val)
    ensures r in m.live && m.depth(r) < m.depth(k)
  {
    EvaluatedAt(g, user, m, k);
  }

  /** From a field that never ends, reads lead to MODULES. */
  lemma {:induction false} WalkToModules(g: Graph, deps: map<int, set<int>>, order: seq<int>, user: map<int, User>,
                                          m: Semantics, k: Key) returns (w: seq<Key>)
    requires WellFormed(g) && DepsOk(g, deps) && Ranked(deps, order) && Evaluated(g, user, m) && k !in m.live
    ensures w != [] && w[0] == k && ReadWalk(g, user, m, w + [Key(g.modules, FTri)])
    decreases KeyHeight(g, order, k)
  {
    EvaluatedAt(g, user, m, k);
    var r :| r in Needs(g, UserOf(user, k.s), k, m.val) && r !in m.live;
    ReadsAreLower(g, deps, order, user, m, k, r);
    w := [k];
    var end := [Key(g.modules, FTri)];
    if r == Key(g.modules, FTri) {
      LongerWalk(g, user, m, k, end);
    } else {
      var rest := WalkToModules(g, deps, order, user, m, r);
      w := [k] + rest;
      LongerWalk(g, user, m, k, rest + end);
      assert w + end == [k] + (rest + end);
    }
  }

  lemma LongerWalk(g: Graph, user: map<int, User>, m: Semantics, k: Key, w: seq<Key>)
    requires w != [] && ReadWalk(g, user, m, w) && w[0] in Needs(g, UserOf(user, k.s), k, m.val)
    ensures ReadWalk(g, user, m, [k] + w)
  {
    var v := [k] + w;
    forall i | 0 <= i < |v| - 1 ensures ReadBy(g, user, m, v, i) {
      if i > 0 { assert ReadBy(g, user, m, w, i - 1); }
    }
  }

  /** After a clean loop check every value can be computed exactly if no fields read each other in a circle. */
  lemma AllFiniteIffNoCircle(g: Graph, deps: map<int, set<int>>, order: seq<int>, user: map<int, User>)
    requires WellFormed(g) && DepsOk(g, deps) && Ranked(deps, order)
    ensures (forall k :: Finite(g, user, k)) <==> forall w :: !ReadCircle(g, user, w)
  {
    var m, top := Outcome(g, user), Key(g.modules, FTri);
    OutcomeIs(g, user);
    if Finite(g, user, top) {
      forall k ensures Finite(g, user, k) { AllFollow(g, deps, order, user, m, k); }
      forall w ensures !ReadCircle(g, user, w) {
        if ReadCircle(g, user, w) {
          assert Finite(g, user, w[0]);
          WalkFalls(g, user, m, w + [w[0]], |w|);
        }
      }
    } else {
      var w := WalkToModules(g, deps, order, user, m, top);
      assert ReadCircle(g, user, w);
    }
  }

  // ---- what makes sure that MODULES settles

  ghost predicate ClearAt(it: Item, below: iset<int>)
  {
    it.kind != Tri && forall d :: d in ItemMentions(it) ==> d in below
  }

  /** MODULES and all it depends on lie in below, and no tristate symbol does. */
  ghost predicate ClearOfTristate(g: Graph, below: iset<int>)
  {
    g.modules in below && forall s {:trigger ClearAt(It(g, s), below)} :: s in below && It(g, s).defined ==> ClearAt(It(g, s), below)
  }

  /** Reads stay below, and no type asks for MODULES there. */
  lemma ClearStep(g: Graph, below: iset<int>, k: Key, r: Key)
    requires ClearOfTristate(g, below) && k.s in below && (Foreseen(g, k, r) || WarnForeseen(g, k.s, r))
    ensures r.s in below && (WarnForeseen(g, k.s, r) || (r.s == k.s && FieldNo(r.f) < FieldNo(k.f)))
  {
    assert It(g, k.s).defined ==> ClearAt(It(g, k.s), below);
    if x :| Indirect(g, k.s, x, r) { assert ClearAt(It(g, x), below); }
  }

  lemma {:induction false} ClearIsLive(g: Graph, deps: map<int, set<int>>, order: seq<int>, user: map<int, User>,
                                        m: Semantics, below: iset<int>, k: Key)
    requires WellFormed(g) && DepsOk(g, deps) && Ranked(deps, order) && Evaluated(g, user, m)
    requires ClearOfTristate(g, below) && k.s in below
    ensures k in m.live
    decreases KeyHeight(g, order, k)
  {
    forall r | r in Needs(g, UserOf(user, k.s), k, m.val) ensures r in m.live {
      NeedsForeseen(g, user, m, k, r);
      ClearStep(g, below, k, r);
      if WarnForeseen(g, k.s, r) { WarnedIsLower(g, deps, order, k.s, r); }
      ClearIsLive(g, deps, order, user, m, below, r);
    }
    EvaluatedAt(g, user, m, k);
  }

  /** If nothing that MODULES depends on is tristate, everything can be computed, whatever the user values. */
  lemma ClearIsFinite(g: Graph, deps: map<int, set<int>>, order: seq<int>, user: map<int, User>, below: iset<int>, k: Key)
    requires WellFormed(g) && DepsOk(g, deps) && Ranked(deps, order) && ClearOfTristate(g, below)
    ensures Finite(g, user, k)
  {
    var m := Outcome(g, user);
    OutcomeIs(g, user);
    ClearIsLive(g, deps, order, user, m, below, Key(g.modules, FTri));
    AllFollow(g, deps, order, user, m, k);
  }

  // ---- a graph that passes the loop check

  /** MODULES (1) defaults to a tristate symbol with a prompt (2); 0 and 3 are the constants y and n. */
  function ModulesGraph(numbers: Numbers): Graph
  {
    var y := Item("y", Tri, true, 2, false, [], [], [], [], Sym(3), Sym(3), Sym(0));
    var modules := Item("MODULES", Bool, false, 0, true, [], [Default(Sym(2), Sym(0))], [], [], Sym(3), Sym(3), Sym(0));
    var t := Item("T", Tri, false, 0, true, [Sym(0)], [], [], [], Sym(3), Sym(3), Sym(0));
    var n := Item("n", Tri, true, 0, false, [], [], [], [], Sym(3), Sym(3), Sym(0));
    Graph(map[0 := y, 1 := modules, 2 := t, 3 := n], 1, numbers)
  }

  const ModulesDeps: map<int, set<int>> := map[2 := {1}]

  /** The loop check passes on the graph. */
  lemma ModulesGraphIsClean(numbers: Numbers)
    ensures var g := ModulesGraph(numbers);
      WellFormed(g) && DepsOk(g, ModulesDeps) && Ranked(ModulesDeps, [1, 2])
  {
    var g := ModulesGraph(numbers);
    forall s ensures ItemOk(It(g, s)) { }
    forall s, d | d in Dependents(ModulesDeps, s) ensures Rank([1, 2], s) < Rank([1, 2], d) { }
    forall d, s ensures s in Dependents(ModulesDeps, d) <==> It(g, s).defined && !It(g, d).constant && d in ItemMentions(It(g, s)) {
      ModulesMentions(numbers, d);
    }
  }

  lemma ModulesMentions(numbers: Numbers, d: int)
    ensures var g := ModulesGraph(numbers);
      (d in ItemMentions(It(g, 1)) <==> d in {0, 2, 3}) && (d in ItemMentions(It(g, 2)) <==> d in {0, 3})
  {
    var g := ModulesGraph(numbers);
    var ds, ps := It(g, 1).defaults, It(g, 2).prompts;
    assert |ds| == 1 && DefaultMentions(ds[0]) == {0, 2} && |ps| == 1 && Mentions(ps[0]) == {0};
    assert DefaultSets(ds)[..0] == [] && PromptSets(ps)[..0] == [];
  }

  /** Once the user sets T to m, T and MODULES read each other, and neither can be computed. */
  lemma LoopCheckMissesModules(numbers: Numbers, user: map<int, User>)
    requires user == map[2 := TriValue(1)]
    ensures var g, m := ModulesGraph(numbers), Outcome(ModulesGraph(numbers), user);
      && WellFormed(g) && DepsOk(g, ModulesDeps) && Ranked(ModulesDeps, [1, 2])
      && Key(1, FTri) in Reads(g, UserOf(user, 2), Key(2, FTri), m.val) && Key(2, FTri) in Reads(g, UserOf(user, 1), Key(1, FTri), m.val)
      && !Finite(g, user, Key(1, FTri)) && !Finite(g, user, Key(2, FTri))
  {
    var g, m := ModulesGraph(numbers), Outcome(ModulesGraph(numbers), user);
    ModulesGraphIsClean(numbers);
    OutcomeIs(g, user);
    ModulesReads(numbers, user, m);
    EvaluatedAt(g, user, m, Key(1, FTri));
    EvaluatedAt(g, user, m, Key(2, FTri));
  }

  lemma ConstantsLive(numbers: Numbers, user: map<int, User>, m: Semantics)
    requires Evaluated(ModulesGraph(numbers), user, m)
    ensures Key(0, FTri) in m.live && m.val(Key(0, FTri)) == N(2) && Key(3, FTri) in m.live && m.val(Key(3, FTri)) == N(0)
  {
    EvaluatedAt(ModulesGraph(numbers), user, m, Key(0, FTri));
    EvaluatedAt(ModulesGraph(numbers), user, m, Key(3, FTri));
  }

  /** T is visible. */
  lemma PromptOfT(numbers: Numbers, user: map<int, User>, m: Semantics)
    requires Evaluated(ModulesGraph(numbers), user, m)
    ensures Key(2, FVis) in m.live && m.val(Key(2, FVis)) == N(2)
  {
    var g, t := ModulesGraph(numbers), m.val;
    ConstantsLive(numbers, user, m);
    var ps := [Sym(0)];
    assert It(g, 2).prompts == ps;
    assert PromptVis(g, ps, 0, t) == 0 && PromptVis(g, ps, 1, t) == ExprValue(g, Sym(0), t) == 2;
    assert PromptReads(g, ps, 0, t) == {} && PromptReads(g, ps, 1, t) == {Key(0, FTri)};
    EvaluatedAt(g, user, m, Key(2, FVis));
  }

  /** MODULES has no visibility and looks at its default. */
  lemma DefaultOfModules(numbers: Numbers, t: Table)
    requires t(Key(0, FTri)) == N(2)
    ensures FirstReads(ModulesGraph(numbers), It(ModulesGraph(numbers), 1).defaults, 0, t) == {Key(0, FTri), Key(2, FTri)}
  {
    var g, ds := ModulesGraph(numbers), [Default(Sym(2), Sym(0))];
    assert It(g, 1).defaults == ds;
    assert ExprValue(g, ds[0].cond, t) == 2;
    assert ExprReads(g, ds[0].cond, t) == {Key(0, FTri)} && ExprReads(g, ds[0].value, t) == {Key(2, FTri)};
  }

  lemma ModulesReads(numbers: Numbers, user: map<int, User>, m: Semantics)
    requires user == map[2 := TriValue(1)] && Evaluated(ModulesGraph(numbers), user, m)
    ensures Key(1, FTri) in Reads(ModulesGraph(numbers), UserOf(user, 2), Key(2, FTri), m.val)
    ensures Key(2, FTri) in Reads(ModulesGraph(numbers), UserOf(user, 1), Key(1, FTri), m.val)
  {
    var g := ModulesGraph(numbers);
    ConstantsLive(numbers, user, m);
    PromptOfT(numbers, user, m);
    assert Selected(g, UserOf(user, 2), 2, m.val) == 1;
    DefaultOfModules(numbers, m.val);
  }

  /** Without a user value T is n and does not ask for MODULES. */
  lemma UnsetTIsLive(numbers: Numbers, m: Semantics)
    requires Evaluated(ModulesGraph(numbers), map[], m)
    ensures Key(2, FTri) in m.live
  {
    var g, user: map<int, User>, t := ModulesGraph(numbers), map[], m.val;
    ConstantsLive(numbers, user, m);
    PromptOfT(numbers, user, m);
    assert FirstReads(g, [], 0, t) == {};
    assert ImpliedReads(g, 2, t) == {Key(3, FTri)} && Implied(g, 2, t) == 0;
    assert SelectedReads(g, NoValue, 2, t) == {Key(2, FVis), Key(3, FTri)} && Selected(g, NoValue, 2, t) == 0;
    EvaluatedAt(g, user, m, Key(2, FTri));
  }

  lemma UnsetModulesIsLive(numbers: Numbers, m: Semantics)
    requires Evaluated(ModulesGraph(numbers), map[], m)
    ensures Key(1, FTri) in m.live
  {
    var g, user: map<int, User>, t := ModulesGraph(numbers), map[], m.val;
    ConstantsLive(numbers, user, m);
    UnsetTIsLive(numbers, m);
    DefaultOfModules(numbers, t);
    assert PromptReads(g, [], 0, t) == {};
    EvaluatedAt(g, user, m, Key(1, FVis));
    assert ImpliedReads(g, 1, t) == {Key(0, FTri), Key(2, FTri), Key(3, FTri)};
    assert SelectedReads(g, NoValue, 1, t) <= {Key(0, FTri), Key(1, FVis), Key(2, FTri), Key(3, FTri)};
    assert PromotedReads(g, 1, t) == {};
    EvaluatedAt(g, user, m, Key(1, FTri));
  }

  /** Without user values the same graph evaluates. */
  lemma ModulesGraphCanEnd(numbers: Numbers, k: Key)
    ensures Finite(ModulesGraph(numbers), map[], k)
  {
    var g, user: map<int, User> := ModulesGraph(numbers), map[];
    var m := Outcome(g, user);
    ModulesGraphIsClean(numbers);
    OutcomeIs(g, user);
    UnsetModulesIsLive(numbers, m);
    AllFollow(g, ModulesDeps, [1, 2], user, m, k);
  }

  // ---- loading

  /** Each symbol of l mentions the next in its properties, and the last one the first. */
  ghost predicate MentionCycle(g: Graph, l: seq<int>)
  {
    && l != [] && (forall i :: 0 <= i < |l| - 1 ==> l[i + 1] in ItemMentions(It(g, l[i])))
    && l[0] in ItemMentions(It(g, l[|l| - 1]))
  }

  lemma CycleMentions(g: Graph, deps: map<int, set<int>>, l: seq<int>)
    requires DepsOk(g, deps) && Cycle(deps, l)
    ensures MentionCycle(g, l)
  {
    forall i | 0 <= i < |l| - 1 ensures l[i + 1] in ItemMentions(It(g, l[i])) {
      assert l[i] in Dependents(deps, l[i + 1]);
    }
  }

  /** After parsing: dependencies, the loop check, and the engine if there is no loop. */
  method Load(g: Graph, defined: seq<int>) returns (loop: seq<int>, k: Cache.Kconfig?, ghost order: seq<int>)
    requires WellFormed(g) && forall s :: s in defined <==> It(g, s).defined
    ensures k != null ==> fresh(k) && k.Valid() && k.g == g && k.user == map[] && Ranked(k.deps, order)
    ensures k == null <==> loop != []
    ensures loop != [] ==> MentionCycle(g, loop)
  {
    var deps := BuildDep(g, defined);
    var raised;
    raised, loop, order := CheckDependencies(deps, defined);
    if raised {
      CycleMentions(g, deps, loop);
      return loop, null, order;
    }
    k := new Cache.Kconfig(g, deps);
    return [], k, order;
  }
}
