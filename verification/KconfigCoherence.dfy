/** Why cached Kconfig values stay right: recomputation as a function, and what invalidation must clear. */
module KconfigCoherence {
  import opened KconfigExpr
  import opened KconfigItems
  import opened KconfigLoops
  import opened KconfigEvaluation

  // ---- dependencies

  /** The symbols in an expression. */
  function Mentions(e: Expr): set<int>
  {
    match e
    case Sym(s) => {s}
    case And(l, r) => Mentions(l) + Mentions(r)
    case Or(l, r) => Mentions(l) + Mentions(r)
    case Not(x) => Mentions(x)
    case Relation(_, a, b) => {a, b}
  }

  function DefaultMentions(d: Default): set<int>
  {
    Mentions(d.value) + Mentions(d.cond)
  }

  function TextMentions(d: StrDefault): set<int>
  {
    {d.sym} + Mentions(d.cond)
  }

  function RangeMentions(r: Range): set<int>
  {
    {r.low, r.high} + Mentions(r.cond)
  }

  /** Everything in some set of l. */
  ghost function Union(l: seq<set<int>>): set<int>
  {
    set x, s | x in l && s in x :: s
  }

  lemma InUnion(l: seq<set<int>>, i: nat, s: int)
    requires i < |l| && s in l[i]
    ensures s in Union(l)
  {
    assert l[i] in l;
  }

  lemma UnionGrows(l: seq<set<int>>, i: nat)
    requires i < |l|
    ensures Union(l[..i + 1]) == Union(l[..i]) + l[i]
  {
    var m := l[..i + 1];
    assert m == l[..i] + [l[i]];
    forall s | s in Union(m) ensures s in Union(l[..i]) + l[i] {
      var x :| x in m && s in x;
      assert x in l[..i] || x == l[i];
    }
    forall s | s in l[i] ensures s in Union(m) { InUnion(m, i, s); }
  }

  /** What each prompt condition mentions, and likewise for the other properties. */
  ghost function PromptSets(l: seq<Expr>): (r: seq<set<int>>)
    ensures |r| == |l| && forall i :: 0 <= i < |l| ==> r[i] == Mentions(l[i])
  {
    seq(|l|, i requires 0 <= i < |l| => Mentions(l[i]))
  }

  ghost function DefaultSets(l: seq<Default>): (r: seq<set<int>>)
    ensures |r| == |l| && forall i :: 0 <= i < |l| ==> r[i] == DefaultMentions(l[i])
  {
    seq(|l|, i requires 0 <= i < |l| => DefaultMentions(l[i]))
  }

  ghost function TextSets(l: seq<StrDefault>): (r: seq<set<int>>)
    ensures |r| == |l| && forall i :: 0 <= i < |l| ==> r[i] == TextMentions(l[i])
  {
    seq(|l|, i requires 0 <= i < |l| => TextMentions(l[i]))
  }

  ghost function RangeSets(l: seq<Range>): (r: seq<set<int>>)
    ensures |r| == |l| && forall i :: 0 <= i < |l| ==> r[i] == RangeMentions(l[i])
  {
    seq(|l|, i requires 0 <= i < |l| => RangeMentions(l[i]))
  }

  /** The symbols that the properties of a symbol mention. */
  ghost function ItemMentions(it: Item): set<int>
  {
    Union(PromptSets(it.prompts)) + Union(DefaultSets(it.defaults)) + Union(TextSets(it.strDefaults)) + Union(RangeSets(it.ranges))
    + Mentions(it.rev) + Mentions(it.weak) + Mentions(it.direct)
  }

  /** Symbols without a definition have no properties: they are the constants and the undefined symbols. */
  ghost predicate ItemOk(it: Item)
  {
    if it.defined then !it.constant
    else it.prompts == [] && it.defaults == [] && it.strDefaults == [] && it.ranges == [] && (it.kind == Unknown || Fixed(it))
  }

  ghost predicate WellFormed(g: Graph)
  {
    forall s {:trigger ItemOk(It(g, s))} :: ItemOk(It(g, s))
  }

  function FieldNo(f: Field): nat
  {
    match f case FVis => 1 case FTri => 2 case FStr => 3 case FAsg => 4
  }

  // ---- what computations read

  lemma {:induction false} ExprReadsMention(g: Graph, e: Expr, t: Table, r: Key)
    requires r in ExprReads(g, e, t)
    ensures r.s in Mentions(e)
    decreases e
  {
    match e
    case Sym(_) =>
    case And(x, y) => if r in ExprReads(g, x, t) { ExprReadsMention(g, x, t, r); } else { ExprReadsMention(g, y, t, r); }
    case Or(x, y) => if r in ExprReads(g, x, t) { ExprReadsMention(g, x, t, r); } else { ExprReadsMention(g, y, t, r); }
    case Not(x) => ExprReadsMention(g, x, t, r);
    case Relation(_, a, b) =>
  }

  lemma {:induction false} PromptReadsMention(g: Graph, it: Item, n: nat, t: Table, r: Key)
    requires n <= |it.prompts| && r in PromptReads(g, it.prompts, n, t)
    ensures r.s in ItemMentions(it)
  {
    if r in ExprReads(g, it.prompts[n - 1], t) {
      ExprReadsMention(g, it.prompts[n - 1], t, r);
      InUnion(PromptSets(it.prompts), n - 1, r.s);
    } else {
      PromptReadsMention(g, it, n - 1, t, r);
    }
  }

  lemma {:induction false} FirstReadsMention(g: Graph, it: Item, n: nat, t: Table, r: Key)
    requires n <= |it.defaults| && r in FirstReads(g, it.defaults, n, t)
    ensures r.s in ItemMentions(it)
    decreases |it.defaults| - n
  {
    var d := it.defaults[n];
    if r in ExprReads(g, d.cond, t) {
      ExprReadsMention(g, d.cond, t, r);
      InUnion(DefaultSets(it.defaults), n, r.s);
    } else if ExprValue(g, d.cond, t) != 0 {
      ExprReadsMention(g, d.value, t, r);
      InUnion(DefaultSets(it.defaults), n, r.s);
    } else {
      FirstReadsMention(g, it, n + 1, t, r);
    }
  }

  lemma {:induction false} TextReadsMention(g: Graph, it: Item, n: nat, t: Table, r: Key)
    requires n <= |it.strDefaults| && r in FirstTextReads(g, it.strDefaults, n, t)
    ensures r.s in ItemMentions(it)
    decreases |it.strDefaults| - n
  {
    var d := it.strDefaults[n];
    if r in ExprReads(g, d.cond, t) {
      ExprReadsMention(g, d.cond, t, r);
      InUnion(TextSets(it.strDefaults), n, r.s);
    } else if ExprValue(g, d.cond, t) != 0 {
      InUnion(TextSets(it.strDefaults), n, r.s);
    } else {
      TextReadsMention(g, it, n + 1, t, r);
    }
  }

  lemma {:induction false} RangeReadsMention(g: Graph, it: Item, n: nat, t: Table, r: Key)
    requires n <= |it.ranges| && r in RangeReads(g, it.ranges, n, t)
    ensures r.s in ItemMentions(it)
    decreases |it.ranges| - n
  {
    var d := it.ranges[n];
    if r in ExprReads(g, d.cond, t) {
      ExprReadsMention(g, d.cond, t, r);
      InUnion(RangeSets(it.ranges), n, r.s);
    } else if ExprValue(g, d.cond, t) != 0 {
      InUnion(RangeSets(it.ranges), n, r.s);
    } else {
      RangeReadsMention(g, it, n + 1, t, r);
    }
  }

  /** A read is of the symbol's own earlier field, of a symbol it mentions, or of MODULES through its type. */
  ghost predicate Foreseen(g: Graph, k: Key, r: Key)
  {
    || (r.s == k.s && FieldNo(r.f) < FieldNo(k.f))
    || (It(g, k.s).defined && r.s in ItemMentions(It(g, k.s)))
    || (It(g, k.s).defined && It(g, k.s).kind == Tri && r == Key(g.modules, FTri))
  }

  /** Without prompts the visibility is n. */
  ghost predicate Blind(g: Graph, k: Key, t: Table)
  {
    It(g, k.s).prompts == [] && k.f != FVis ==> Num(t(Key(k.s, FVis))) == 0
  }

  lemma ExprForeseen(g: Graph, k: Key, e: Expr, t: Table, r: Key)
    requires WellFormed(g) && It(g, k.s).defined && r in ExprReads(g, e, t)
    requires e == It(g, k.s).rev || e == It(g, k.s).weak || e == It(g, k.s).direct
    ensures Foreseen(g, k, r)
  {
    ExprReadsMention(g, e, t, r);
  }

  lemma VisForeseen(g: Graph, k: Key, t: Table, r: Key)
    requires WellFormed(g) && k.f == FVis && r in VisReads(g, k.s, t)
    ensures Foreseen(g, k, r)
  {
    var it := It(g, k.s);
    assert ItemOk(it);
    if r in PromptReads(g, it.prompts, |it.prompts|, t) { PromptReadsMention(g, it, |it.prompts|, t, r); }
  }

  lemma TriForeseen(g: Graph, u: User, k: Key, t: Table, r: Key)
    requires WellFormed(g) && k.f == FTri && r in TriReads(g, u, k.s, t)
    ensures Foreseen(g, k, r)
  {
    var it := It(g, k.s);
    assert ItemOk(it);
    if r in FirstReads(g, it.defaults, 0, t) { FirstReadsMention(g, it, 0, t, r); }
    if r in ExprReads(g, it.rev, t) { ExprForeseen(g, k, it.rev, t, r); }
    if r in ExprReads(g, it.weak, t) { ExprForeseen(g, k, it.weak, t, r); }
    if r in ExprReads(g, it.direct, t) { ExprForeseen(g, k, it.direct, t, r); }
  }

  lemma StrForeseen(g: Graph, u: User, k: Key, t: Table, r: Key)
    requires WellFormed(g) && k.f == FStr && r in StrReads(g, u, k.s, t)
    ensures Foreseen(g, k, r)
  {
    var it := It(g, k.s);
    assert ItemOk(it);
    if r in FirstTextReads(g, it.strDefaults, 0, t) { TextReadsMention(g, it, 0, t, r); }
    if r in RangeReads(g, it.ranges, 0, t) { RangeReadsMention(g, it, 0, t, r); }
  }

  lemma AsgForeseen(g: Graph, k: Key, t: Table, r: Key)
    requires WellFormed(g) && k.f == FAsg && r in AsgReads(g, k.s, t) && Blind(g, k, t)
    ensures Foreseen(g, k, r)
  {
    var it := It(g, k.s);
    assert ItemOk(it);
    if r != Key(k.s, FVis) {
      if r in ExprReads(g, it.rev, t) { ExprForeseen(g, k, it.rev, t, r); }
      if r in ExprReads(g, it.weak, t) { ExprForeseen(g, k, it.weak, t, r); }
    }
  }

  lemma ReadsForeseen(g: Graph, u: User, k: Key, t: Table, r: Key)
    requires WellFormed(g) && r in Reads(g, u, k, t) && Blind(g, k, t)
    ensures Foreseen(g, k, r)
    ensures r.s != k.s && k.f != FVis ==> Key(k.s, FVis) in Reads(g, u, k, t)
  {
    match k.f
    case FVis => VisForeseen(g, k, t, r);
    case FTri => TriForeseen(g, u, k, t, r);
    case FStr => StrForeseen(g, u, k, t, r);
    case FAsg => AsgForeseen(g, k, t, r);
  }

  // ---- evaluation

  function UserOf(user: map<int, User>, s: int): User
  {
    if s in user then user[s] else NoValue
  }

  /** The fields of all symbols as equations, for given user values. */
  function SystemOf(g: Graph, user: map<int, User>): System
  {
    System((k: Key, t: Table) => Compute(g, UserOf(user, k.s), k, t), (k: Key, t: Table) => Reads(g, UserOf(user, k.s), k, t))
  }

  lemma SystemIsStable(g: Graph, user: map<int, User>)
    ensures Stable(SystemOf(g, user))
  {
    var y := SystemOf(g, user);
    forall k, t, t' ensures StableAt(y, k, t, t') {
      if Agree(t, t', y.needs(k, t)) { ComputeAgrees(g, UserOf(user, k.s), k, t, t'); }
    }
  }

  /** The same with what warnings read: this is what is evaluated. */
  function Evaluation(g: Graph, user: map<int, User>): System
  {
    System((k: Key, t: Table) => Compute(g, UserOf(user, k.s), k, t), (k: Key, t: Table) => Needs(g, UserOf(user, k.s), k, t))
  }

  lemma EvaluationIsStable(g: Graph, user: map<int, User>)
    ensures Stable(Evaluation(g, user))
  {
    var y := Evaluation(g, user);
    forall k, t, t' ensures StableAt(y, k, t, t') {
      if Agree(t, t', y.needs(k, t)) { NeedsAgree(g, UserOf(user, k.s), k, t, t'); }
    }
  }

  /** Computing the field from the user values comes to an end. */
  ghost predicate Finite(g: Graph, user: map<int, User>, k: Key)
  {
    Ends(Evaluation(g, user), k)
  }

  /** The value of a field from the user values alone. */
  ghost function Recomputed(g: Graph, user: map<int, User>, k: Key): Val
  {
    ValueOf(SystemOf(g, user), k)
  }

  /** The table gives each field that ends, and only ones that do, what its computation gives. */
  ghost predicate Solves(g: Graph, user: map<int, User>, m: Semantics)
  {
    Evaluates(SystemOf(g, user), m)
  }

  lemma SolvedAt(g: Graph, user: map<int, User>, m: Semantics, k: Key)
    requires Solves(g, user, m)
    ensures var u := UserOf(user, k.s);
      && (k in m.live <==> forall r :: r in Reads(g, u, k, m.val) ==> r in m.live)
      && (k in m.live ==> m.val(k) == Compute(g, u, k, m.val))
      && (k in m.live ==> forall r :: r in Reads(g, u, k, m.val) ==> m.depth(r) < m.depth(k))
  {
    assert EvaluatesAt(SystemOf(g, user), m, k);
  }

  /** What can be computed has one value, and so does all that is read for it. */
  lemma FiniteIsLive(g: Graph, user: map<int, User>, m: Semantics, k: Key)
    requires Solves(g, user, m) && Finite(g, user, k)
    ensures k in m.live && m.val(k) == Recomputed(g, user, k)
    ensures forall r :: r in Needs(g, UserOf(user, k.s), k, m.val) ==>
      Finite(g, user, r) && Depth(Evaluation(g, user), r) < Depth(Evaluation(g, user), k)
  {
    var y, z := SystemOf(g, user), Evaluation(g, user);
    FiniteHasValue(g, user, m, k);
    LiveUnfolds(z, k);
    var e := Recomputation(z);
    forall r | r in z.needs(k, e.val) ensures e.val(r) == m.val(r) { FiniteHasValue(g, user, m, r); }
    assert StableAt(z, k, e.val, m.val);
  }

  lemma FiniteHasValue(g: Graph, user: map<int, User>, m: Semantics, k: Key)
    requires Solves(g, user, m) && Finite(g, user, k)
    ensures Stable(Evaluation(g, user)) && k in m.live && m.val(k) == Recomputed(g, user, k) == ValueOf(Evaluation(g, user), k)
  {
    var y, z := SystemOf(g, user), Evaluation(g, user);
    SystemIsStable(g, user);
    EvaluationIsStable(g, user);
    assert ReadsMore(y, z);
    EndsWithLess(y, z, k);
    OneSolution(y, m, k);
  }

  ghost predicate GuidesAt(g: Graph, user: map<int, User>, m: Semantics, run: Semantics, k: Key)
  {
    && (k in run.live <==> Finite(g, user, k))
    && (k in run.live ==> k in m.live)
    && (k in run.live ==> forall r :: r in Needs(g, UserOf(user, k.s), k, m.val) ==> r in run.live && run.depth(r) < run.depth(k))
  }

  /** run tells which fields can be computed, and how deep that nests. */
  ghost predicate Guides(g: Graph, user: map<int, User>, m: Semantics, run: Semantics)
  {
    forall k {:trigger GuidesAt(g, user, m, run, k)} :: GuidesAt(g, user, m, run, k)
  }

  lemma EvaluationGuides(g: Graph, user: map<int, User>, m: Semantics)
    requires Solves(g, user, m)
    ensures Guides(g, user, m, Recomputation(Evaluation(g, user)))
  {
    var run := Recomputation(Evaluation(g, user));
    forall k ensures GuidesAt(g, user, m, run, k) {
      if Finite(g, user, k) { FiniteIsLive(g, user, m, k); }
    }
  }

  lemma RecomputationSolves(g: Graph, user: map<int, User>)
    ensures Solves(g, user, Recomputation(SystemOf(g, user)))
  {
    SystemIsStable(g, user);
    RecomputationEvaluates(SystemOf(g, user));
  }

  lemma SolvedIsBlind(g: Graph, user: map<int, User>, m: Semantics, k: Key)
    requires Solves(g, user, m)
    ensures Blind(g, k, m.val)
  {
    SolvedAt(g, user, m, Key(k.s, FVis));
  }

  // ---- the cache

  type Cache = map<Key, Val>

  /** Each cached field is right. */
  ghost predicate Coherent(c: Cache, m: Semantics)
  {
    forall k {:trigger k in c} :: k in c ==> k in m.live && c[k] == m.val(k)
  }

  /** A coherent cache holds what recomputation from the user values gives. */
  lemma CachedIsRecomputed(g: Graph, user: map<int, User>, c: Cache, m: Semantics, k: Key)
    requires Solves(g, user, m) && Coherent(c, m) && k in c
    ensures Ends(SystemOf(g, user), k) && c[k] == Recomputed(g, user, k)
  {
    SystemIsStable(g, user);
    OneSolution(SystemOf(g, user), m, k);
  }

  ghost predicate BackedAt(g: Graph, user: map<int, User>, c: Cache, m: Semantics, k: Key)
  {
    forall r {:trigger r in Reads(g, UserOf(user, k.s), k, m.val)} :: r in Reads(g, UserOf(user, k.s), k, m.val) ==> r in c
  }

  /** Whatever a cached field was computed from is cached too. */
  ghost predicate Backed(g: Graph, user: map<int, User>, c: Cache, m: Semantics)
  {
    forall k {:trigger BackedAt(g, user, c, m, k)} :: k in c ==> BackedAt(g, user, c, m, k)
  }

  /** _dependents holds, for each symbol that is not constant, the defined symbols that mention it. */
  ghost predicate DepsOk(g: Graph, deps: map<int, set<int>>)
  {
    forall d, s {:trigger s in Dependents(deps, d)} ::
      s in Dependents(deps, d) <==> It(g, s).defined && !It(g, d).constant && d in ItemMentions(It(g, s))
  }

  /** c' is c without the fields of the symbols in gone, and invalidation was right to stop there: only defined
      symbols are gone, their dependents have no cached visibility, and with MODULES all defined symbols are gone. */
  ghost predicate Cleared(g: Graph, deps: map<int, set<int>>, c: Cache, c': Cache, gone: set<int>)
  {
    && (forall k :: k in c' <==> k in c && k.s !in gone)
    && (forall k :: k in c' ==> c'[k] == c[k])
    && (forall d :: d in gone ==> It(g, d).defined)
    && (forall d, i :: d in gone && i in Dependents(deps, d) ==> Key(i, FVis) !in c')
    && (g.modules in gone ==> forall s :: It(g, s).defined ==> s in gone)
  }

  /** What a surviving field was computed from survives. */
  lemma ReadsSurvive(g: Graph, deps: map<int, set<int>>, user: map<int, User>, m: Semantics, c: Cache, c': Cache, gone: set<int>, k: Key, r: Key)
    requires WellFormed(g) && DepsOk(g, deps) && Solves(g, user, m) && Backed(g, user, c, m) && Cleared(g, deps, c, c', gone)
    requires k in c' && r in Reads(g, UserOf(user, k.s), k, m.val)
    ensures r in c'
  {
    SolvedIsBlind(g, user, m, k);
    ReadsForeseen(g, UserOf(user, k.s), k, m.val, r);
    assert BackedAt(g, user, c, m, k);
    assert ItemOk(It(g, r.s));
    assert r.s == k.s || r.s == g.modules || It(g, r.s).constant || k.s in Dependents(deps, r.s);
    assert Key(k.s, FVis) in c' || r.s == k.s;
  }

  /** Stopping at symbols without cached visibility is safe: after the user values of symbols in gone changed, every
      field that survives the invalidation still ends, with the value it had, and is still backed. */
  lemma {:induction false} SurvivorsAreRight(g: Graph, deps: map<int, set<int>>, user: map<int, User>, user': map<int, User>,
                                             m: Semantics, m': Semantics, c: Cache, c': Cache, gone: set<int>, k: Key)
    requires WellFormed(g) && DepsOk(g, deps) && Solves(g, user, m) && Solves(g, user', m')
    requires Coherent(c, m) && Backed(g, user, c, m) && Cleared(g, deps, c, c', gone)
    requires forall s :: s !in gone ==> UserOf(user', s) == UserOf(user, s)
    requires k in c'
    ensures k in m'.live && m'.val(k) == m.val(k) && BackedAt(g, user', c', m', k)
    decreases m.depth(k)
  {
    var u := UserOf(user, k.s);
    SolvedAt(g, user, m, k);
    SolvedAt(g, user', m', k);
    forall r | r in Reads(g, u, k, m.val) ensures r in c' && r in m'.live && m.val(r) == m'.val(r) {
      ReadsSurvive(g, deps, user, m, c, c', gone, k, r);
      SurvivorsAreRight(g, deps, user, user', m, m', c, c', gone, r);
    }
    ComputeAgrees(g, u, k, m.val, m'.val);
  }

  lemma AllSurvive(g: Graph, deps: map<int, set<int>>, user: map<int, User>, user': map<int, User>,
                   m: Semantics, m': Semantics, c: Cache, c': Cache, gone: set<int>)
    requires WellFormed(g) && DepsOk(g, deps) && Solves(g, user, m) && Solves(g, user', m')
    requires Coherent(c, m) && Backed(g, user, c, m) && Cleared(g, deps, c, c', gone)
    requires forall s :: s !in gone ==> UserOf(user', s) == UserOf(user, s)
    ensures Coherent(c', m') && Backed(g, user', c', m')
  {
    forall k | k in c' ensures k in m'.live && m'.val(k) == m.val(k) && BackedAt(g, user', c', m', k) {
      SurvivorsAreRight(g, deps, user, user', m, m', c, c', gone, k);
    }
  }

  /** A symbol without prompts ignores its user value, so nothing has to be invalidated for it. */
  lemma PromptlessIgnoresUser(g: Graph, user: map<int, User>, m: Semantics, x: int, v: User)
    requires Solves(g, user, m) && It(g, x).prompts == []
    ensures Solves(g, user[x := v], m)
    ensures forall k: Key :: Reads(g, UserOf(user[x := v], k.s), k, m.val) == Reads(g, UserOf(user, k.s), k, m.val)
  {
    forall k: Key
      ensures EvaluatesAt(SystemOf(g, user[x := v]), m, k)
      ensures Reads(g, UserOf(user[x := v], k.s), k, m.val) == Reads(g, UserOf(user, k.s), k, m.val)
    {
      SolvedIsBlind(g, user, m, k);
      assert EvaluatesAt(SystemOf(g, user), m, k);
      UserIgnored(g, UserOf(user, k.s), UserOf(user[x := v], k.s), k, m.val);
    }
  }

  lemma PromptlessKeeps(g: Graph, user: map<int, User>, m: Semantics, c: Cache, x: int, v: User)
    requires Solves(g, user, m) && Backed(g, user, c, m) && It(g, x).prompts == []
    ensures Solves(g, user[x := v], m) && Backed(g, user[x := v], c, m)
  {
    PromptlessIgnoresUser(g, user, m, x, v);
    forall k | k in c ensures BackedAt(g, user[x := v], c, m, k) { assert BackedAt(g, user, c, m, k); }
  }

  lemma UserIgnored(g: Graph, u: User, v: User, k: Key, t: Table)
    requires u == v || (It(g, k.s).prompts == [] && Blind(g, k, t))
    ensures Compute(g, u, k, t) == Compute(g, v, k, t) && Reads(g, u, k, t) == Reads(g, v, k, t)
  {
  }
}
