/** What the values of Kconfig symbols mean: the rules of the documentation, as theorems about recomputation. */
module KconfigMeaning {
  import opened Basics
  import opened KconfigExpr
  import opened KconfigItems
  import opened KconfigEvaluation
  import opened KconfigCoherence
  import opened KconfigCache

  /** All values that follow from the user values; what does not end counts as n. */
  ghost function Final(g: Graph, user: map<int, User>): Table
  {
    Recomputation(SystemOf(g, user)).val
  }

  ghost predicate Ended(g: Graph, user: map<int, User>, k: Key)
  {
    Ends(SystemOf(g, user), k)
  }

  ghost function TriAt(g: Graph, user: map<int, User>, s: int): int
  {
    Num(Recomputed(g, user, Key(s, FTri)))
  }

  ghost function VisAt(g: Graph, user: map<int, User>, s: int): int
  {
    Num(Recomputed(g, user, Key(s, FVis)))
  }

  ghost function TextAt(g: Graph, user: map<int, User>, s: int): string
  {
    Str(Recomputed(g, user, Key(s, FStr)))
  }

  /** The value of an expression. */
  ghost function Worth(g: Graph, user: map<int, User>, e: Expr): int
  {
    ExprValue(g, e, Final(g, user))
  }

  /** A field that can be read has such a value. */
  lemma FiniteEnds(g: Graph, user: map<int, User>, k: Key)
    requires Finite(g, user, k)
    ensures Ended(g, user, k)
  {
    RecomputationSolves(g, user);
    FiniteIsLive(g, user, Recomputation(SystemOf(g, user)), k);
  }

  lemma Equation(g: Graph, user: map<int, User>, k: Key)
    requires Ended(g, user, k)
    ensures Recomputed(g, user, k) == Compute(g, UserOf(user, k.s), k, Final(g, user))
  {
    SystemIsStable(g, user);
    LiveUnfolds(SystemOf(g, user), k);
  }

  // ---- tristate values stay tristate

  predicate UserOk(g: Graph, s: int, u: User)
  {
    Logical(It(g, s).kind) ==> u.NoValue? || (u.TriValue? && 0 <= u.t <= 2)
  }

  /** Constants and the user values of boolean and tristate symbols are n, m or y. */
  ghost predicate Proper(g: Graph, user: map<int, User>)
  {
    && (forall s :: Fixed(It(g, s)) ==> 0 <= It(g, s).fixed <= 2)
    && (forall s {:trigger UserOf(user, s)} :: UserOk(g, s, UserOf(user, s)))
  }

  ghost predicate BoundedAt(t: Table, k: Key)
  {
    0 <= Num(t(k)) <= 2
  }

  ghost predicate Bounded(t: Table)
  {
    forall k: Key {:trigger BoundedAt(t, k)} :: k.f == FTri || k.f == FVis ==> BoundedAt(t, k)
  }

  lemma WorthBounded(g: Graph, e: Expr, t: Table)
    requires Bounded(t)
    ensures 0 <= ExprValue(g, e, t) <= 2
  {
    var v := ValuesOf(g, t);
    forall s ensures 0 <= v.tri(s) <= 2 { assert BoundedAt(t, Key(s, FTri)); }
    ValueRange(e, v);
  }

  lemma {:induction false} PromptsBounded(g: Graph, ps: seq<Expr>, n: nat, t: Table)
    requires n <= |ps| && Bounded(t)
    ensures 0 <= PromptVis(g, ps, n, t) <= 2
  {
    if n > 0 {
      PromptsBounded(g, ps, n - 1, t);
      WorthBounded(g, ps[n - 1], t);
    }
  }

  lemma {:induction false} DefaultsBounded(g: Graph, ds: seq<Default>, n: nat, t: Table)
    requires n <= |ds| && Bounded(t)
    ensures 0 <= FirstDefault(g, ds, n, t) <= 2
    decreases |ds| - n
  {
    if n < |ds| {
      WorthBounded(g, ds[n].cond, t);
      WorthBounded(g, ds[n].value, t);
      DefaultsBounded(g, ds, n + 1, t);
    }
  }

  lemma ChosenBounded(g: Graph, u: User, s: int, t: Table)
    requires Bounded(t) && Logical(It(g, s).kind) && UserOk(g, s, u)
    ensures 0 <= Chosen(g, u, s, t) <= 2 && 0 <= Selected(g, u, s, t) <= 2
  {
    assert BoundedAt(t, Key(s, FVis));
    DefaultsBounded(g, It(g, s).defaults, 0, t);
    WorthBounded(g, It(g, s).weak, t);
    WorthBounded(g, It(g, s).rev, t);
  }

  lemma ComputeBounded(g: Graph, user: map<int, User>, k: Key, t: Table)
    requires Proper(g, user) && Bounded(t) && (k.f == FTri || k.f == FVis)
    ensures 0 <= Num(Compute(g, UserOf(user, k.s), k, t)) <= 2
  {
    assert UserOk(g, k.s, UserOf(user, k.s));
    if k.f == FVis {
      PromptsBounded(g, It(g, k.s).prompts, |It(g, k.s).prompts|, t);
    } else if !Fixed(It(g, k.s)) && Logical(It(g, k.s).kind) {
      ChosenBounded(g, UserOf(user, k.s), k.s, t);
    }
  }

  lemma StepBounded(g: Graph, user: map<int, User>, p: Partial, k: Key)
    requires Proper(g, user) && Bounded(TableOf(p)) && (k.f == FTri || k.f == FVis)
    ensures 0 <= Num(Known(StepAt(SystemOf(g, user), p, k))) <= 2
  {
    ComputeBounded(g, user, k, TableOf(p));
  }

  ghost predicate KeepsBounds(y: System)
  {
    forall p: Partial, k: Key {:trigger StepAt(y, p, k)} ::
      Bounded(TableOf(p)) && (k.f == FTri || k.f == FVis) ==> 0 <= Num(Known(StepAt(y, p, k))) <= 2
  }

  lemma {:induction false} LevelBounded(y: System, n: nat)
    requires KeepsBounds(y)
    ensures Bounded(TableOf(Level(y, n)))
  {
    if n > 0 {
      LevelBounded(y, n - 1);
      forall k: Key | k.f == FTri || k.f == FVis ensures BoundedAt(TableOf(Level(y, n)), k) { LevelUnfolds(y, n, k); }
    } else {
      forall k ensures BoundedAt(TableOf(Level(y, n)), k) { assert Level(y, 0)(k) == None; }
    }
  }

  lemma FinalBounded(g: Graph, user: map<int, User>)
    requires Proper(g, user)
    ensures Bounded(Final(g, user))
  {
    var y := SystemOf(g, user);
    forall p: Partial, k: Key | Bounded(TableOf(p)) && (k.f == FTri || k.f == FVis) ensures 0 <= Num(Known(StepAt(y, p, k))) <= 2 {
      StepBounded(g, user, p, k);
    }
    forall k: Key | k.f == FTri || k.f == FVis ensures BoundedAt(Final(g, user), k) {
      LevelBounded(y, Depth(y, k));
      assert BoundedAt(TableOf(Level(y, Depth(y, k))), k);
    }
  }

  /** The symbol is boolean, or a tristate while MODULES is n. */
  ghost predicate BooleanNow(g: Graph, user: map<int, User>, s: int)
  {
    It(g, s).kind == Bool || (It(g, s).kind == Tri && TriAt(g, user, g.modules) == 0)
  }

  /** Values and visibilities are n, m or y, those of boolean symbols never m. */
  lemma ValuesAreTristate(g: Graph, user: map<int, User>, s: int)
    requires Proper(g, user)
    ensures 0 <= TriAt(g, user, s) <= 2 && 0 <= VisAt(g, user, s) <= 2
    ensures Ended(g, user, Key(s, FTri)) && BooleanNow(g, user, s) && !Fixed(It(g, s)) ==> TriAt(g, user, s) != 1
    ensures Ended(g, user, Key(s, FVis)) && (BooleanNow(g, user, s) || It(g, s).kind != Tri) ==> VisAt(g, user, s) != 1
  {
    FinalBounded(g, user);
    assert BoundedAt(Final(g, user), Key(s, FTri)) && BoundedAt(Final(g, user), Key(s, FVis));
    if Ended(g, user, Key(s, FTri)) { Equation(g, user, Key(s, FTri)); }
    if Ended(g, user, Key(s, FVis)) { Equation(g, user, Key(s, FVis)); }
  }

  // ---- expressions

  /** a comes before b in lexicographic order. */
  ghost predicate Precedes(a: string, b: string)
  {
    exists k: nat :: FirstDifference(a, b, k)
  }

  ghost predicate FirstDifference(a: string, b: string, k: nat)
  {
    k <= |a| && k < |b| && a[..k] == b[..k] && (k == |a| || a[k] < b[k])
  }

  lemma PrecedesRest(a: string, b: string)
    requires a != [] && b != [] && a[0] == b[0]
    ensures Precedes(a, b) <==> Precedes(a[1..], b[1..])
  {
    if Precedes(a, b) {
      var k: nat :| FirstDifference(a, b, k);
      assert k > 0;
      assert a[1..][..k - 1] == a[..k][1..] && b[1..][..k - 1] == b[..k][1..];
      assert FirstDifference(a[1..], b[1..], k - 1);
    }
    if Precedes(a[1..], b[1..]) {
      var k: nat :| FirstDifference(a[1..], b[1..], k);
      assert a[..k + 1] == [a[0]] + a[1..][..k] && b[..k + 1] == [b[0]] + b[1..][..k];
      assert FirstDifference(a, b, k + 1);
    }
  }

  /** Texts compare lexicographically. */
  lemma {:induction false} TextOrder(a: string, b: string)
    ensures StrCmp(a, b) == 0 <==> a == b
    ensures StrCmp(a, b) < 0 <==> Precedes(a, b)
    ensures StrCmp(a, b) > 0 <==> Precedes(b, a)
    decreases |a|
  {
    if a == b {
      assert !Precedes(a, b);
    } else if a == [] {
      assert FirstDifference(a, b, 0);
    } else if b == [] {
      assert FirstDifference(b, a, 0);
    } else if a[0] == b[0] {
      assert a == [a[0]] + a[1..] && b == [b[0]] + b[1..];
      TextOrder(a[1..], b[1..]);
      PrecedesRest(a, b);
      PrecedesRest(b, a);
    } else {
      HeadsDiffer(a, b);
      HeadsDiffer(b, a);
    }
  }

  lemma SameFront(a: string, b: string, k: nat)
    requires 0 < k <= |a| && k <= |b| && a[..k] == b[..k]
    ensures a[0] == b[0]
  {
    assert a[0] == a[..k][0];
  }

  lemma HeadsDiffer(a: string, b: string)
    requires a != [] && b != [] && a[0] != b[0]
    ensures Precedes(a, b) <==> a[0] < b[0]
  {
    if a[0] < b[0] { assert FirstDifference(a, b, 0); }
    forall k: nat | FirstDifference(a, b, k) ensures k == 0 {
      if k > 0 { SameFront(a, b, k); }
    }
  }

  /** The number an operand stands for: n, m and y count as 0, 1 and 2. */
  ghost function Number(g: Graph, user: map<int, User>, s: int): Option<int>
  {
    if Logical(It(g, s).kind) then Some(TriAt(g, user, s)) else g.numbers.parse(It(g, s).kind, TextAt(g, user, s))
  }

  /** Operands compare as numbers, unless both are strings or one is no number. */
  ghost predicate AsNumbers(g: Graph, user: map<int, User>, a: int, b: int)
  {
    !(It(g, a).kind == String && It(g, b).kind == String) && Number(g, user, a).Some? && Number(g, user, b).Some?
  }

  /** The first operand is less than the second one. */
  ghost predicate LessThan(g: Graph, user: map<int, User>, a: int, b: int)
  {
    if AsNumbers(g, user, a, b) then Number(g, user, a).v < Number(g, user, b).v else Precedes(TextAt(g, user, a), TextAt(g, user, b))
  }

  ghost predicate SameValue(g: Graph, user: map<int, User>, a: int, b: int)
  {
    if AsNumbers(g, user, a, b) then Number(g, user, a).v == Number(g, user, b).v else TextAt(g, user, a) == TextAt(g, user, b)
  }

  ghost predicate Related(g: Graph, user: map<int, User>, op: Rel, a: int, b: int)
  {
    match op
    case Equal => SameValue(g, user, a, b)
    case Unequal => !SameValue(g, user, a, b)
    case Less => LessThan(g, user, a, b)
    case LessEqual => !LessThan(g, user, b, a)
    case Greater => LessThan(g, user, b, a)
    case GreaterEqual => !LessThan(g, user, a, b)
  }

  /** && is the minimum, || the maximum and ! the difference from y; a relation is y or n. */
  lemma ExprMeaning(g: Graph, user: map<int, User>, e: Expr)
    requires Proper(g, user)
    ensures Worth(g, user, e) ==
      match e
      case Sym(s) => TriAt(g, user, s)
      case And(l, r) => Min(Worth(g, user, l), Worth(g, user, r))
      case Or(l, r) => Max(Worth(g, user, l), Worth(g, user, r))
      case Not(x) => 2 - Worth(g, user, x)
      case Relation(op, a, b) => if Related(g, user, op, a, b) then 2 else 0
  {
    FinalBounded(g, user);
    match e
    case Sym(s) =>
    case And(l, r) => WorthBounded(g, l, Final(g, user)); WorthBounded(g, r, Final(g, user));
    case Or(l, r) => WorthBounded(g, l, Final(g, user)); WorthBounded(g, r, Final(g, user));
    case Not(x) =>
    case Relation(op, a, b) => CompareMeaning(g, user, a, b);
  }

  lemma CompareMeaning(g: Graph, user: map<int, User>, a: int, b: int)
    ensures var c := Compare(g, a, b, Final(g, user));
      && (c == 0 <==> SameValue(g, user, a, b)) && (c < 0 <==> LessThan(g, user, a, b)) && (c > 0 <==> LessThan(g, user, b, a))
  {
    TextOrder(TextAt(g, user, a), TextAt(g, user, b));
  }

  // ---- visibility

  /** Visibility is the greatest value of the prompt conditions; m counts as y for what is not tristate now. */
  lemma VisibilityMeaning(g: Graph, user: map<int, User>, s: int) returns (v: int)
    requires Proper(g, user) && Ended(g, user, Key(s, FVis))
    ensures v >= 0 && forall p :: p in It(g, s).prompts ==> Worth(g, user, p) <= v
    ensures v > 0 ==> exists p :: p in It(g, s).prompts && Worth(g, user, p) == v
    ensures VisAt(g, user, s) == if v == 1 && (It(g, s).kind != Tri || BooleanNow(g, user, s)) then 2 else v
  {
    Equation(g, user, Key(s, FVis));
    FinalBounded(g, user);
    var ps := It(g, s).prompts;
    v := PromptVis(g, ps, |ps|, Final(g, user));
    GreatestPrompt(g, ps, |ps|, Final(g, user));
    forall p | p in ps ensures Worth(g, user, p) <= v {
      var i :| 0 <= i < |ps| && ps[i] == p;
      assert ExprValue(g, ps[i], Final(g, user)) <= v;
    }
    if v > 0 {
      var i :| 0 <= i < |ps| && ExprValue(g, ps[i], Final(g, user)) == v;
      assert ps[i] in ps && Worth(g, user, ps[i]) == v;
    }
  }

  lemma {:induction false} GreatestPrompt(g: Graph, ps: seq<Expr>, n: nat, t: Table)
    requires n <= |ps|
    ensures var v := PromptVis(g, ps, n, t);
      && v >= 0 && (forall i :: 0 <= i < n ==> ExprValue(g, ps[i], t) <= v)
      && (v > 0 ==> exists i :: 0 <= i < n && ExprValue(g, ps[i], t) == v)
  {
    if n > 0 { GreatestPrompt(g, ps, n - 1, t); }
  }

  // ---- the tristate value

  /** Default i is the first one whose condition holds; |defaults| means that none does. */
  ghost predicate FirstTrue(g: Graph, user: map<int, User>, ds: seq<Default>, i: nat)
  {
    && i <= |ds| && (i < |ds| ==> Worth(g, user, ds[i].cond) != 0)
    && forall j :: 0 <= j < i ==> Worth(g, user, ds[j].cond) == 0
  }

  /** The value before selects and promotion when no user value counts: the first default whose condition holds,
      bounded by the condition, and raised by implies while the direct dependencies are met. */
  ghost predicate ByDefault(g: Graph, user: map<int, User>, s: int, v: int)
  {
    exists i: nat :: FirstTrue(g, user, It(g, s).defaults, i) && v == Raised(g, user, s, DefaultAt(g, user, It(g, s).defaults, i))
  }

  ghost function DefaultAt(g: Graph, user: map<int, User>, ds: seq<Default>, i: nat): int
  {
    if i < |ds| then Min(Worth(g, user, ds[i].value), Worth(g, user, ds[i].cond)) else 0
  }

  ghost function Raised(g: Graph, user: map<int, User>, s: int, d: int): int
  {
    if Worth(g, user, It(g, s).direct) != 0 then Max(Worth(g, user, It(g, s).weak), d) else d
  }

  /** A user value counts while the symbol is visible. */
  ghost predicate UserCounts(g: Graph, user: map<int, User>, s: int)
  {
    VisAt(g, user, s) != 0 && UserOf(user, s).TriValue?
  }

  /** The first number that is not 0. */
  lemma {:induction false} FirstHit(l: seq<int>) returns (i: nat)
    ensures i <= |l| && (i < |l| ==> l[i] != 0) && forall j :: 0 <= j < i ==> l[j] == 0
    decreases |l|
  {
    i := 0;
    if l != [] && l[0] == 0 {
      i := FirstHit(l[1..]);
      i := i + 1;
      assert forall j :: 1 <= j < i ==> l[j] == l[1..][j - 1];
    }
  }

  lemma {:induction false} DefaultSkip(g: Graph, ds: seq<Default>, n: nat, i: nat, t: Table)
    requires n <= i <= |ds| && forall j :: n <= j < i ==> ExprValue(g, ds[j].cond, t) == 0
    ensures FirstDefault(g, ds, n, t) == FirstDefault(g, ds, i, t)
    decreases i - n
  {
    if n < i { DefaultSkip(g, ds, n + 1, i, t); }
  }

  lemma FirstDefaultIs(g: Graph, user: map<int, User>, ds: seq<Default>) returns (i: nat)
    ensures FirstTrue(g, user, ds, i) && FirstDefault(g, ds, 0, Final(g, user)) == DefaultAt(g, user, ds, i)
  {
    var l := seq(|ds|, j requires 0 <= j < |ds| => Worth(g, user, ds[j].cond));
    i := FirstHit(l);
    forall j | 0 <= j < i ensures Worth(g, user, ds[j].cond) == 0 { assert l[j] == 0; }
    DefaultSkip(g, ds, 0, i, Final(g, user));
  }

  /** Where a tristate value comes from: the user value as far as visibility allows, or else defaults and implies; selects
      are a lower bound; m becomes y for what is boolean now or implied to y. */
  lemma TristateMeaning(g: Graph, user: map<int, User>, s: int) returns (base: int)
    requires Proper(g, user) && Ended(g, user, Key(s, FTri)) && Logical(It(g, s).kind) && !Fixed(It(g, s))
    ensures UserCounts(g, user, s) ==> base == Min(UserOf(user, s).t, VisAt(g, user, s))
    ensures !UserCounts(g, user, s) ==> ByDefault(g, user, s, base)
    ensures var raw := Max(base, Worth(g, user, It(g, s).rev));
      TriAt(g, user, s) == if raw == 1 && (BooleanNow(g, user, s) || Worth(g, user, It(g, s).weak) == 2) then 2 else raw
  {
    var t, u := Final(g, user), UserOf(user, s);
    Equation(g, user, Key(s, FTri));
    FinalBounded(g, user);
    assert UserOk(g, s, u);
    WorthBounded(g, It(g, s).rev, t);
    ChosenBounded(g, u, s, t);
    base := Chosen(g, u, s, t);
    if !UserCounts(g, user, s) { ImpliedMeaning(g, user, s); }
  }

  lemma ImpliedMeaning(g: Graph, user: map<int, User>, s: int)
    requires Bounded(Final(g, user))
    ensures ByDefault(g, user, s, Implied(g, s, Final(g, user)))
  {
    var i := FirstDefaultIs(g, user, It(g, s).defaults);
    DefaultsBounded(g, It(g, s).defaults, 0, Final(g, user));
    assert Implied(g, s, Final(g, user)) == Raised(g, user, s, DefaultAt(g, user, It(g, s).defaults, i)) by {
      WorthBounded(g, It(g, s).weak, Final(g, user));
    }
  }

  /** A select is a lower bound, whatever the user value, the visibility and the defaults are. */
  lemma NeverBelowSelects(g: Graph, user: map<int, User>, s: int)
    requires Proper(g, user) && Ended(g, user, Key(s, FTri)) && Logical(It(g, s).kind) && !Fixed(It(g, s))
    ensures TriAt(g, user, s) >= Worth(g, user, It(g, s).rev)
  {
    var base := TristateMeaning(g, user, s);
  }

  /** Without a select and an imply, visibility is an upper bound of what the user can set; only promotion goes beyond. */
  lemma NeverAboveVisibility(g: Graph, user: map<int, User>, s: int)
    requires Proper(g, user) && Ended(g, user, Key(s, FTri)) && Ended(g, user, Key(s, FVis))
    requires Logical(It(g, s).kind) && !Fixed(It(g, s)) && UserCounts(g, user, s)
    requires Worth(g, user, It(g, s).rev) == 0 && Worth(g, user, It(g, s).weak) != 2
    ensures TriAt(g, user, s) <= VisAt(g, user, s)
  {
    var base := TristateMeaning(g, user, s);
    ValuesAreTristate(g, user, s);
    assert UserOk(g, s, UserOf(user, s));
  }

  // ---- assignable values

  /** Visible only for m and selected to m, but implied to y. */
  ghost predicate PinnedToY(g: Graph, user: map<int, User>, s: int)
  {
    VisAt(g, user, s) == 1 && Worth(g, user, It(g, s).rev) == 1 && Worth(g, user, It(g, s).weak) == 2
  }

  /** The assignable values by visibility, selects, implies and type. */
  function AssignableBy(vis: int, r: int, w: int, boolean: bool): seq<int>
  {
    if vis == 0 then []
    else if r == 2 then [2]
    else if vis == 2 then
      (if r == 0 then (if boolean || w == 2 then [0, 2] else [0, 1, 2]) else (if boolean || w == 2 then [2] else [1, 2]))
    else if r == 0 then (if w == 2 then [0, 2] else [0, 1])
    else [1]
  }

  lemma AsgIs(g: Graph, s: int, t: Table)
    requires Logical(It(g, s).kind)
    ensures AsgOf(g, s, t) == AssignableBy(Num(t(Key(s, FVis))), ExprValue(g, It(g, s).rev, t), ExprValue(g, It(g, s).weak, t),
                                           TypeNow(g, s, t) == Bool)
  {
  }

  lemma AssignableIs(g: Graph, user: map<int, User>, s: int)
    requires Ended(g, user, Key(s, FAsg)) && Logical(It(g, s).kind)
    ensures Recomputed(g, user, Key(s, FAsg)) ==
      L(AssignableBy(VisAt(g, user, s), Worth(g, user, It(g, s).rev), Worth(g, user, It(g, s).weak), BooleanNow(g, user, s)))
  {
    Equation(g, user, Key(s, FAsg));
    AsgIs(g, s, Final(g, user));
  }

  ghost predicate Ascending(l: seq<int>)
  {
    forall i, j :: 0 <= i < j < |l| ==> l[i] < l[j]
  }

  lemma ListAscends(vis: int, r: int, w: int, boolean: bool)
    ensures var l := AssignableBy(vis, r, w, boolean); (l == [] <==> vis == 0) && Ascending(l)
  {
  }

  lemma KeptIff(vis: int, r: int, w: int, boolean: bool, v: int)
    requires 0 <= r <= 2 && 0 <= w <= 2 && 0 <= v <= 2 && 1 <= vis <= 2 && (boolean ==> vis == 2)
    ensures var raw := Max(Min(v, vis), r);
      var n := if raw == 1 && (boolean || w == 2) then 2 else raw;
      (v in AssignableBy(vis, r, w, boolean) <==> n == v) <==> !(vis == 1 && r == 1 && w == 2) || v == 0
  {
  }

  /** The assignable values are those that a user value of a visible symbol can have and keep. They are what the
      documentation promises exactly if the user value is n, or the symbol is not pinned to y. */
  lemma AssignableIff(g: Graph, user: map<int, User>, s: int)
    requires Proper(g, user) && Ended(g, user, Key(s, FTri)) && Ended(g, user, Key(s, FAsg)) && Ended(g, user, Key(s, FVis))
    requires Logical(It(g, s).kind) && !Fixed(It(g, s)) && UserCounts(g, user, s)
    ensures var v, l := UserOf(user, s).t, Recomputed(g, user, Key(s, FAsg));
      l.L? && ((v in l.l <==> TriAt(g, user, s) == v) <==> !PinnedToY(g, user, s) || v == 0)
  {
    AssignableIs(g, user, s);
    var base := TristateMeaning(g, user, s);
    ValuesAreTristate(g, user, s);
    FinalBounded(g, user);
    WorthBounded(g, It(g, s).rev, Final(g, user));
    WorthBounded(g, It(g, s).weak, Final(g, user));
    assert UserOk(g, s, UserOf(user, s));
    KeptIff(VisAt(g, user, s), Worth(g, user, It(g, s).rev), Worth(g, user, It(g, s).weak), BooleanNow(g, user, s), UserOf(user, s).t);
  }

  /** Nothing is assignable exactly if the symbol is invisible; the list ascends. */
  lemma AssignableShape(g: Graph, user: map<int, User>, s: int)
    requires Proper(g, user) && Ended(g, user, Key(s, FAsg)) && Logical(It(g, s).kind)
    ensures var l := Recomputed(g, user, Key(s, FAsg));
      && l.L? && (l.l == [] <==> VisAt(g, user, s) == 0) && Ascending(l.l)
  {
    AssignableIs(g, user, s);
    ListAscends(VisAt(g, user, s), Worth(g, user, It(g, s).rev), Worth(g, user, It(g, s).weak), BooleanNow(g, user, s));
  }

  // ---- a symbol that is pinned to y

  /** The constants y (0), n (3) and m (4), MODULES (1) with the default y, and a tristate (2) whose prompt is
      visible for m, selected to m and implied to y. */
  function PinnedGraph(numbers: Numbers): Graph
  {
    Graph(map[0 := Constant("y", 2), 3 := Constant("n", 0), 4 := Constant("m", 1),
              1 := Item("MODULES", Bool, false, 0, true, [], [Default(Sym(0), Sym(0))], [], [], Sym(3), Sym(3), Sym(0)),
              2 := Item("T", Type.Tri, false, 0, true, [Sym(4)], [], [], [], Sym(4), Sym(0), Sym(0))], 1, numbers)
  }

  function Constant(name: string, n: int): Item
  {
    Item(name, Type.Tri, true, n, false, [], [], [], [], Sym(3), Sym(3), Sym(3))
  }

  lemma PinnedConstants(numbers: Numbers, user: map<int, User>, m: Semantics)
    requires Solves(PinnedGraph(numbers), user, m)
    ensures Key(0, FTri) in m.live && m.val(Key(0, FTri)) == N(2)
    ensures Key(3, FTri) in m.live && m.val(Key(3, FTri)) == N(0)
    ensures Key(4, FTri) in m.live && m.val(Key(4, FTri)) == N(1)
  {
    SolvedAt(PinnedGraph(numbers), user, m, Key(0, FTri));
    SolvedAt(PinnedGraph(numbers), user, m, Key(3, FTri));
    SolvedAt(PinnedGraph(numbers), user, m, Key(4, FTri));
  }

  lemma PinnedModules(numbers: Numbers, user: map<int, User>, m: Semantics)
    requires Solves(PinnedGraph(numbers), user, m) && UserOf(user, 1) == NoValue
    ensures Key(1, FTri) in m.live && m.val(Key(1, FTri)) == N(2)
  {
    var g, t := PinnedGraph(numbers), m.val;
    PinnedConstants(numbers, user, m);
    assert PromptReads(g, [], 0, t) == {};
    SolvedAt(g, user, m, Key(1, FVis));
    var ds := [Default(Sym(0), Sym(0))];
    assert It(g, 1).defaults == ds;
    assert ExprValue(g, ds[0].cond, t) == 2;
    assert FirstReads(g, ds, 0, t) == {Key(0, FTri)} && FirstDefault(g, ds, 0, t) == 2;
    assert ImpliedReads(g, 1, t) == {Key(0, FTri), Key(3, FTri)} && Implied(g, 1, t) == 2;
    assert SelectedReads(g, NoValue, 1, t) <= {Key(0, FTri), Key(1, FVis), Key(3, FTri)} && Selected(g, NoValue, 1, t) == 2;
    SolvedAt(g, user, m, Key(1, FTri));
  }

  lemma PinnedVisible(numbers: Numbers, user: map<int, User>, m: Semantics)
    requires Solves(PinnedGraph(numbers), user, m) && UserOf(user, 1) == NoValue
    ensures Key(2, FVis) in m.live && m.val(Key(2, FVis)) == N(1)
  {
    var g, t, ps := PinnedGraph(numbers), m.val, [Sym(4)];
    PinnedConstants(numbers, user, m);
    PinnedModules(numbers, user, m);
    assert It(g, 2).prompts == ps;
    assert PromptVis(g, ps, 0, t) == 0 && PromptVis(g, ps, 1, t) == ExprValue(g, Sym(4), t) == 1;
    assert PromptReads(g, ps, 0, t) == {} && PromptReads(g, ps, 1, t) == {Key(4, FTri)};
    SolvedAt(g, user, m, Key(2, FVis));
  }

  lemma PinnedValues(numbers: Numbers, user: map<int, User>, m: Semantics)
    requires Solves(PinnedGraph(numbers), user, m) && user == map[2 := TriValue(1)]
    ensures Key(2, FTri) in m.live && m.val(Key(2, FTri)) == N(2) && Key(2, FAsg) in m.live && m.val(Key(2, FAsg)) == L([1])
  {
    var g, t, u := PinnedGraph(numbers), m.val, TriValue(1);
    PinnedConstants(numbers, user, m);
    PinnedModules(numbers, user, m);
    PinnedVisible(numbers, user, m);
    assert Selected(g, u, 2, t) == 1 && SelectedReads(g, u, 2, t) == {Key(2, FVis), Key(4, FTri), Key(0, FTri)};
    assert Promoted(g, 2, t) && PromotedReads(g, 2, t) == {Key(1, FTri), Key(0, FTri)};
    SolvedAt(g, user, m, Key(2, FTri));
    SolvedAt(g, user, m, Key(2, FAsg));
  }

  /** The user sets it to m, the only assignable value, and it reads y. */
  lemma PinnedReadsY(numbers: Numbers)
    ensures var g, user := PinnedGraph(numbers), map[2 := TriValue(1)];
      && PinnedToY(g, user, 2) && UserCounts(g, user, 2) && Ended(g, user, Key(2, FTri)) && Ended(g, user, Key(2, FAsg))
      && Recomputed(g, user, Key(2, FAsg)) == L([1]) && TriAt(g, user, 2) == 2
  {
    var g, user := PinnedGraph(numbers), map[2 := TriValue(1)];
    var m := Recomputation(SystemOf(g, user));
    RecomputationSolves(g, user);
    PinnedConstants(numbers, user, m);
    PinnedVisible(numbers, user, m);
    PinnedValues(numbers, user, m);
  }
}
