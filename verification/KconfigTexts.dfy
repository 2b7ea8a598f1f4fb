/** What the text values of Kconfig symbols mean, and what setting a value does. */
module KconfigTexts {
  import opened Basics
  import opened KconfigExpr
  import opened KconfigItems
  import opened KconfigEvaluation
  import opened KconfigCoherence
  import opened KconfigCache
  import opened KconfigMeaning

  // ---- texts

  /** Text default i is the first one whose condition holds; |strDefaults| means that none does. */
  ghost predicate FirstTrueText(g: Graph, user: map<int, User>, ds: seq<StrDefault>, i: nat)
  {
    && i <= |ds| && (i < |ds| ==> Worth(g, user, ds[i].cond) != 0)
    && forall j :: 0 <= j < i ==> Worth(g, user, ds[j].cond) == 0
  }

  ghost function DefaultText(g: Graph, user: map<int, User>, ds: seq<StrDefault>, i: nat): string
  {
    if i < |ds| then TextAt(g, user, ds[i].sym) else ""
  }

  lemma {:induction false} TextSkip(g: Graph, ds: seq<StrDefault>, n: nat, i: nat, t: Table)
    requires n <= i <= |ds| && forall j :: n <= j < i ==> ExprValue(g, ds[j].cond, t) == 0
    ensures FirstText(g, ds, n, t) == FirstText(g, ds, i, t)
    decreases i - n
  {
    if n < i { TextSkip(g, ds, n + 1, i, t); }
  }

  lemma FirstTextIs(g: Graph, user: map<int, User>, ds: seq<StrDefault>) returns (i: nat)
    ensures FirstTrueText(g, user, ds, i)
    ensures FirstText(g, ds, 0, Final(g, user)) == if i < |ds| then Some(TextAt(g, user, ds[i].sym)) else None
  {
    var l := seq(|ds|, j requires 0 <= j < |ds| => Worth(g, user, ds[j].cond));
    i := FirstHit(l);
    forall j | 0 <= j < i ensures Worth(g, user, ds[j].cond) == 0 { assert l[j] == 0; }
    TextSkip(g, ds, 0, i, Final(g, user));
  }

  /** Boolean and tristate values read n, m or y; an undefined symbol reads as its name. */
  lemma PlainTextMeaning(g: Graph, user: map<int, User>, s: int)
    requires Proper(g, user) && Ended(g, user, Key(s, FStr))
    ensures Logical(It(g, s).kind) ==> TextAt(g, user, s) == ["n", "m", "y"][(ValuesAreTristate(g, user, s); TriAt(g, user, s))]
    ensures It(g, s).kind == Unknown ==> TextAt(g, user, s) == It(g, s).name
  {
    Equation(g, user, Key(s, FStr));
    ValuesAreTristate(g, user, s);
  }

  /** A string symbol has its user value while it is visible, or else its first default. */
  lemma StringMeaning(g: Graph, user: map<int, User>, s: int) returns (i: nat)
    requires Ended(g, user, Key(s, FStr)) && It(g, s).kind == String && !UserOf(user, s).TriValue?
    ensures FirstTrueText(g, user, It(g, s).strDefaults, i)
    ensures TextAt(g, user, s) ==
      if VisAt(g, user, s) != 0 && UserOf(user, s).StrValue? then UserOf(user, s).s else DefaultText(g, user, It(g, s).strDefaults, i)
  {
    Equation(g, user, Key(s, FStr));
    i := FirstTextIs(g, user, It(g, s).strDefaults);
  }

  // ---- numbers

  /** What a text counts as: what is no number counts as 0. */
  function Amount(g: Graph, k: Type, x: string): int
  {
    match g.numbers.parse(k, x)
    case Some(n) => n
    case None => 0
  }

  ghost predicate FirstTrueRange(g: Graph, user: map<int, User>, rs: seq<Range>, i: nat)
  {
    && i <= |rs| && (i < |rs| ==> Worth(g, user, rs[i].cond) != 0)
    && forall j :: 0 <= j < i ==> Worth(g, user, rs[j].cond) == 0
  }

  ghost function BoundsOf(g: Graph, user: map<int, User>, k: Type, r: Range): Interval
  {
    Interval(Amount(g, k, TextAt(g, user, r.low)), Amount(g, k, TextAt(g, user, r.high)))
  }

  /** The bounds of range i of a symbol. */
  ghost function LowAt(g: Graph, user: map<int, User>, s: int, i: nat): int
    requires i < |It(g, s).ranges|
  {
    BoundsOf(g, user, It(g, s).kind, It(g, s).ranges[i]).low
  }

  ghost function HighAt(g: Graph, user: map<int, User>, s: int, i: nat): int
    requires i < |It(g, s).ranges|
  {
    BoundsOf(g, user, It(g, s).kind, It(g, s).ranges[i]).high
  }

  lemma {:induction false} RangeSkip(g: Graph, k: Type, rs: seq<Range>, n: nat, i: nat, t: Table)
    requires n <= i <= |rs| && forall j :: n <= j < i ==> ExprValue(g, rs[j].cond, t) == 0
    ensures ActiveRange(g, k, rs, n, t) == ActiveRange(g, k, rs, i, t)
    decreases i - n
  {
    if n < i {
      RangeStep(g, k, rs, n, t);
      RangeSkip(g, k, rs, n + 1, i, t);
    }
  }

  lemma RangeHit(g: Graph, user: map<int, User>, k: Type, rs: seq<Range>, n: nat)
    requires n <= |rs| && (n < |rs| ==> Worth(g, user, rs[n].cond) != 0)
    ensures ActiveRange(g, k, rs, n, Final(g, user)) == if n < |rs| then Some(BoundsOf(g, user, k, rs[n])) else None
  {
  }

  lemma RangeIs(g: Graph, user: map<int, User>, k: Type, rs: seq<Range>) returns (i: nat)
    ensures FirstTrueRange(g, user, rs, i)
    ensures ActiveRange(g, k, rs, 0, Final(g, user)) == if i < |rs| then Some(BoundsOf(g, user, k, rs[i])) else None
  {
    var l := seq(|rs|, j requires 0 <= j < |rs| => Worth(g, user, rs[j].cond));
    i := FirstHit(l);
    forall j | 0 <= j < i ensures Worth(g, user, rs[j].cond) == 0 { assert l[j] == 0; }
    RangeSkip(g, k, rs, 0, i, Final(g, user));
    RangeHit(g, user, k, rs, i);
  }

  /** A user value in the range, if there is one, of a visible symbol. */
  ghost predicate UserFits(g: Graph, user: map<int, User>, s: int, r: nat)
  {
    && VisAt(g, user, s) != 0 && UserOf(user, s).StrValue? && UserOf(user, s).s != ""
    && (r < |It(g, s).ranges| ==> LowAt(g, user, s, r) <= Amount(g, It(g, s).kind, UserOf(user, s).s) <= HighAt(g, user, s, r))
  }

  lemma NumberIs(g: Graph, u: User, s: int, t: Table)
    requires It(g, s).kind == Int || It(g, s).kind == Hex
    ensures var k := It(g, s).kind;
      var r, d := ActiveRange(g, k, It(g, s).ranges, 0, t), FirstText(g, It(g, s).strDefaults, 0, t);
      var fits := Num(t(Key(s, FVis))) != 0 && u.StrValue? && u.s != "" && (r.Some? ==> r.v.low <= Amount(g, k, u.s) <= r.v.high);
      var n := if d.Some? then Amount(g, k, d.v) else 0;
      StrOf(g, u, s, t) ==
        if fits then u.s else if r.Some? && n < r.v.low then g.numbers.render(k, r.v.low)
        else if r.Some? && r.v.high < n then g.numbers.render(k, r.v.high) else if d.Some? then d.v else ""
  {
  }

  /** A number is its user value if that fits into the first range whose condition holds; or else its first default, and
      outside of the range the bound on that side. */
  lemma NumberMeaning(g: Graph, user: map<int, User>, s: int) returns (r: nat, i: nat)
    requires Ended(g, user, Key(s, FStr)) && (It(g, s).kind == Int || It(g, s).kind == Hex)
    ensures FirstTrueRange(g, user, It(g, s).ranges, r) && FirstTrueText(g, user, It(g, s).strDefaults, i)
    ensures UserFits(g, user, s, r) ==> TextAt(g, user, s) == UserOf(user, s).s
    ensures !UserFits(g, user, s, r) ==>
      var k, d := It(g, s).kind, DefaultText(g, user, It(g, s).strDefaults, i);
      var n := if i < |It(g, s).strDefaults| then Amount(g, k, d) else 0;
      && (r == |It(g, s).ranges| ==> TextAt(g, user, s) == d)
      && (r < |It(g, s).ranges| && n < LowAt(g, user, s, r) ==> TextAt(g, user, s) == g.numbers.render(k, LowAt(g, user, s, r)))
      && (r < |It(g, s).ranges| && LowAt(g, user, s, r) <= n <= HighAt(g, user, s, r) ==> TextAt(g, user, s) == d)
      && (r < |It(g, s).ranges| && HighAt(g, user, s, r) < n && LowAt(g, user, s, r) <= n ==>
            TextAt(g, user, s) == g.numbers.render(k, HighAt(g, user, s, r)))
  {
    Equation(g, user, Key(s, FStr));
    r := RangeIs(g, user, It(g, s).kind, It(g, s).ranges);
    i := FirstTextIs(g, user, It(g, s).strDefaults);
    NumberIs(g, UserOf(user, s), s, Final(g, user));
  }

  /** So the value of a number lies in its active range, whatever the user set and the defaults say, as long as numbers
      are read back as they are written. */
  lemma NumbersStayInRange(g: Graph, user: map<int, User>, s: int) returns (r: nat)
    requires Ended(g, user, Key(s, FStr)) && (It(g, s).kind == Int || It(g, s).kind == Hex)
    requires forall n :: g.numbers.parse(It(g, s).kind, g.numbers.render(It(g, s).kind, n)) == Some(n)
    requires g.numbers.parse(It(g, s).kind, "") == None
    ensures FirstTrueRange(g, user, It(g, s).ranges, r)
    ensures r < |It(g, s).ranges| && LowAt(g, user, s, r) <= HighAt(g, user, s, r) ==>
      LowAt(g, user, s, r) <= Amount(g, It(g, s).kind, TextAt(g, user, s)) <= HighAt(g, user, s, r)
  {
    var i;
    r, i := NumberMeaning(g, user, s);
  }

  // ---- setting values

  /** v is the tristate value n, as a number or as text. */
  predicate Spells(v: User, n: int)
  {
    v == TriValue(n) || v == StrValue(if n == 0 then "n" else if n == 1 then "m" else "y")
  }

  /** v is a tristate value that a symbol of kind k can have: not m for a boolean. */
  predicate FitsKind(k: Type, v: User, n: int)
  {
    0 <= n <= 2 && Spells(v, n) && (n == 1 ==> k == Type.Tri)
  }

  /** Setting a boolean or tristate symbol stores the value however it is spelled, and refuses what is none. */
  lemma SetTristate(g: Graph, user: map<int, User>, x: int, v: User)
    requires Proper(g, user) && Logical(It(g, x).kind)
    ensures var after := UserAfter(g, user, Set(x, v));
      && Proper(g, after) && (forall y :: y != x ==> UserOf(after, y) == UserOf(user, y))
      && (forall n :: FitsKind(It(g, x).kind, v, n) ==> UserOf(after, x) == TriValue(n))
      && ((forall n :: !FitsKind(It(g, x).kind, v, n)) ==> after == user)
  {
    var after := UserAfter(g, user, Set(x, v));
    assert UserOk(g, x, UserOf(user, x));
    assert !FitsKind(It(g, x).kind, v, 0) && !FitsKind(It(g, x).kind, v, 1) && !FitsKind(It(g, x).kind, v, 2) ==> after == user;
    forall s ensures UserOk(g, s, UserOf(after, s)) { assert UserOk(g, s, UserOf(user, s)); }
  }

  /** Setting another symbol stores a text that is valid for its type, and refuses everything else. */
  lemma SetText(g: Graph, user: map<int, User>, x: int, v: User)
    requires !Logical(It(g, x).kind)
    ensures var k, after := It(g, x).kind, UserAfter(g, user, Set(x, v));
      var valid := v.StrValue? && k != Unknown && (k == Int || k == Hex ==> g.numbers.parse(k, v.s).Some?)
        && (k == Hex ==> Amount(g, k, v.s) >= 0);
      && (valid ==> UserOf(after, x) == v) && (!valid ==> after == user)
      && forall y :: y != x ==> UserOf(after, y) == UserOf(user, y)
  {
  }

  /** Unsetting brings a symbol back to where it was without a user value. */
  lemma UnsetRestores(g: Graph, user: map<int, User>, x: int, v: User, s: int)
    requires UserOf(user, x) == NoValue
    ensures UserOf(UserAfter(g, UserAfter(g, user, Set(x, v)), Unset(x)), s) == UserOf(user, s)
  {
  }

  /** What a caller reads after setting a visible symbol: the value it set exactly if that is assignable, but for
      symbols that are pinned to y. */
  lemma SetThenRead(g: Graph, user: map<int, User>, x: int, v: User, n: int)
    requires Proper(g, user) && Logical(It(g, x).kind) && !Fixed(It(g, x)) && FitsKind(It(g, x).kind, v, n)
    requires var after := UserAfter(g, user, Set(x, v));
      Ended(g, after, Key(x, FTri)) && Ended(g, after, Key(x, FAsg)) && Ended(g, after, Key(x, FVis)) && VisAt(g, after, x) != 0
    ensures var after := UserAfter(g, user, Set(x, v));
      && Recomputed(g, after, Key(x, FAsg)).L?
      && ((n in Recomputed(g, after, Key(x, FAsg)).l <==> Replay(g, user, [Set(x, v), Get(x, FTri)]) == [N(n)])
          <==> !PinnedToY(g, after, x) || n == 0)
  {
    var after := UserAfter(g, user, Set(x, v));
    SetTristate(g, user, x, v);
    AssignableIff(g, after, x);
    Equation(g, after, Key(x, FTri));
    ReplayOne(g, user, Set(x, v), Get(x, FTri));
    assert [N(TriAt(g, after, x))] == [N(n)] <==> TriAt(g, after, x) == n;
  }

  lemma ReplayOne(g: Graph, user: map<int, User>, a: Op, b: Op)
    requires !a.Get? && b.Get?
    ensures Replay(g, user, [a, b]) == [Recomputed(g, UserAfter(g, user, a), Key(b.x, b.f))]
  {
    assert [a, b][1..] == [b];
    assert Replay(g, UserAfter(g, user, a), [b]) == [Recomputed(g, UserAfter(g, user, a), Key(b.x, b.f))] + [];
  }
}
