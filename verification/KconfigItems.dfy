/** Kconfig symbols, how their values follow from user values and from each other, and what each computation reads. */
module KconfigItems {
  import opened Basics
  import opened KconfigExpr

  datatype Type = Bool | Tri | String | Int | Hex | Unknown

  datatype Default = Default(value: Expr, cond: Expr)

  /** A default of a symbol that is not boolean names a symbol. */
  datatype StrDefault = StrDefault(sym: int, cond: Expr)

  datatype Range = Range(low: int, high: int, cond: Expr)

  /** A symbol: its name, orig_type, prompt conditions, defaults, ranges and dependencies. fixed is the value of
      the constants n, m and y. */
  datatype Item = Item(name: string, kind: Type, constant: bool, fixed: int, defined: bool, prompts: seq<Expr>, defaults: seq<Default>,
                       strDefaults: seq<StrDefault>, ranges: seq<Range>, rev: Expr, weak: Expr, direct: Expr)

  datatype Option<T> = None | Some(v: T)

  datatype Interval = Interval(low: int, high: int)

  /** int() in the base of a type, and str() or hex() for a type. */
  datatype Numbers = Numbers(parse: (Type, string) -> Option<int>, render: (Type, int) -> string)

  datatype Graph = Graph(items: map<int, Item>, modules: int, numbers: Numbers)

  datatype User = NoValue | TriValue(t: int) | StrValue(s: string)

  /** The cached fields of a symbol. */
  datatype Field = FVis | FTri | FStr | FAsg

  datatype Key = Key(s: int, f: Field)

  datatype Val = N(n: int) | S(s: string) | L(l: seq<int>)

  type Table = Key -> Val

  const NOTHING := Item("", Unknown, false, 0, false, [], [], [], [], Sym(0), Sym(0), Sym(0))

  function It(g: Graph, s: int): Item
  {
    if s in g.items then g.items[s] else NOTHING
  }

  predicate Logical(k: Type)
  {
    k == Bool || k == Tri
  }

  function Num(v: Val): int
  {
    if v.N? then v.n else 0
  }

  function Str(v: Val): string
  {
    if v.S? then v.s else ""
  }

  // ---- comparing operands

  /** _strcmp. */
  function StrCmp(a: string, b: string): int
    decreases |a|
  {
    if a == b then 0
    else if a == [] then -1
    else if b == [] then 1
    else if a[0] == b[0] then StrCmp(a[1..], b[1..])
    else if a[0] < b[0] then -1 else 1
  }

  /** The field that _sym_to_num looks at. */
  function NumKey(g: Graph, s: int): Key
  {
    if Logical(It(g, s).kind) then Key(s, FTri) else Key(s, FStr)
  }

  function SymToNum(g: Graph, s: int, t: Table): Option<int>
  {
    if Logical(It(g, s).kind) then Some(Num(t(Key(s, FTri)))) else g.numbers.parse(It(g, s).kind, Str(t(Key(s, FStr))))
  }

  function Compare(g: Graph, a: int, b: int, t: Table): int
  {
    var byText := StrCmp(Str(t(Key(a, FStr))), Str(t(Key(b, FStr))));
    if It(g, a).kind == String && It(g, b).kind == String then byText
    else if SymToNum(g, a, t).Some? && SymToNum(g, b, t).Some? then SymToNum(g, a, t).v - SymToNum(g, b, t).v
    else byText
  }

  /** What a comparison reads: the texts, or the numbers as far as they parse and then maybe the texts. */
  function CompareReads(g: Graph, a: int, b: int, t: Table): set<Key>
  {
    var texts := {Key(a, FStr), Key(b, FStr)};
    if It(g, a).kind == String && It(g, b).kind == String then texts
    else if SymToNum(g, a, t).None? then {NumKey(g, a)} + texts
    else if SymToNum(g, b, t).None? then {NumKey(g, a), NumKey(g, b)} + texts
    else {NumKey(g, a), NumKey(g, b)}
  }

  // ---- expressions

  function ValuesOf(g: Graph, t: Table): Values
  {
    Values(s => Num(t(Key(s, FTri))), (a, b) => Compare(g, a, b, t))
  }

  /** expr_value. */
  function ExprValue(g: Graph, e: Expr, t: Table): int
  {
    Value(e, ValuesOf(g, t))
  }

  /** What evaluating e reads: && and || stop early. */
  function ExprReads(g: Graph, e: Expr, t: Table): set<Key>
  {
    match e
    case Sym(s) => {Key(s, FTri)}
    case And(l, r) => ExprReads(g, l, t) + if ExprValue(g, l, t) == 0 then {} else ExprReads(g, r, t)
    case Or(l, r) => ExprReads(g, l, t) + if ExprValue(g, l, t) == 2 then {} else ExprReads(g, r, t)
    case Not(x) => ExprReads(g, x, t)
    case Relation(_, a, b) => CompareReads(g, a, b, t)
  }

  ghost predicate Agree(t: Table, t': Table, keys: set<Key>)
  {
    forall k :: k in keys ==> t(k) == t'(k)
  }

  lemma CompareAgrees(g: Graph, a: int, b: int, t: Table, t': Table)
    requires Agree(t, t', CompareReads(g, a, b, t))
    ensures Compare(g, a, b, t') == Compare(g, a, b, t) && CompareReads(g, a, b, t') == CompareReads(g, a, b, t)
  {
    assert NumKey(g, a) in CompareReads(g, a, b, t) || (It(g, a).kind == String && It(g, b).kind == String);
  }

  /** An expression has the same value on tables that agree on what it reads. */
  lemma {:induction false} ExprAgrees(g: Graph, e: Expr, t: Table, t': Table)
    requires Agree(t, t', ExprReads(g, e, t))
    ensures ExprValue(g, e, t') == ExprValue(g, e, t) && ExprReads(g, e, t') == ExprReads(g, e, t)
    decreases e
  {
    match e
    case Sym(s) =>
    case And(l, r) =>
      ExprAgrees(g, l, t, t');
      if ExprValue(g, l, t) != 0 { ExprAgrees(g, r, t, t'); }
    case Or(l, r) =>
      ExprAgrees(g, l, t, t');
      if ExprValue(g, l, t) != 2 { ExprAgrees(g, r, t, t'); }
    case Not(x) => ExprAgrees(g, x, t, t');
    case Relation(_, a, b) => CompareAgrees(g, a, b, t, t');
  }

  // ---- visibility

  /** Symbol.type outside choices: without modules, tristate symbols are boolean. */
  function TypeNow(g: Graph, s: int, t: Table): Type
  {
    if It(g, s).kind == Tri && Num(t(Key(g.modules, FTri))) == 0 then Bool else It(g, s).kind
  }

  function TypeReads(g: Graph, s: int): set<Key>
  {
    if It(g, s).kind == Tri then {Key(g.modules, FTri)} else {}
  }

  /** The greatest value of the first n prompt conditions. */
  function PromptVis(g: Graph, ps: seq<Expr>, n: nat, t: Table): int
    requires n <= |ps|
  {
    if n == 0 then 0 else Max(PromptVis(g, ps, n - 1, t), ExprValue(g, ps[n - 1], t))
  }

  function PromptReads(g: Graph, ps: seq<Expr>, n: nat, t: Table): set<Key>
    requires n <= |ps|
  {
    if n == 0 then {} else PromptReads(g, ps, n - 1, t) + ExprReads(g, ps[n - 1], t)
  }

  /** _visibility. */
  function VisValue(g: Graph, s: int, t: Table): int
  {
    var ps := It(g, s).prompts;
    var v := PromptVis(g, ps, |ps|, t);
    if v == 1 && TypeNow(g, s, t) != Tri then 2 else v
  }

  function VisReads(g: Graph, s: int, t: Table): set<Key>
  {
    var ps := It(g, s).prompts;
    PromptReads(g, ps, |ps|, t) + if PromptVis(g, ps, |ps|, t) == 1 then TypeReads(g, s) else {}
  }

  // ---- the tristate value

  /** The first default from n on whose condition holds, bounded by the condition. */
  function FirstDefault(g: Graph, ds: seq<Default>, n: nat, t: Table): int
    requires n <= |ds|
    decreases |ds| - n
  {
    if n == |ds| then 0
    else
      var c := ExprValue(g, ds[n].cond, t);
      if c != 0 then Min(ExprValue(g, ds[n].value, t), c) else FirstDefault(g, ds, n + 1, t)
  }

  function FirstReads(g: Graph, ds: seq<Default>, n: nat, t: Table): set<Key>
    requires n <= |ds|
    decreases |ds| - n
  {
    if n == |ds| then {}
    else ExprReads(g, ds[n].cond, t)
         + (if ExprValue(g, ds[n].cond, t) != 0 then ExprReads(g, ds[n].value, t) else FirstReads(g, ds, n + 1, t))
  }

  /** Defaults and implies, for a symbol without a user value in effect. */
  function Implied(g: Graph, s: int, t: Table): int
  {
    var it := It(g, s);
    var d := FirstDefault(g, it.defaults, 0, t);
    var w := ExprValue(g, it.weak, t);
    if w != 0 && ExprValue(g, it.direct, t) != 0 then Max(w, d) else d
  }

  function ImpliedReads(g: Graph, s: int, t: Table): set<Key>
  {
    var it := It(g, s);
    FirstReads(g, it.defaults, 0, t) + ExprReads(g, it.weak, t) +
      if ExprValue(g, it.weak, t) != 0 then ExprReads(g, it.direct, t) else {}
  }

  /** The user value decides when the symbol is visible and has one. */
  predicate ByUser(u: User, s: int, t: Table)
  {
    Num(t(Key(s, FVis))) != 0 && u != NoValue
  }

  function Chosen(g: Graph, u: User, s: int, t: Table): int
  {
    if ByUser(u, s, t) then Min(if u.TriValue? then u.t else 0, Num(t(Key(s, FVis)))) else Implied(g, s, t)
  }

  function ChosenReads(g: Graph, u: User, s: int, t: Table): set<Key>
  {
    {Key(s, FVis)} + if ByUser(u, s, t) then {} else ImpliedReads(g, s, t)
  }

  /** Selects raise the value. */
  function Selected(g: Graph, u: User, s: int, t: Table): int
  {
    var r := ExprValue(g, It(g, s).rev, t);
    if r != 0 then Max(r, Chosen(g, u, s, t)) else Chosen(g, u, s, t)
  }

  /** A select also makes the code compare the direct dependencies. */
  function SelectedReads(g: Graph, u: User, s: int, t: Table): set<Key>
  {
    ChosenReads(g, u, s, t) + ExprReads(g, It(g, s).rev, t)
    + if ExprValue(g, It(g, s).rev, t) != 0 then ExprReads(g, It(g, s).direct, t) else {}
  }

  /** m goes up to y for what is boolean now, or implied to y. */
  predicate Promoted(g: Graph, s: int, t: Table)
  {
    TypeNow(g, s, t) == Bool || ExprValue(g, It(g, s).weak, t) == 2
  }

  function PromotedReads(g: Graph, s: int, t: Table): set<Key>
  {
    TypeReads(g, s) + if TypeNow(g, s, t) == Bool then {} else ExprReads(g, It(g, s).weak, t)
  }

  predicate Fixed(it: Item)
  {
    it.constant && it.kind == Tri
  }

  function TriOf(g: Graph, u: User, s: int, t: Table): int
  {
    if Fixed(It(g, s)) then It(g, s).fixed
    else if !Logical(It(g, s).kind) then 0
    else if Selected(g, u, s, t) == 1 && Promoted(g, s, t) then 2
    else Selected(g, u, s, t)
  }

  function TriReads(g: Graph, u: User, s: int, t: Table): set<Key>
  {
    if Fixed(It(g, s)) || !Logical(It(g, s).kind) then {}
    else SelectedReads(g, u, s, t) + if Selected(g, u, s, t) == 1 then PromotedReads(g, s, t) else {}
  }

  // ---- the text value

  function TriText(n: int): string
  {
    if n == 0 then "n" else if n == 1 then "m" else "y"
  }

  /** The first default symbol from n on whose condition holds. */
  function FirstText(g: Graph, ds: seq<StrDefault>, n: nat, t: Table): Option<string>
    requires n <= |ds|
    decreases |ds| - n
  {
    if n == |ds| then None
    else if ExprValue(g, ds[n].cond, t) != 0 then Some(Str(t(Key(ds[n].sym, FStr))))
    else FirstText(g, ds, n + 1, t)
  }

  function FirstTextReads(g: Graph, ds: seq<StrDefault>, n: nat, t: Table): set<Key>
    requires n <= |ds|
    decreases |ds| - n
  {
    if n == |ds| then {}
    else ExprReads(g, ds[n].cond, t)
         + (if ExprValue(g, ds[n].cond, t) != 0 then {Key(ds[n].sym, FStr)} else FirstTextReads(g, ds, n + 1, t))
  }

  /** int() of a text in the base of the type, or 0. */
  function NumberOf(g: Graph, k: Type, x: string): int
  {
    if g.numbers.parse(k, x).Some? then g.numbers.parse(k, x).v else 0
  }

  /** The first range from n on that is in effect. */
  function ActiveRange(g: Graph, k: Type, rs: seq<Range>, n: nat, t: Table): Option<Interval>
    requires n <= |rs|
    decreases |rs| - n
  {
    if n == |rs| then None
    else if ExprValue(g, rs[n].cond, t) != 0 then
      Some(Interval(NumberOf(g, k, Str(t(Key(rs[n].low, FStr)))), NumberOf(g, k, Str(t(Key(rs[n].high, FStr))))))
    else ActiveRange(g, k, rs, n + 1, t)
  }

  function RangeReads(g: Graph, rs: seq<Range>, n: nat, t: Table): set<Key>
    requires n <= |rs|
    decreases |rs| - n
  {
    if n == |rs| then {}
    else ExprReads(g, rs[n].cond, t)
         + (if ExprValue(g, rs[n].cond, t) != 0 then {Key(rs[n].low, FStr), Key(rs[n].high, FStr)} else RangeReads(g, rs, n + 1, t))
  }

  /** The user value of a number is taken when the symbol is visible and the value lies in the active range. */
  predicate TakesUser(g: Graph, u: User, s: int, range: Option<Interval>, t: Table)
  {
    && ByUser(u, s, t) && u.StrValue? && u.s != ""
    && (range.None? || range.v.low <= NumberOf(g, It(g, s).kind, u.s) <= range.v.high)
  }

  /** A default is clamped into the active range, and then rewritten. */
  function Clamped(g: Graph, k: Type, d: Option<string>, range: Option<Interval>): string
  {
    var x := if d.Some? then d.v else "";
    var n := if d.Some? then NumberOf(g, k, x) else 0;
    if range.Some? && n < range.v.low then g.numbers.render(k, range.v.low)
    else if range.Some? && n > range.v.high then g.numbers.render(k, range.v.high)
    else x
  }

  function NumberText(g: Graph, u: User, s: int, t: Table): string
  {
    var it := It(g, s);
    var range := ActiveRange(g, it.kind, it.ranges, 0, t);
    if TakesUser(g, u, s, range, t) then u.s else Clamped(g, it.kind, FirstText(g, it.strDefaults, 0, t), range)
  }

  function NumberReads(g: Graph, u: User, s: int, t: Table): set<Key>
  {
    var it := It(g, s);
    {Key(s, FVis)} + RangeReads(g, it.ranges, 0, t) +
      if TakesUser(g, u, s, ActiveRange(g, it.kind, it.ranges, 0, t), t) then {} else FirstTextReads(g, it.strDefaults, 0, t)
  }

  function PlainText(g: Graph, u: User, s: int, t: Table): string
  {
    if ByUser(u, s, t) then (if u.StrValue? then u.s else "")
    else
      var d := FirstText(g, It(g, s).strDefaults, 0, t);
      if d.Some? then d.v else ""
  }

  function PlainReads(g: Graph, u: User, s: int, t: Table): set<Key>
  {
    {Key(s, FVis)} + if ByUser(u, s, t) then {} else FirstTextReads(g, It(g, s).strDefaults, 0, t)
  }

  /** Symbol.str_value. */
  function StrOf(g: Graph, u: User, s: int, t: Table): string
  {
    match It(g, s).kind
    case Bool => TriText(Num(t(Key(s, FTri))))
    case Tri => TriText(Num(t(Key(s, FTri))))
    case Unknown => It(g, s).name
    case String => PlainText(g, u, s, t)
    case Int => NumberText(g, u, s, t)
    case Hex => NumberText(g, u, s, t)
  }

  function StrReads(g: Graph, u: User, s: int, t: Table): set<Key>
  {
    match It(g, s).kind
    case Bool => {Key(s, FTri)}
    case Tri => {Key(s, FTri)}
    case Unknown => {}
    case String => PlainReads(g, u, s, t)
    case Int => NumberReads(g, u, s, t)
    case Hex => NumberReads(g, u, s, t)
  }

  // ---- the assignable values

  /** Symbol.assignable. */
  function AsgOf(g: Graph, s: int, t: Table): seq<int>
  {
    var vis, r := Num(t(Key(s, FVis))), ExprValue(g, It(g, s).rev, t);
    if !Logical(It(g, s).kind) || vis == 0 then []
    else if r == 2 then [2]
    else if vis == 2 then
      (if r == 0 then (if Promoted(g, s, t) then [0, 2] else [0, 1, 2]) else (if Promoted(g, s, t) then [2] else [1, 2]))
    else if r == 0 then (if ExprValue(g, It(g, s).weak, t) != 2 then [0, 1] else [0, 2])
    else [1]
  }

  function AsgReads(g: Graph, s: int, t: Table): set<Key>
  {
    var vis, r := Num(t(Key(s, FVis))), ExprValue(g, It(g, s).rev, t);
    if !Logical(It(g, s).kind) then {}
    else if vis == 0 then {Key(s, FVis)}
    else {Key(s, FVis)} + ExprReads(g, It(g, s).rev, t)
         + (if r == 2 then {} else if vis == 2 then PromotedReads(g, s, t) else if r == 0 then ExprReads(g, It(g, s).weak, t) else {})
  }

  // ---- all fields

  /** One field of one symbol, computed from the fields in t. */
  function Compute(g: Graph, u: User, k: Key, t: Table): Val
  {
    match k.f
    case FVis => N(VisValue(g, k.s, t))
    case FTri => N(TriOf(g, u, k.s, t))
    case FStr => S(StrOf(g, u, k.s, t))
    case FAsg => L(AsgOf(g, k.s, t))
  }

  /** The fields that the computation reads. */
  function Reads(g: Graph, u: User, k: Key, t: Table): set<Key>
  {
    match k.f
    case FVis => VisReads(g, k.s, t)
    case FTri => TriReads(g, u, k.s, t)
    case FStr => StrReads(g, u, k.s, t)
    case FAsg => AsgReads(g, k.s, t)
  }

  // ---- what only a warning looks at

  function FirstOperand(e: Expr): Expr
  {
    if e.And? then FirstOperand(e.l) else e
  }

  /** What the warning about one select reads: the selecting symbol, its dependencies, and the condition. */
  function SelectReads(g: Graph, e: Expr, t: Table): set<Key>
  {
    var first := FirstOperand(e);
    (if first.Sym? then {Key(first.s, FStr)} + if It(g, first.s).defined then ExprReads(g, It(g, first.s).direct, t) else {} else {})
    + if e.And? then ExprReads(g, e.r, t) else {}
  }

  /** What _warn_select_unsatisfied_deps reads for the selects in e, when the direct dependencies have the value d. */
  function WarnReads(g: Graph, e: Expr, d: int, t: Table): set<Key>
  {
    if e.Or? then WarnReads(g, e.l, d, t) + WarnReads(g, e.r, d, t)
    else ExprReads(g, e, t) + if ExprValue(g, e, t) > d then SelectReads(g, e, t) else {}
  }

  /** The warning comes when a select exceeds the direct dependencies. */
  function TriWarnings(g: Graph, s: int, t: Table): set<Key>
  {
    var r, d := ExprValue(g, It(g, s).rev, t), ExprValue(g, It(g, s).direct, t);
    if !Fixed(It(g, s)) && Logical(It(g, s).kind) && r != 0 && d < r then WarnReads(g, It(g, s).rev, d, t) else {}
  }

  /** All that is read while a field is computed, for its value or for a warning. */
  function Needs(g: Graph, u: User, k: Key, t: Table): set<Key>
  {
    Reads(g, u, k, t) + if k.f == FTri then TriWarnings(g, k.s, t) else {}
  }

  lemma SelectReadsAgree(g: Graph, e: Expr, t: Table, t': Table)
    requires Agree(t, t', SelectReads(g, e, t))
    ensures SelectReads(g, e, t') == SelectReads(g, e, t)
  {
    var first := FirstOperand(e);
    if first.Sym? && It(g, first.s).defined { ExprAgrees(g, It(g, first.s).direct, t, t'); }
    if e.And? { ExprAgrees(g, e.r, t, t'); }
  }

  lemma {:induction false} WarnReadsAgree(g: Graph, e: Expr, d: int, t: Table, t': Table)
    requires Agree(t, t', WarnReads(g, e, d, t))
    ensures WarnReads(g, e, d, t') == WarnReads(g, e, d, t)
    decreases e
  {
    if e.Or? {
      WarnReadsAgree(g, e.l, d, t, t');
      WarnReadsAgree(g, e.r, d, t, t');
    } else {
      ExprAgrees(g, e, t, t');
      if ExprValue(g, e, t) > d { SelectReadsAgree(g, e, t, t'); }
    }
  }

  lemma {:induction false} PromptsAgree(g: Graph, ps: seq<Expr>, n: nat, t: Table, t': Table)
    requires n <= |ps| && Agree(t, t', PromptReads(g, ps, n, t))
    ensures PromptVis(g, ps, n, t') == PromptVis(g, ps, n, t) && PromptReads(g, ps, n, t') == PromptReads(g, ps, n, t)
  {
    if n > 0 {
      PromptsAgree(g, ps, n - 1, t, t');
      ExprAgrees(g, ps[n - 1], t, t');
    }
  }

  lemma {:induction false} FirstAgrees(g: Graph, ds: seq<Default>, n: nat, t: Table, t': Table)
    requires n <= |ds| && Agree(t, t', FirstReads(g, ds, n, t))
    ensures FirstDefault(g, ds, n, t') == FirstDefault(g, ds, n, t) && FirstReads(g, ds, n, t') == FirstReads(g, ds, n, t)
    decreases |ds| - n
  {
    if n < |ds| {
      ExprAgrees(g, ds[n].cond, t, t');
      if ExprValue(g, ds[n].cond, t) != 0 { ExprAgrees(g, ds[n].value, t, t'); } else { FirstAgrees(g, ds, n + 1, t, t'); }
    }
  }

  lemma {:induction false} TextAgrees(g: Graph, ds: seq<StrDefault>, n: nat, t: Table, t': Table)
    requires n <= |ds| && Agree(t, t', FirstTextReads(g, ds, n, t))
    ensures FirstText(g, ds, n, t') == FirstText(g, ds, n, t) && FirstTextReads(g, ds, n, t') == FirstTextReads(g, ds, n, t)
    decreases |ds| - n
  {
    if n < |ds| {
      ExprAgrees(g, ds[n].cond, t, t');
      if ExprValue(g, ds[n].cond, t) == 0 { TextAgrees(g, ds, n + 1, t, t'); }
    }
  }

  lemma {:induction false} RangeAgrees(g: Graph, k: Type, rs: seq<Range>, n: nat, t: Table, t': Table)
    requires n <= |rs| && Agree(t, t', RangeReads(g, rs, n, t))
    ensures ActiveRange(g, k, rs, n, t') == ActiveRange(g, k, rs, n, t) && RangeReads(g, rs, n, t') == RangeReads(g, rs, n, t)
    decreases |rs| - n
  {
    if n < |rs| {
      ExprAgrees(g, rs[n].cond, t, t');
      if ExprValue(g, rs[n].cond, t) == 0 { RangeAgrees(g, k, rs, n + 1, t, t'); }
    }
  }

  lemma TypeAgrees(g: Graph, s: int, t: Table, t': Table)
    requires Agree(t, t', TypeReads(g, s))
    ensures TypeNow(g, s, t') == TypeNow(g, s, t)
  {
  }

  lemma VisAgrees(g: Graph, s: int, t: Table, t': Table)
    requires Agree(t, t', VisReads(g, s, t))
    ensures VisValue(g, s, t') == VisValue(g, s, t) && VisReads(g, s, t') == VisReads(g, s, t)
  {
    var ps := It(g, s).prompts;
    PromptsAgree(g, ps, |ps|, t, t');
    if PromptVis(g, ps, |ps|, t) == 1 { TypeAgrees(g, s, t, t'); }
  }

  lemma ImpliedAgrees(g: Graph, s: int, t: Table, t': Table)
    requires Agree(t, t', ImpliedReads(g, s, t))
    ensures Implied(g, s, t') == Implied(g, s, t) && ImpliedReads(g, s, t') == ImpliedReads(g, s, t)
  {
    FirstAgrees(g, It(g, s).defaults, 0, t, t');
    ExprAgrees(g, It(g, s).weak, t, t');
    if ExprValue(g, It(g, s).weak, t) != 0 { ExprAgrees(g, It(g, s).direct, t, t'); }
  }

  lemma ChosenAgrees(g: Graph, u: User, s: int, t: Table, t': Table)
    requires Agree(t, t', ChosenReads(g, u, s, t))
    ensures Chosen(g, u, s, t') == Chosen(g, u, s, t) && ChosenReads(g, u, s, t') == ChosenReads(g, u, s, t)
  {
    assert Key(s, FVis) in ChosenReads(g, u, s, t);
    if !ByUser(u, s, t) { ImpliedAgrees(g, s, t, t'); }
  }

  lemma SelectedAgrees(g: Graph, u: User, s: int, t: Table, t': Table)
    requires Agree(t, t', SelectedReads(g, u, s, t))
    ensures Selected(g, u, s, t') == Selected(g, u, s, t) && SelectedReads(g, u, s, t') == SelectedReads(g, u, s, t)
  {
    ChosenAgrees(g, u, s, t, t');
    ExprAgrees(g, It(g, s).rev, t, t');
    if ExprValue(g, It(g, s).rev, t) != 0 { ExprAgrees(g, It(g, s).direct, t, t'); }
  }

  lemma PromotedAgrees(g: Graph, s: int, t: Table, t': Table)
    requires Agree(t, t', PromotedReads(g, s, t))
    ensures Promoted(g, s, t') == Promoted(g, s, t) && PromotedReads(g, s, t') == PromotedReads(g, s, t)
  {
    TypeAgrees(g, s, t, t');
    if TypeNow(g, s, t) != Bool { ExprAgrees(g, It(g, s).weak, t, t'); }
  }

  lemma TriAgrees(g: Graph, u: User, s: int, t: Table, t': Table)
    requires Agree(t, t', TriReads(g, u, s, t))
    ensures TriOf(g, u, s, t') == TriOf(g, u, s, t) && TriReads(g, u, s, t') == TriReads(g, u, s, t)
  {
    if !Fixed(It(g, s)) && Logical(It(g, s).kind) {
      SelectedAgrees(g, u, s, t, t');
      if Selected(g, u, s, t) == 1 { PromotedAgrees(g, s, t, t'); }
    }
  }

  lemma StrAgrees(g: Graph, u: User, s: int, t: Table, t': Table)
    requires Agree(t, t', StrReads(g, u, s, t))
    ensures StrOf(g, u, s, t') == StrOf(g, u, s, t) && StrReads(g, u, s, t') == StrReads(g, u, s, t)
  {
    var it := It(g, s);
    if it.kind == String {
      assert Key(s, FVis) in StrReads(g, u, s, t);
      if !ByUser(u, s, t) { TextAgrees(g, it.strDefaults, 0, t, t'); }
    } else if it.kind == Int || it.kind == Hex {
      assert Key(s, FVis) in StrReads(g, u, s, t);
      RangeAgrees(g, it.kind, it.ranges, 0, t, t');
      if !TakesUser(g, u, s, ActiveRange(g, it.kind, it.ranges, 0, t), t) { TextAgrees(g, it.strDefaults, 0, t, t'); }
    }
  }

  lemma AsgAgrees(g: Graph, s: int, t: Table, t': Table)
    requires Agree(t, t', AsgReads(g, s, t))
    ensures AsgOf(g, s, t') == AsgOf(g, s, t) && AsgReads(g, s, t') == AsgReads(g, s, t)
  {
    if Logical(It(g, s).kind) {
      assert Key(s, FVis) in AsgReads(g, s, t);
      var vis := Num(t(Key(s, FVis)));
      if vis != 0 {
        ExprAgrees(g, It(g, s).rev, t, t');
        var r := ExprValue(g, It(g, s).rev, t);
        if r != 2 && vis == 2 { PromotedAgrees(g, s, t, t'); }
        if r == 0 && vis != 2 { ExprAgrees(g, It(g, s).weak, t, t'); }
      }
    }
  }

  /** A field only depends on what its computation reads, short cuts included. */
  lemma ComputeAgrees(g: Graph, u: User, k: Key, t: Table, t': Table)
    requires Agree(t, t', Reads(g, u, k, t))
    ensures Compute(g, u, k, t') == Compute(g, u, k, t) && Reads(g, u, k, t') == Reads(g, u, k, t)
  {
    match k.f
    case FVis => VisAgrees(g, k.s, t, t');
    case FTri => TriAgrees(g, u, k.s, t, t');
    case FStr => StrAgrees(g, u, k.s, t, t');
    case FAsg => AsgAgrees(g, k.s, t, t');
  }

  lemma WarningsAgree(g: Graph, u: User, s: int, t: Table, t': Table)
    requires Agree(t, t', TriReads(g, u, s, t) + TriWarnings(g, s, t))
    ensures TriWarnings(g, s, t') == TriWarnings(g, s, t)
  {
    if !Fixed(It(g, s)) && Logical(It(g, s).kind) {
      ExprAgrees(g, It(g, s).rev, t, t');
      if ExprValue(g, It(g, s).rev, t) != 0 {
        ExprAgrees(g, It(g, s).direct, t, t');
        var d := ExprValue(g, It(g, s).direct, t);
        if d < ExprValue(g, It(g, s).rev, t) { WarnReadsAgree(g, It(g, s).rev, d, t, t'); }
      }
    }
  }

  /** The same with what warnings read. */
  lemma NeedsAgree(g: Graph, u: User, k: Key, t: Table, t': Table)
    requires Agree(t, t', Needs(g, u, k, t))
    ensures Compute(g, u, k, t') == Compute(g, u, k, t) && Needs(g, u, k, t') == Needs(g, u, k, t)
  {
    ComputeAgrees(g, u, k, t, t');
    if k.f == FTri { WarningsAgree(g, u, k.s, t, t'); }
  }
}
