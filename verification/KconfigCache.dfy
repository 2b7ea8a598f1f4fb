/** Kconfig symbol values with their caches, changed in place. */
module KconfigCache {
  import opened Basics
  import opened KconfigExpr
  import opened KconfigItems
  import opened KconfigEvaluation
  import opened KconfigLoops
  import opened KconfigCoherence

  class Kconfig {
    const g: Graph
    const deps: map<int, set<int>>      // _dependents of each symbol
    var user: map<int, User>            // user_value of each symbol
    var cache: Cache                    // _cached_vis, _cached_tri_val, _cached_str_val and _cached_assignable

    ghost var sem: Semantics            // what the fields should be
    ghost var run: Semantics            // which of them can be computed, and how deep that nests

    ghost predicate Valid()
      reads this
    {
      && WellFormed(g) && DepsOk(g, deps)
      && Solves(g, user, sem) && Guides(g, user, sem, run) && Coherent(cache, sem) && Backed(g, user, cache, sem)
    }

    ghost predicate Cached(keys: set<Key>)
      reads this
    {
      keys <= cache.Keys
    }

    /** Computing these fields ends, and nests less than top deep. */
    ghost predicate Ready(keys: set<Key>, top: nat)
      reads `run
    {
      forall r {:trigger r in keys} :: r in keys ==> r in run.live && run.depth(r) < top
    }

    constructor (g: Graph, deps: map<int, set<int>>)
      requires WellFormed(g) && DepsOk(g, deps)
      ensures Valid() && user == map[] && cache == map[] && this.g == g && this.deps == deps
    {
      this.g, this.deps := g, deps;
      user, cache := map[], map[];
      sem, run := Recomputation(SystemOf(g, map[])), Recomputation(Evaluation(g, map[]));
      new;
      RecomputationSolves(g, map[]);
      EvaluationGuides(g, map[], sem);
    }

    /** A field that ends: what it reads is ready, and it is what its computation gives. */
    ghost predicate Open(k: Key)
      reads this
    {
      k in sem.live && Ready(Needs(g, UserOf(user, k.s), k, sem.val), run.depth(k))
      && sem.val(k) == Compute(g, UserOf(user, k.s), k, sem.val)
    }

    lemma LiveIsOpen(k: Key)
      requires Valid() && k in run.live
      ensures Open(k)
    {
      assert GuidesAt(g, user, sem, run, k);
      SolvedAt(g, user, sem, k);
    }

    /** Writes one cached field, whose reads are cached. */
    method Store(k: Key, v: Val)
      requires Valid() && k in run.live && v == Compute(g, UserOf(user, k.s), k, sem.val)
      requires Cached(Reads(g, UserOf(user, k.s), k, sem.val))
      modifies `cache
      ensures Valid() && cache.Keys == old(cache).Keys + {k} && v == sem.val(k)
    {
      LiveIsOpen(k);
      StoreKeeps(g, user, cache, sem, k, v);
      cache := cache[k := v];
    }

    // ---- reading

    /** Symbol.tri_value. */
    method TriValue(s: int) returns (v: int)
      requires Valid() && Key(s, FTri) in run.live
      modifies `cache
      ensures Valid() && old(cache).Keys + {Key(s, FTri)} <= cache.Keys && sem.val(Key(s, FTri)) == N(v)
      decreases run.depth(Key(s, FTri)), 9
    {
      var k := Key(s, FTri);
      LiveIsOpen(k);
      if k in cache {
        return cache[k].n;
      }
      if Fixed(It(g, s)) {
        v := It(g, s).fixed;
      } else if !Logical(It(g, s).kind) {
        v := 0;
      } else {
        v := LogicalValue(s, run.depth(k));
      }
      Store(k, N(v));
    }

    /** The tristate value of a defined boolean or tristate symbol. */
    method LogicalValue(s: int, ghost top: nat) returns (v: int)
      requires Valid() && Logical(It(g, s).kind) && !Fixed(It(g, s))
      requires Ready(TriReads(g, UserOf(user, s), s, sem.val), top) && Ready(TriWarnings(g, s, sem.val), top)
      modifies `cache
      ensures Valid() && old(cache).Keys <= cache.Keys
      ensures v == TriOf(g, UserOf(user, s), s, sem.val) && Cached(TriReads(g, UserOf(user, s), s, sem.val))
      decreases top, 8
    {
      v := SelectedValue(s, top);
      if v == 1 {
        var up := IsPromoted(s, top);
        if up {
          v := 2;
        }
      }
    }

    /** The value with selects, before m is promoted. */
    method SelectedValue(s: int, ghost top: nat) returns (v: int)
      requires Valid() && Logical(It(g, s).kind) && !Fixed(It(g, s))
      requires Ready(SelectedReads(g, UserOf(user, s), s, sem.val), top) && Ready(TriWarnings(g, s, sem.val), top)
      modifies `cache
      ensures Valid() && old(cache).Keys <= cache.Keys && v == Selected(g, UserOf(user, s), s, sem.val)
      ensures Cached(SelectedReads(g, UserOf(user, s), s, sem.val))
      decreases top, 7
    {
      v := ChosenValue(s, top);
      var r := Eval(It(g, s).rev, top);
      if r != 0 {
        var d := Eval(It(g, s).direct, top);
        if d < r {
          Warn(It(g, s).rev, d, top);
        }
        v := Basics.Max(r, v);
      }
    }

    /** _warn_select_unsatisfied_deps, as far as it evaluates anything; d is the value of the direct dependencies. */
    method Warn(e: Expr, d: int, ghost top: nat)
      requires Valid() && Ready(WarnReads(g, e, d, sem.val), top)
      modifies `cache
      ensures Valid() && old(cache).Keys <= cache.Keys
      decreases top, 6, e
    {
      if e.Or? {
        Warn(e.l, d, top);
        Warn(e.r, d, top);
        return;
      }
      var v := Eval(e, top);
      if v > d {
        WarnSelect(e, top);
      }
    }

    /** One select that exceeds the direct dependencies. */
    method WarnSelect(e: Expr, ghost top: nat)
      requires Valid() && Ready(SelectReads(g, e, sem.val), top)
      modifies `cache
      ensures Valid() && old(cache).Keys <= cache.Keys
      decreases top, 5
    {
      var first := FirstOperand(e);
      if first.Sym? {
        assert Key(first.s, FStr) in SelectReads(g, e, sem.val);
        var text := StrValue(first.s);
        if It(g, first.s).defined {
          var d := Eval(It(g, first.s).direct, top);
        }
      }
      if e.And? {
        var c := Eval(e.r, top);
      }
    }

    /** The user value as far as visibility allows, or else defaults and implies. */
    method ChosenValue(s: int, ghost top: nat) returns (v: int)
      requires Valid() && Ready(ChosenReads(g, UserOf(user, s), s, sem.val), top)
      modifies `cache
      ensures Valid() && old(cache).Keys <= cache.Keys && v == Chosen(g, UserOf(user, s), s, sem.val)
      ensures Cached(ChosenReads(g, UserOf(user, s), s, sem.val))
      decreases top, 6
    {
      assert Key(s, FVis) in ChosenReads(g, UserOf(user, s), s, sem.val);
      var vis := Visibility(s);
      var u := if s in user then user[s] else NoValue;
      if vis != 0 && u != NoValue {
        return Basics.Min(if u.TriValue? then u.t else 0, vis);
      }
      v := ImpliedValue(s, top);
    }

    /** Defaults and implies. */
    method ImpliedValue(s: int, ghost top: nat) returns (v: int)
      requires Valid() && Ready(ImpliedReads(g, s, sem.val), top)
      modifies `cache
      ensures Valid() && old(cache).Keys <= cache.Keys && v == Implied(g, s, sem.val) && Cached(ImpliedReads(g, s, sem.val))
      decreases top, 5
    {
      var it := It(g, s);
      v := FirstDefaultValue(it.defaults, top);
      var w := Eval(it.weak, top);
      if w != 0 {
        var d := Eval(it.direct, top);
        if d != 0 {
          v := Basics.Max(w, v);
        }
      }
    }

    method FirstDefaultValue(ds: seq<Default>, ghost top: nat) returns (v: int)
      requires Valid() && Ready(FirstReads(g, ds, 0, sem.val), top)
      modifies `cache
      ensures Valid() && old(cache).Keys <= cache.Keys
      ensures v == FirstDefault(g, ds, 0, sem.val) && Cached(FirstReads(g, ds, 0, sem.val))
      decreases top, 4
    {
      var n := 0;
      while n < |ds|
        invariant 0 <= n <= |ds| && Valid() && old(cache).Keys <= cache.Keys && Ready(FirstReads(g, ds, n, sem.val), top)
        invariant FirstDefault(g, ds, 0, sem.val) == FirstDefault(g, ds, n, sem.val)
        invariant FirstReads(g, ds, 0, sem.val) <= cache.Keys + FirstReads(g, ds, n, sem.val)
        decreases |ds| - n
      {
        var c := Eval(ds[n].cond, top);
        if c != 0 {
          var x := Eval(ds[n].value, top);
          return Basics.Min(x, c);
        }
        n := n + 1;
      }
      return 0;
    }

    /** Whether m goes up to y. */
    method IsPromoted(s: int, ghost top: nat) returns (yes: bool)
      requires Valid() && Ready(PromotedReads(g, s, sem.val), top)
      modifies `cache
      ensures Valid() && old(cache).Keys <= cache.Keys && yes == Promoted(g, s, sem.val) && Cached(PromotedReads(g, s, sem.val))
      decreases top, 5
    {
      var k := TypeOf(s, top);
      if k == Bool {
        return true;
      }
      var w := Eval(It(g, s).weak, top);
      return w == 2;
    }

    /** Symbol.type. */
    method TypeOf(s: int, ghost top: nat) returns (k: Type)
      requires Valid() && Ready(TypeReads(g, s), top)
      modifies `cache
      ensures Valid() && old(cache).Keys <= cache.Keys && k == TypeNow(g, s, sem.val) && Cached(TypeReads(g, s))
      decreases top, 4
    {
      k := It(g, s).kind;
      if k == Tri {
        var m := TriValue(g.modules);
        if m == 0 {
          k := Bool;
        }
      }
    }

    /** Symbol.visibility. */
    method Visibility(s: int) returns (v: int)
      requires Valid() && Key(s, FVis) in run.live
      modifies `cache
      ensures Valid() && old(cache).Keys + {Key(s, FVis)} <= cache.Keys && sem.val(Key(s, FVis)) == N(v)
      decreases run.depth(Key(s, FVis)), 9
    {
      var k := Key(s, FVis);
      LiveIsOpen(k);
      if k in cache {
        return cache[k].n;
      }
      v := PromptVisibility(It(g, s).prompts, run.depth(k));
      if v == 1 {
        var kind := TypeOf(s, run.depth(k));
        if kind != Tri {
          v := 2;
        }
      }
      Store(k, N(v));
    }

    /** The greatest value of some conditions. */
    method PromptVisibility(ps: seq<Expr>, ghost top: nat) returns (v: int)
      requires Valid() && Ready(PromptReads(g, ps, |ps|, sem.val), top)
      modifies `cache
      ensures Valid() && old(cache).Keys <= cache.Keys
      ensures v == PromptVis(g, ps, |ps|, sem.val) && Cached(PromptReads(g, ps, |ps|, sem.val))
      decreases top, 4
    {
      v := 0;
      for n := 0 to |ps|
        invariant Valid() && old(cache).Keys <= cache.Keys
        invariant v == PromptVis(g, ps, n, sem.val) && Cached(PromptReads(g, ps, n, sem.val))
      {
        PromptReadsGrow(g, ps, n, |ps|, sem.val);
        var x := Eval(ps[n], top);
        v := Basics.Max(v, x);
      }
    }

    /** expr_value. */
    method Eval(e: Expr, ghost top: nat) returns (v: int)
      requires Valid() && Ready(ExprReads(g, e, sem.val), top)
      modifies `cache
      ensures Valid() && old(cache).Keys <= cache.Keys && v == ExprValue(g, e, sem.val) && Cached(ExprReads(g, e, sem.val))
      decreases top, 3, e
    {
      match e
      case Sym(s) =>
        v := TriValue(s);
      case And(l, r) =>
        v := Eval(l, top);
        if v != 0 {
          var w := Eval(r, top);
          v := Basics.Min(v, w);
        }
      case Or(l, r) =>
        v := Eval(l, top);
        if v != 2 {
          var w := Eval(r, top);
          v := Basics.Max(v, w);
        }
      case Not(x) =>
        v := Eval(x, top);
        v := 2 - v;
      case Relation(op, a, b) =>
        var c := CompareValues(a, b, top);
        v := if KconfigExpr.Holds(op, c) then 2 else 0;
    }

    /** The comparison of two operands, as numbers if both parse. */
    method CompareValues(a: int, b: int, ghost top: nat) returns (c: int)
      requires Valid() && Ready(CompareReads(g, a, b, sem.val), top)
      modifies `cache
      ensures Valid() && old(cache).Keys <= cache.Keys && c == Compare(g, a, b, sem.val) && Cached(CompareReads(g, a, b, sem.val))
      decreases top, 2
    {
      if !(It(g, a).kind == String && It(g, b).kind == String) {
        var x := NumberValue(a, top);
        if x.Some? {
          var y := NumberValue(b, top);
          if y.Some? {
            return x.v - y.v;
          }
        }
      }
      var x := StrValue(a);
      var y := StrValue(b);
      return StrCmp(x, y);
    }

    /** _sym_to_num; None where it raises ValueError. */
    method NumberValue(s: int, ghost top: nat) returns (x: Option<int>)
      requires Valid() && Ready({NumKey(g, s)}, top)
      modifies `cache
      ensures Valid() && old(cache).Keys <= cache.Keys && x == SymToNum(g, s, sem.val) && NumKey(g, s) in cache
      decreases top, 1
    {
      assert NumKey(g, s) in {NumKey(g, s)};
      if Logical(It(g, s).kind) {
        var v := TriValue(s);
        return Some(v);
      }
      var t := StrValue(s);
      return g.numbers.parse(It(g, s).kind, t);
    }

    /** Symbol.str_value. */
    method StrValue(s: int) returns (v: string)
      requires Valid() && Key(s, FStr) in run.live
      modifies `cache
      ensures Valid() && old(cache).Keys + {Key(s, FStr)} <= cache.Keys && sem.val(Key(s, FStr)) == S(v)
      decreases run.depth(Key(s, FStr)), 9
    {
      var k := Key(s, FStr);
      LiveIsOpen(k);
      if k in cache {
        return cache[k].s;
      }
      match It(g, s).kind {
        case Bool => var t := TriValue(s); v := TriText(t);
        case Tri => var t := TriValue(s); v := TriText(t);
        case Unknown => v := It(g, s).name;
        case String => v := PlainValue(s, run.depth(k));
        case Int => v := NumeralValue(s, run.depth(k));
        case Hex => v := NumeralValue(s, run.depth(k));
      }
      Store(k, S(v));
    }

    method PlainValue(s: int, ghost top: nat) returns (v: string)
      requires Valid() && Ready(PlainReads(g, UserOf(user, s), s, sem.val), top)
      modifies `cache
      ensures Valid() && old(cache).Keys <= cache.Keys
      ensures v == PlainText(g, UserOf(user, s), s, sem.val) && Cached(PlainReads(g, UserOf(user, s), s, sem.val))
      decreases top, 8
    {
      assert Key(s, FVis) in PlainReads(g, UserOf(user, s), s, sem.val);
      var vis := Visibility(s);
      var u := if s in user then user[s] else NoValue;
      if vis != 0 && u != NoValue {
        return if u.StrValue? then u.s else "";
      }
      var d := FirstTextValue(It(g, s).strDefaults, top);
      return if d.Some? then d.v else "";
    }

    method FirstTextValue(ds: seq<StrDefault>, ghost top: nat) returns (v: Option<string>)
      requires Valid() && Ready(FirstTextReads(g, ds, 0, sem.val), top)
      modifies `cache
      ensures Valid() && old(cache).Keys <= cache.Keys
      ensures v == FirstText(g, ds, 0, sem.val) && Cached(FirstTextReads(g, ds, 0, sem.val))
      decreases top, 4
    {
      var n := 0;
      while n < |ds|
        invariant 0 <= n <= |ds| && Valid() && old(cache).Keys <= cache.Keys && Ready(FirstTextReads(g, ds, n, sem.val), top)
        invariant FirstText(g, ds, 0, sem.val) == FirstText(g, ds, n, sem.val)
        invariant FirstTextReads(g, ds, 0, sem.val) <= cache.Keys + FirstTextReads(g, ds, n, sem.val)
        decreases |ds| - n
      {
        var c := Eval(ds[n].cond, top);
        if c != 0 {
          var x := StrValue(ds[n].sym);
          return Some(x);
        }
        n := n + 1;
      }
      return None;
    }

    method FirstRange(rs: seq<Range>, kind: Type, ghost top: nat) returns (v: Option<Interval>)
      requires Valid() && Ready(RangeReads(g, rs, 0, sem.val), top)
      modifies `cache
      ensures Valid() && old(cache).Keys <= cache.Keys
      ensures v == ActiveRange(g, kind, rs, 0, sem.val) && Cached(RangeReads(g, rs, 0, sem.val))
      decreases top, 7
    {
      ghost var n;
      v, n := SearchRange(rs, kind, top);
      RangesSkipped(g, kind, rs, n, sem.val, cache.Keys);
    }

    /** Tries the ranges one after the other; n is the one in effect, or |rs|. */
    method SearchRange(rs: seq<Range>, kind: Type, ghost top: nat) returns (v: Option<Interval>, ghost n: nat)
      requires Valid() && Ready(RangeReads(g, rs, 0, sem.val), top)
      modifies `cache
      ensures Valid() && old(cache).Keys <= cache.Keys && RangesOff(g, rs, n, sem.val, cache.Keys)
      ensures v.None? ==> n == |rs|
      ensures v.Some? ==> v == ActiveRange(g, kind, rs, n, sem.val) && Cached(RangeReads(g, rs, n, sem.val))
      decreases top, 6
    {
      var i := 0;
      while i < |rs|
        invariant 0 <= i <= |rs| && Valid() && old(cache).Keys <= cache.Keys
        invariant RangesOff(g, rs, i, sem.val, cache.Keys)
        decreases |rs| - i
      {
        RangesSkipped(g, kind, rs, i, sem.val, cache.Keys);
        ghost var cached := cache.Keys;
        v := RangeAt(rs, kind, i, top);
        RangesOffMore(g, rs, i, sem.val, cached, cache.Keys);
        if v.Some? {
          return v, i;
        }
        i := i + 1;
      }
      return None, i;
    }

    /** The bounds of range n if its condition holds. */
    method RangeAt(rs: seq<Range>, kind: Type, n: nat, ghost top: nat) returns (v: Option<Interval>)
      requires Valid() && n < |rs| && Ready(RangeReads(g, rs, n, sem.val), top)
      modifies `cache
      ensures Valid() && old(cache).Keys <= cache.Keys && Cached(ExprReads(g, rs[n].cond, sem.val))
      ensures v.None? <==> ExprValue(g, rs[n].cond, sem.val) == 0
      ensures v.Some? ==> v == ActiveRange(g, kind, rs, n, sem.val) && Cached(RangeReads(g, rs, n, sem.val))
      decreases top, 5
    {
      RangeStep(g, kind, rs, n, sem.val);
      var c := Eval(rs[n].cond, top);
      if c == 0 {
        return None;
      }
      assert Key(rs[n].low, FStr) in RangeReads(g, rs, n, sem.val) && Key(rs[n].high, FStr) in RangeReads(g, rs, n, sem.val);
      v := Bounds(rs[n], kind, top);
    }

    method Bounds(r: Range, kind: Type, ghost top: nat) returns (v: Option<Interval>)
      requires Valid() && Ready({Key(r.low, FStr)}, top) && Ready({Key(r.high, FStr)}, top)
      modifies `cache
      ensures Valid() && old(cache).Keys + {Key(r.low, FStr), Key(r.high, FStr)} <= cache.Keys
      ensures v == Some(Interval(NumberOf(g, kind, Str(sem.val(Key(r.low, FStr)))), NumberOf(g, kind, Str(sem.val(Key(r.high, FStr))))))
      decreases top, 4
    {
      assert Key(r.low, FStr) in {Key(r.low, FStr)} && Key(r.high, FStr) in {Key(r.high, FStr)};
      var a := StrValue(r.low);
      var b := StrValue(r.high);
      return Some(Interval(NumberOf(g, kind, a), NumberOf(g, kind, b)));
    }

    /** The text value of an int or hex symbol. */
    method NumeralValue(s: int, ghost top: nat) returns (v: string)
      requires Valid() && Ready(NumberReads(g, UserOf(user, s), s, sem.val), top)
      modifies `cache
      ensures Valid() && old(cache).Keys <= cache.Keys
      ensures v == NumberText(g, UserOf(user, s), s, sem.val) && Cached(NumberReads(g, UserOf(user, s), s, sem.val))
      decreases top, 8
    {
      assert Key(s, FVis) in NumberReads(g, UserOf(user, s), s, sem.val);
      var kind := It(g, s).kind;
      var vis := Visibility(s);
      var range := FirstRange(It(g, s).ranges, kind, top);
      var u := if s in user then user[s] else NoValue;
      if vis != 0 && u.StrValue? && u.s != "" {
        var n := NumberOf(g, kind, u.s);
        if range.None? || range.v.low <= n <= range.v.high {
          return u.s;
        }
      }
      var d := FirstTextValue(It(g, s).strDefaults, top);
      return Clamped(g, kind, d, range);
    }

    /** Symbol.assignable. */
    method Assignable(s: int) returns (v: seq<int>)
      requires Valid() && Key(s, FAsg) in run.live
      modifies `cache
      ensures Valid() && old(cache).Keys + {Key(s, FAsg)} <= cache.Keys && sem.val(Key(s, FAsg)) == L(v)
      decreases run.depth(Key(s, FAsg)), 9
    {
      var k := Key(s, FAsg);
      LiveIsOpen(k);
      if k in cache {
        return cache[k].l;
      }
      v := AssignableNow(s, run.depth(k));
      Store(k, L(v));
    }

    method AssignableNow(s: int, ghost top: nat) returns (v: seq<int>)
      requires Valid() && Ready(AsgReads(g, s, sem.val), top)
      modifies `cache
      ensures Valid() && old(cache).Keys <= cache.Keys && v == AsgOf(g, s, sem.val) && Cached(AsgReads(g, s, sem.val))
      decreases top, 8
    {
      if !Logical(It(g, s).kind) {
        return [];
      }
      assert Key(s, FVis) in AsgReads(g, s, sem.val);
      var vis := Visibility(s);
      if vis == 0 {
        return [];
      }
      var r := Eval(It(g, s).rev, top);
      if r == 2 {
        return [2];
      }
      if vis == 2 {
        var up := IsPromoted(s, top);
        if r == 0 {
          return if up then [0, 2] else [0, 1, 2];
        }
        return if up then [2] else [1, 2];
      }
      if r == 0 {
        var w := Eval(It(g, s).weak, top);
        return if w != 2 then [0, 1] else [0, 2];
      }
      return [1];
    }

    // ---- invalidation

    /** Symbol._invalidate. */
    method Invalidate(s: int)
      modifies `cache
      ensures cache == Without(old(cache), {s})
    {
      cache := cache - {Key(s, FVis), Key(s, FTri), Key(s, FStr), Key(s, FAsg)};
      assert forall k: Key :: k in {Key(s, FVis), Key(s, FTri), Key(s, FStr), Key(s, FAsg)} <==> k.s == s by { AllFields(s); }
    }

    /** Kconfig._invalidate_all. */
    method InvalidateAll() returns (ghost gone: set<int>)
      modifies `cache
      ensures cache == Without(old(cache), gone) && forall s :: s in gone <==> It(g, s).defined
    {
      var todo := g.items.Keys;
      gone := {};
      assert Without(cache, {}) == cache;
      while todo != {}
        invariant todo <= g.items.Keys && cache == Without(old(cache), gone)
        invariant forall s :: s in gone <==> s in g.items.Keys - todo && It(g, s).defined
        decreases todo
      {
        var s := Pick(todo);
        todo := todo - {s};
        if g.items[s].defined {
          WithoutMore(old(cache), gone, {s});
          Invalidate(s);
          gone := gone + {s};
        }
      }
    }

    /** Symbol._rec_invalidate; gone collects the invalidated symbols. It stops at symbols whose visibility is not
        cached, and ends because ever fewer symbols have a cached visibility. */
    method RecInvalidate(x: int) returns (ghost gone: set<int>)
      requires DepsOk(g, deps) && It(g, x).defined
      modifies `cache
      ensures cache == Without(old(cache), gone) && x in gone && ClearedGone(g, deps, cache, gone, {})
      decreases Visible(cache) - {x}
    {
      if x == g.modules {
        gone := InvalidateAll();
        AllGone(g, deps, old(cache), cache, gone);
        return;
      }
      Invalidate(x);
      gone := {x};
      var todo := Dependents(deps, x);
      StartGone(g, deps, cache, x);
      while todo != {}
        invariant todo <= Dependents(deps, x) && cache == Without(old(cache), gone) && x in gone
        invariant ClearedGone(g, deps, cache, gone, todo)
        decreases todo
      {
        var item := Pick(todo);
        todo := todo - {item};
        if Key(item, FVis) in cache {
          assert It(g, item).defined;
          Fewer(old(cache), cache, gone, x, item);
          ghost var more, before := {}, cache;
          more := RecInvalidate(item);
          WithoutMore(old(cache), gone, more);
          GoneMore(g, deps, before, cache, gone, more, todo, item);
          gone := gone + more;
        } else {
          GoneOn(g, deps, cache, gone, todo, item);
        }
      }
    }

    // ---- user values

    ghost method SetRun()
      requires Solves(g, user, sem)
      modifies `run
      ensures Guides(g, user, sem, run)
    {
      run := Recomputation(Evaluation(g, user));
      EvaluationGuides(g, user, sem);
    }

    /** Gives x the user value v, and invalidates what may depend on it. */
    method ChangeUser(x: int, v: User)
      requires Valid()
      modifies `user, `cache, `sem, `run
      ensures Valid() && user == old(user)[x := v]
    {
      ghost var user0, cache0 := user, cache;
      assert ItemOk(It(g, x));
      user := user[x := v];
      if It(g, x).prompts != [] {
        ghost var gone := RecInvalidate(x);
        GoneIsCleared(g, deps, cache0, cache, gone);
        Reconsider(user0, cache0, gone);
      } else {
        PromptlessKeeps(g, user0, sem, cache, x, v);
        SetRun();
      }
    }

    /** What the fields should be now that user values of symbols in gone changed. */
    ghost method Reconsider(user0: map<int, User>, cache0: Cache, gone: set<int>)
      requires WellFormed(g) && DepsOk(g, deps) && Solves(g, user0, sem) && Coherent(cache0, sem) && Backed(g, user0, cache0, sem)
      requires Cleared(g, deps, cache0, cache, gone) && forall s :: s !in gone ==> UserOf(user, s) == UserOf(user0, s)
      modifies `sem, `run
      ensures Valid()
    {
      ghost var sem0 := sem;
      sem := Recomputation(SystemOf(g, user));
      RecomputationSolves(g, user);
      AllSurvive(g, deps, user0, user, sem0, sem, cache0, cache, gone);
      SetRun();
    }

    /** Symbol.set_value, outside choices. */
    method SetValue(x: int, v: User) returns (ok: bool)
      requires Valid()
      modifies `user, `cache, `sem, `run
      ensures Valid() && user == UserAfter(g, old(user), Set(x, v)) && ok == (UserOf(old(user), x) == v || Accepts(g, x, v))
    {
      if (if x in user then user[x] else NoValue) == v {
        return true;
      }
      if !Accepts(g, x, v) {
        return false;
      }
      ChangeUser(x, Normal(g, x, v));
      return true;
    }

    /** Symbol.unset_value. */
    method UnsetValue(x: int)
      requires Valid()
      modifies `user, `cache, `sem, `run
      ensures Valid() && user == UserAfter(g, old(user), Unset(x))
    {
      if (if x in user then user[x] else NoValue) != NoValue {
        ChangeUser(x, NoValue);
      }
    }

    /** Reads any value of any symbol whose computation ends, through the caches. */
    method Read(k: Key) returns (v: Val)
      requires Valid() && Finite(g, user, k)
      modifies `cache
      ensures Valid() && v == Recomputed(g, user, k)
    {
      assert GuidesAt(g, user, sem, run, k);
      FiniteIsLive(g, user, sem, k);
      match k.f {
        case FVis => var x := Visibility(k.s); v := N(x);
        case FTri => var x := TriValue(k.s); v := N(x);
        case FStr => var x := StrValue(k.s); v := S(x);
        case FAsg => var x := Assignable(k.s); v := L(x);
      }
    }

    method Do(op: Op) returns (out: seq<Val>)
      requires Valid() && (op.Get? ==> Finite(g, user, Key(op.x, op.f)))
      modifies `user, `cache, `sem, `run
      ensures Valid() && user == UserAfter(g, old(user), op)
      ensures out == if op.Get? then [Recomputed(g, old(user), Key(op.x, op.f))] else []
    {
      match op {
        case Get(x, f) => var v := Read(Key(x, f)); out := [v];
        case Set(x, v) => var ok := SetValue(x, v); out := [];
        case Unset(x) => UnsetValue(x); out := [];
      }
    }

    /** Any mix of reads that end and changes gives what recomputation from the user values gives each time. */
    method Perform(ops: seq<Op>) returns (out: seq<Val>)
      requires Valid() && AllFinite(g, user, ops)
      modifies `user, `cache, `sem, `run
      ensures Valid() && out == Replay(g, old(user), ops)
    {
      out := [];
      for i := 0 to |ops|
        invariant Valid() && AllFinite(g, user, ops[i..])
        invariant out + Replay(g, user, ops[i..]) == Replay(g, old(user), ops)
      {
        assert ops[i..][1..] == ops[i + 1..] && ops[i..][0] == ops[i];
        ghost var before, done := user, out;
        var more := Do(ops[i]);
        out := out + more;
        ReplayStep(g, before, ops, i, done, more);
      }
      assert ops[|ops|..] == [];
    }
  }

  datatype Op = Get(x: int, f: Field) | Set(x: int, v: User) | Unset(x: int)

  /** Whether a value is valid for the type of a symbol. */
  predicate Accepts(g: Graph, x: int, v: User)
  {
    match It(g, x).kind
    case Bool => v in {TriValue(0), TriValue(2), StrValue("n"), StrValue("y")}
    case Tri => v in {TriValue(0), TriValue(1), TriValue(2), StrValue("n"), StrValue("m"), StrValue("y")}
    case String => v.StrValue?
    case Int => v.StrValue? && g.numbers.parse(Int, v.s).Some?
    case Hex => v.StrValue? && g.numbers.parse(Hex, v.s).Some? && g.numbers.parse(Hex, v.s).v >= 0
    case Unknown => false
  }

  /** Tristate values given as text are stored as numbers. */
  function Normal(g: Graph, x: int, v: User): User
  {
    if Logical(It(g, x).kind) && v == StrValue("n") then TriValue(0)
    else if Logical(It(g, x).kind) && v == StrValue("m") then TriValue(1)
    else if Logical(It(g, x).kind) && v == StrValue("y") then TriValue(2)
    else v
  }

  /** The user values after an operation. */
  function UserAfter(g: Graph, user: map<int, User>, op: Op): map<int, User>
  {
    match op
    case Get(_, _) => user
    case Set(x, v) => if UserOf(user, x) == v || !Accepts(g, x, v) then user else user[x := Normal(g, x, v)]
    case Unset(x) => if UserOf(user, x) == NoValue then user else user[x := NoValue]
  }

  /** Each read of a run is of a field that can be computed from the user values at that time. */
  ghost predicate AllFinite(g: Graph, user: map<int, User>, ops: seq<Op>)
    decreases |ops|
  {
    ops != [] ==>
      && (ops[0].Get? ==> Finite(g, user, Key(ops[0].x, ops[0].f)))
      && AllFinite(g, UserAfter(g, user, ops[0]), ops[1..])
  }

  /** What the reads in a run give when every value is recomputed. */
  ghost function Replay(g: Graph, user: map<int, User>, ops: seq<Op>): seq<Val>
    decreases |ops|
  {
    if ops == [] then []
    else (if ops[0].Get? then [Recomputed(g, user, Key(ops[0].x, ops[0].f))] else [])
         + Replay(g, UserAfter(g, user, ops[0]), ops[1..])
  }

  lemma ReplayStep(g: Graph, user: map<int, User>, ops: seq<Op>, i: nat, out: seq<Val>, more: seq<Val>)
    requires i < |ops| && more == if ops[i].Get? then [Recomputed(g, user, Key(ops[i].x, ops[i].f))] else []
    ensures out + more + Replay(g, UserAfter(g, user, ops[i]), ops[i + 1..]) == out + Replay(g, user, ops[i..])
  {
    assert ops[i..][1..] == ops[i + 1..] && ops[i..][0] == ops[i];
    var rest := Replay(g, UserAfter(g, user, ops[i]), ops[i + 1..]);
    assert Replay(g, user, ops[i..]) == more + rest;
    assert out + more + rest == out + (more + rest);
  }

  // ---- what invalidation leaves

  ghost function Without(c: Cache, gone: set<int>): Cache
  {
    map k | k in c && k.s !in gone :: c[k]
  }

  lemma AllFields(s: int)
    ensures forall k: Key :: k in {Key(s, FVis), Key(s, FTri), Key(s, FStr), Key(s, FAsg)} <==> k.s == s
  {
    forall k: Key | k.s == s ensures k in {Key(s, FVis), Key(s, FTri), Key(s, FStr), Key(s, FAsg)} {
      match k.f case FVis => case FTri => case FStr => case FAsg =>
    }
  }

  lemma WithoutMore(c: Cache, a: set<int>, b: set<int>)
    ensures Without(Without(c, a), b) == Without(c, a + b)
  {
  }

  /** The symbols with a cached visibility. */
  ghost function Visible(c: Cache): set<int>
  {
    set k | k in c && k.f == FVis :: k.s
  }

  lemma Fewer(c0: Cache, c: Cache, gone: set<int>, x: int, item: int)
    requires c == Without(c0, gone) && x in gone && Key(item, FVis) in c
    ensures Visible(c) - {item} < Visible(c0) - {x}
  {
    assert item in Visible(c0) - {x} by { assert Key(item, FVis) in c0; }
    forall s | s in Visible(c) - {item} ensures s in Visible(c0) - {x} {
      assert Key(s, FVis) in c;
    }
  }

  /** Only defined symbols are gone, and their dependents are either still to be looked at or have no cached visibility. */
  ghost predicate ClearedGone(g: Graph, deps: map<int, set<int>>, c: Cache, gone: set<int>, todo: set<int>)
  {
    && (forall d :: d in gone ==> It(g, d).defined)
    && (forall d, i :: d in gone && i in Dependents(deps, d) ==> i in todo || Key(i, FVis) !in c)
    && (g.modules in gone ==> forall s :: It(g, s).defined ==> s in gone)
  }

  lemma AllGone(g: Graph, deps: map<int, set<int>>, c0: Cache, c: Cache, gone: set<int>)
    requires DepsOk(g, deps) && c == Without(c0, gone) && forall s :: s in gone <==> It(g, s).defined
    ensures ClearedGone(g, deps, c, gone, {})
  {
  }

  lemma StartGone(g: Graph, deps: map<int, set<int>>, c: Cache, x: int)
    requires It(g, x).defined && x != g.modules
    ensures ClearedGone(g, deps, c, {x}, Dependents(deps, x))
  {
  }

  lemma GoneMore(g: Graph, deps: map<int, set<int>>, c: Cache, c': Cache, gone: set<int>, more: set<int>, todo: set<int>, item: int)
    requires ClearedGone(g, deps, c, gone, todo + {item}) && c' == Without(c, more) && item in more
    requires ClearedGone(g, deps, c', more, {})
    ensures ClearedGone(g, deps, c', gone + more, todo)
  {
  }

  lemma GoneOn(g: Graph, deps: map<int, set<int>>, c: Cache, gone: set<int>, todo: set<int>, item: int)
    requires ClearedGone(g, deps, c, gone, todo + {item}) && Key(item, FVis) !in c
    ensures ClearedGone(g, deps, c, gone, todo)
  {
  }

  lemma GoneIsCleared(g: Graph, deps: map<int, set<int>>, c: Cache, c': Cache, gone: set<int>)
    requires c' == Without(c, gone) && ClearedGone(g, deps, c', gone, {})
    ensures Cleared(g, deps, c, c', gone)
  {
  }

  /** The first n ranges are not in effect, and what their conditions read is cached. */
  ghost predicate RangesOff(g: Graph, rs: seq<Range>, n: nat, t: Table, cached: set<Key>)
  {
    n <= |rs| && forall i :: 0 <= i < n ==> RangeOff(g, rs[i], t, cached)
  }

  ghost predicate RangeOff(g: Graph, r: Range, t: Table, cached: set<Key>)
  {
    ExprValue(g, r.cond, t) == 0 && ExprReads(g, r.cond, t) <= cached
  }

  lemma RangesOffMore(g: Graph, rs: seq<Range>, n: nat, t: Table, cached: set<Key>, cached': set<Key>)
    requires RangesOff(g, rs, n, t, cached) && cached <= cached'
    ensures RangesOff(g, rs, n, t, cached')
    ensures n < |rs| && RangeOff(g, rs[n], t, cached') ==> RangesOff(g, rs, n + 1, t, cached')
  {
    forall i | 0 <= i < n ensures RangeOff(g, rs[i], t, cached') { assert RangeOff(g, rs[i], t, cached); }
  }

  /** The search for a range in effect is down to those from n on. */
  lemma {:induction false} RangesSkipped(g: Graph, kind: Type, rs: seq<Range>, n: nat, t: Table, cached: set<Key>)
    requires RangesOff(g, rs, n, t, cached)
    ensures ActiveRange(g, kind, rs, 0, t) == ActiveRange(g, kind, rs, n, t)
    ensures RangeReads(g, rs, 0, t) <= cached + RangeReads(g, rs, n, t) && RangeReads(g, rs, n, t) <= RangeReads(g, rs, 0, t)
    decreases n
  {
    if n > 0 {
      assert RangeOff(g, rs[n - 1], t, cached);
      RangesSkipped(g, kind, rs, n - 1, t, cached);
      RangeStep(g, kind, rs, n - 1, t);
    }
  }

  lemma RangeStep(g: Graph, kind: Type, rs: seq<Range>, n: nat, t: Table)
    requires n < |rs|
    ensures ExprReads(g, rs[n].cond, t) <= RangeReads(g, rs, n, t)
    ensures ExprValue(g, rs[n].cond, t) == 0 ==>
      && ActiveRange(g, kind, rs, n, t) == ActiveRange(g, kind, rs, n + 1, t)
      && RangeReads(g, rs, n, t) == ExprReads(g, rs[n].cond, t) + RangeReads(g, rs, n + 1, t)
  {
  }

  lemma StoreKeeps(g: Graph, user: map<int, User>, c: Cache, m: Semantics, k: Key, v: Val)
    requires Coherent(c, m) && Backed(g, user, c, m) && k in m.live && v == m.val(k)
    requires Reads(g, UserOf(user, k.s), k, m.val) <= c.Keys
    ensures Coherent(c[k := v], m) && Backed(g, user, c[k := v], m)
  {
    var c2 := c[k := v];
    forall j | j in c2 ensures BackedAt(g, user, c2, m, j) {
      if j != k { assert BackedAt(g, user, c, m, j); }
    }
  }

  /** Every prompt condition is read. */
  lemma {:induction false} PromptReadsGrow(g: Graph, ps: seq<Expr>, n: nat, m: nat, t: Table)
    requires n < m <= |ps|
    ensures ExprReads(g, ps[n], t) <= PromptReads(g, ps, m, t)
  {
    if n < m - 1 { PromptReadsGrow(g, ps, n, m - 1, t); }
  }
}
