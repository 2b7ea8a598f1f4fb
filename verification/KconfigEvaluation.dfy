/** Demand-driven evaluation of fields that read each other: what ends, with which value, and how deep it nests. */
module KconfigEvaluation {
  import opened KconfigItems

  /** How each field is computed from a table of the others, and which of them the computation reads. */
  datatype System = System(compute: (Key, Table) -> Val, needs: (Key, Table) -> set<Key>)

  ghost predicate StableAt(y: System, k: Key, t: Table, t': Table)
  {
    Agree(t, t', y.needs(k, t)) ==> y.compute(k, t') == y.compute(k, t) && y.needs(k, t') == y.needs(k, t)
  }

  /** A computation only depends on what it reads. */
  ghost predicate Stable(y: System)
  {
    forall k, t, t' {:trigger StableAt(y, k, t, t')} :: StableAt(y, k, t, t')
  }

  function Known(o: Option<Val>): Val
  {
    if o.Some? then o.v else N(0)
  }

  /** What is known of each field. */
  type Partial = Key -> Option<Val>

  function TableOf(p: Partial): Table
  {
    (r: Key) => Known(p(r))
  }

  ghost predicate KnowsAll(p: Partial, keys: set<Key>)
  {
    forall r :: r in keys ==> p(r).Some?
  }

  /** One field from what is known of those it needs. */
  ghost function StepAt(y: System, p: Partial, k: Key): Option<Val>
  {
    if KnowsAll(p, y.needs(k, TableOf(p))) then Some(y.compute(k, TableOf(p))) else None
  }

  ghost function Step(y: System, p: Partial): Partial
  {
    (k: Key) => StepAt(y, p, k)
  }

  /** The values that are known when evaluations may nest n deep. */
  ghost function Level(y: System, n: nat): Partial
  {
    if n == 0 then (k: Key) => None else Step(y, Level(y, n - 1))
  }

  /** The value of a field when evaluations may nest n deep; None when they nest deeper. */
  ghost function Nested(y: System, n: nat, k: Key): Option<Val>
  {
    Level(y, n)(k)
  }

  /** Evaluating the field comes to an end. */
  ghost predicate Ends(y: System, k: Key)
  {
    exists n: nat :: Nested(y, n, k).Some?
  }

  ghost predicate IsDepth(y: System, k: Key, n: nat)
  {
    n > 0 && Nested(y, n, k).Some? && Nested(y, n - 1, k).None?
  }

  lemma {:induction false} DepthExists(y: System, k: Key, n: nat)
    requires Nested(y, n, k).Some?
    ensures exists d: nat :: IsDepth(y, k, d)
    decreases n
  {
    if n > 0 {
      if Nested(y, n - 1, k).Some? { DepthExists(y, k, n - 1); } else { assert IsDepth(y, k, n); }
    }
  }

  /** How deep its evaluation nests. */
  ghost function Depth(y: System, k: Key): (d: nat)
    ensures Ends(y, k) ==> IsDepth(y, k, d)
  {
    if Ends(y, k) then
      var n: nat :| Nested(y, n, k).Some?;
      DepthExists(y, k, n);
      var d: nat :| IsDepth(y, k, d);
      d
    else 0
  }

  ghost function ValueOf(y: System, k: Key): Val
  {
    Known(Nested(y, Depth(y, k), k))
  }

  ghost predicate ExtendsAt(p: Partial, p': Partial, k: Key)
  {
    p(k).Some? ==> p'(k) == p(k)
  }

  ghost predicate Extends(p: Partial, p': Partial)
  {
    forall k {:trigger ExtendsAt(p, p', k)} :: ExtendsAt(p, p', k)
  }

  /** Knowing more does not change a value. */
  lemma StepStays(y: System, p: Partial, p': Partial, k: Key)
    requires Stable(y) && Extends(p, p') && StepAt(y, p, k).Some?
    ensures StepAt(y, p', k) == StepAt(y, p, k)
  {
    var t, t' := TableOf(p), TableOf(p');
    forall r | r in y.needs(k, t) ensures p'(r).Some? && t(r) == t'(r) { assert ExtendsAt(p, p', r); }
    assert StableAt(y, k, t, t');
  }

  lemma StepExtends(y: System, p: Partial, p': Partial)
    requires Stable(y) && Extends(p, p')
    ensures Extends(Step(y, p), Step(y, p'))
  {
    forall k ensures ExtendsAt(Step(y, p), Step(y, p'), k) {
      if StepAt(y, p, k).Some? { StepStays(y, p, p', k); }
    }
  }

  lemma LevelUnfolds(y: System, n: nat, k: Key)
    requires n > 0
    ensures Level(y, n)(k) == StepAt(y, Level(y, n - 1), k)
  {
  }

  lemma {:induction false} LevelsExtend(y: System, m: nat, n: nat)
    requires Stable(y) && m <= n
    ensures Extends(Level(y, m), Level(y, n))
    decreases n
  {
    if m > 0 {
      LevelsExtend(y, m - 1, n - 1);
      StepExtends(y, Level(y, m - 1), Level(y, n - 1));
    }
  }

  /** Room for deeper nesting does not change a value. */
  lemma NestedStays(y: System, m: nat, n: nat, k: Key)
    requires Stable(y) && m <= n && Nested(y, m, k).Some?
    ensures Nested(y, n, k) == Nested(y, m, k)
  {
    LevelsExtend(y, m, n);
    assert ExtendsAt(Level(y, m), Level(y, n), k);
  }

  lemma DepthIs(y: System, k: Key, n: nat)
    requires Stable(y) && Nested(y, n, k).Some?
    ensures Ends(y, k) && Depth(y, k) <= n && Nested(y, Depth(y, k), k).Some?
    ensures ValueOf(y, k) == Nested(y, n, k).v
  {
    var d := Depth(y, k);
    if n < d { NestedStays(y, n, d - 1, k); }
    NestedStays(y, d, n, k);
  }

  // ---- a table of values with what ends, and how deep

  datatype Semantics = Semantics(val: Table, live: iset<Key>, depth: Key -> nat)

  ghost predicate ReadsLive(y: System, m: Semantics, k: Key)
  {
    forall r :: r in y.needs(k, m.val) ==> r in m.live
  }

  /** A field ends exactly if all that it reads does; it is what its computation gives, and lies deeper. */
  ghost predicate EvaluatesAt(y: System, m: Semantics, k: Key)
  {
    && (k in m.live <==> ReadsLive(y, m, k))
    && (k in m.live ==> m.val(k) == y.compute(k, m.val))
    && (k in m.live ==> forall r :: r in y.needs(k, m.val) ==> m.depth(r) < m.depth(k))
  }

  ghost predicate Evaluates(y: System, m: Semantics)
  {
    forall k {:trigger EvaluatesAt(y, m, k)} :: EvaluatesAt(y, m, k)
  }

  /** What recomputation gives. */
  ghost function Recomputation(y: System): Semantics
  {
    Semantics((k: Key) => ValueOf(y, k), iset k: Key | Ends(y, k), (k: Key) => Depth(y, k))
  }

  lemma {:induction false} CommonDepth(y: System, keys: set<Key>) returns (n: nat)
    requires Stable(y) && forall r :: r in keys ==> Ends(y, r)
    ensures forall r :: r in keys ==> Nested(y, n, r).Some?
    decreases |keys|
  {
    n := 0;
    if r :| r in keys {
      var m := CommonDepth(y, keys - {r});
      var d: nat :| Nested(y, d, r).Some?;
      n := if m > d then m else d;
      forall q | q in keys ensures Nested(y, n, q).Some? {
        if q == r { NestedStays(y, d, n, q); } else { NestedStays(y, m, n, q); }
      }
    }
  }

  /** The level below the depth of a field gives its value. */
  lemma AtDepth(y: System, k: Key)
    requires Stable(y) && Ends(y, k)
    ensures StepAt(y, Level(y, Depth(y, k) - 1), k) == Some(ValueOf(y, k))
  {
    LevelUnfolds(y, Depth(y, k), k);
  }

  lemma LiveUnfolds(y: System, k: Key)
    requires Stable(y) && Ends(y, k)
    ensures var m := Recomputation(y);
      && ReadsLive(y, m, k) && m.val(k) == y.compute(k, m.val)
      && forall r :: r in y.needs(k, m.val) ==> m.depth(r) < m.depth(k)
  {
    AtDepth(y, k);
    var m, n := Recomputation(y), Depth(y, k) - 1;
    var p := Level(y, n);
    forall r | r in y.needs(k, TableOf(p)) ensures Ends(y, r) && Depth(y, r) <= n && TableOf(p)(r) == m.val(r) {
      DepthIs(y, r, n);
    }
    assert StableAt(y, k, TableOf(p), m.val);
  }

  lemma LiveFolds(y: System, k: Key)
    requires Stable(y) && ReadsLive(y, Recomputation(y), k)
    ensures Ends(y, k)
  {
    var m := Recomputation(y);
    var n := CommonDepth(y, y.needs(k, m.val));
    var p := Level(y, n);
    forall r | r in y.needs(k, m.val) ensures p(r) == Some(m.val(r)) { DepthIs(y, r, n); }
    assert StableAt(y, k, m.val, TableOf(p));
    LevelUnfolds(y, n + 1, k);
    assert Nested(y, n + 1, k).Some?;
  }

  /** Recomputation satisfies the equations. */
  lemma RecomputationEvaluates(y: System)
    requires Stable(y)
    ensures Evaluates(y, Recomputation(y))
  {
    var m := Recomputation(y);
    forall k ensures EvaluatesAt(y, m, k) {
      if Ends(y, k) { LiveUnfolds(y, k); }
      if ReadsLive(y, m, k) { LiveFolds(y, k); }
    }
  }

  lemma {:induction false} LiveEnds(y: System, m: Semantics, k: Key)
    requires Stable(y) && Evaluates(y, m) && k in m.live
    ensures Ends(y, k) && ValueOf(y, k) == m.val(k)
    decreases m.depth(k)
  {
    assert EvaluatesAt(y, m, k);
    var c := Recomputation(y);
    forall r | r in y.needs(k, m.val) ensures r in c.live && c.val(r) == m.val(r) { LiveEnds(y, m, r); }
    assert StableAt(y, k, m.val, c.val);
    LiveFolds(y, k);
    LiveUnfolds(y, k);
  }

  lemma {:induction false} EndsLives(y: System, m: Semantics, k: Key)
    requires Stable(y) && Evaluates(y, m) && Ends(y, k)
    ensures k in m.live
    decreases Depth(y, k)
  {
    assert EvaluatesAt(y, m, k);
    var c := Recomputation(y);
    LiveUnfolds(y, k);
    forall r | r in y.needs(k, c.val) ensures r in m.live && c.val(r) == m.val(r) {
      EndsLives(y, m, r);
      LiveEnds(y, m, r);
    }
    assert StableAt(y, k, c.val, m.val);
  }

  /** There is one solution: what ends, and with which value, is settled by the equations. */
  lemma OneSolution(y: System, m: Semantics, k: Key)
    requires Stable(y) && Evaluates(y, m)
    ensures k in m.live <==> Ends(y, k)
    ensures k in m.live ==> m.val(k) == ValueOf(y, k)
  {
    if k in m.live { LiveEnds(y, m, k); }
    if Ends(y, k) { EndsLives(y, m, k); }
  }

  /** The system z computes the same as y, and reads more. */
  ghost predicate ReadsMore(y: System, z: System)
  {
    forall k, t {:trigger z.needs(k, t)} :: y.needs(k, t) <= z.needs(k, t) && z.compute(k, t) == y.compute(k, t)
  }

  /** What ends although more is read, ends all the same, with the same value. */
  lemma {:induction false} EndsWithLess(y: System, z: System, k: Key)
    requires Stable(y) && Stable(z) && ReadsMore(y, z) && Ends(z, k)
    ensures Ends(y, k) && ValueOf(y, k) == ValueOf(z, k)
    decreases Depth(z, k)
  {
    var c, m := Recomputation(y), Recomputation(z);
    LiveUnfolds(z, k);
    forall r | r in z.needs(k, m.val) ensures Ends(y, r) && c.val(r) == m.val(r) { EndsWithLess(y, z, r); }
    assert StableAt(z, k, m.val, c.val);
    assert y.needs(k, c.val) <= z.needs(k, c.val);
    LiveFolds(y, k);
    LiveUnfolds(y, k);
  }
}
