/** Dependency loop detection over Kconfig symbols: a depth-first search in three colours. */
module KconfigLoops {
  import opened Basics

  /** Symbol._dependents: who depends on s. */
  function Dependents(deps: map<int, set<int>>, s: int): set<int>
  {
    if s in deps then deps[s] else {}
  }

  /** Each symbol of l depends on the next, and the last one on the first. */
  ghost predicate Walk(deps: map<int, set<int>>, l: seq<int>)
  {
    forall i :: 0 <= i < |l| - 1 ==> l[i] in Dependents(deps, l[i + 1])
  }

  ghost predicate Cycle(deps: map<int, set<int>>, l: seq<int>)
  {
    l != [] && Walk(deps, l) && l[|l| - 1] in Dependents(deps, l[0])
  }

  /** Only symbols in known have dependents or are dependents. */
  ghost predicate Within(deps: map<int, set<int>>, known: set<int>)
  {
    forall s :: s in known ==> Dependents(deps, s) <= known
  }

  /** The dependents of each symbol of fin come before it. */
  ghost predicate Finished(deps: map<int, set<int>>, fin: seq<int>)
  {
    forall i :: 0 <= i < |fin| ==> forall d :: d in Dependents(deps, fin[i]) ==> d in fin[..i]
  }

  datatype Found = Clear | Tail(l: seq<int>) | Raised(l: seq<int>)

  class LoopFinder {
    const deps: map<int, set<int>>
    var visited: map<int, int>          // _visited: 1 on the way, 2 known to be clear

    ghost const known: set<int>
    ghost var stack: seq<int>
    ghost var fin: seq<int>

    ghost predicate Valid()
      reads this
    {
      && Within(deps, known) && visited.Keys <= known
      && (forall s :: s in visited ==> visited[s] == 1 || visited[s] == 2)
      && (forall s :: s in stack <==> s in visited && visited[s] == 1)
      && (forall s :: s in fin <==> s in visited && visited[s] == 2)
      && Distinct(fin) && Finished(deps, fin)
    }

    constructor (deps: map<int, set<int>>, ghost known: set<int>)
      requires Within(deps, known)
      ensures Valid() && stack == [] && fin == [] && visited == map[] && this.deps == deps && this.known == known
    {
      this.deps, this.known := deps, known;
      visited, stack, fin := map[], [], [];
    }

    /** s is on the way. */
    method Open(s: int)
      requires Valid() && s !in visited && s in known
      modifies this
      ensures Valid() && visited == old(visited)[s := 1] && stack == old(stack) + [s] && fin == old(fin)
    {
      visited := visited[s := 1];
      stack := stack + [s];
    }

    /** s is known to be clear. */
    method Close(s: int, ghost open: seq<int>)
      requires Valid() && stack == open + [s] && s !in open && forall d :: d in Dependents(deps, s) ==> d in fin
      modifies this
      ensures Valid() && visited == old(visited)[s := 2] && stack == open && fin == old(fin) + [s]
    {
      assert s in stack;
      FinishOne(deps, fin, s);
      visited := visited[s := 2];
      stack := open;
      fin := fin + [s];
    }

    /** _check_dep_loop_sym. */
    method Check(s: int) returns (r: Found)
      requires Valid() && s in known
      modifies this
      ensures visited.Keys >= old(visited.Keys) && visited.Keys <= known
      ensures r.Clear? ==> Valid() && s in fin && stack == old(stack) && old(fin) <= fin
      ensures r.Tail? ==> IsTail(deps, r.l, s, old(stack), old(visited))
      ensures r.Raised? ==> Cycle(deps, r.l) && Distinct(r.l)
      decreases known - visited.Keys
    {
      if s in visited {
        if visited[s] == 2 {
          return Clear;
        }
        return Tail([s]);
      }
      Open(s);
      var todo := Dependents(deps, s);
      while todo != {}
        invariant Valid() && stack == old(stack) + [s] && old(fin) <= fin
        invariant visited.Keys >= old(visited.Keys) + {s} && s in visited && todo <= Dependents(deps, s)
        invariant forall d :: d in Dependents(deps, s) - todo ==> d in fin
        decreases todo
      {
        var dep := Pick(todo);
        ghost var seen := visited;
        var found := Check(dep);
        if found.Raised? {
          return found;
        }
        if found.Tail? {
          // _found_dep_loop
          Longer(deps, found.l, s, dep, old(stack), seen, old(visited));
          if found.l[0] != s {
            return Tail(found.l + [s]);
          }
          return Raised(found.l);
        }
        todo := todo - {dep};
      }
      Close(s, old(stack));
      return Clear;
    }
  }

  /** The partial loop l leads from an open symbol to s over symbols that were not visited before. */
  ghost predicate IsTail(deps: map<int, set<int>>, l: seq<int>, s: int, open: seq<int>, seen: map<int, int>)
  {
    && l != [] && l[|l| - 1] == s && l[0] in open && Walk(deps, l) && Distinct(l)
    && forall i :: 1 <= i < |l| ==> l[i] !in seen
  }

  /** On the way back the caller joins the loop, or closes it. */
  lemma Longer(deps: map<int, set<int>>, l: seq<int>, s: int, dep: int, open: seq<int>, seen: map<int, int>, seen0: map<int, int>)
    requires IsTail(deps, l, dep, open + [s], seen) && dep in Dependents(deps, s) && s in seen && s !in seen0
    requires seen0.Keys <= seen.Keys
    ensures l[0] != s ==> IsTail(deps, l + [s], s, open, seen0)
    ensures l[0] == s ==> Cycle(deps, l) && Distinct(l)
  {
    ExtendWalk(deps, l, s);
  }

  lemma ExtendWalk(deps: map<int, set<int>>, l: seq<int>, s: int)
    requires l != [] && Walk(deps, l) && l[|l| - 1] in Dependents(deps, s)
    ensures Walk(deps, l + [s])
  {
    var r := l + [s];
    forall i | 0 <= i < |r| - 1 ensures r[i] in Dependents(deps, r[i + 1]) { if i < |l| - 1 { assert r[i + 1] == l[i + 1]; } }
  }

  lemma FinishOne(deps: map<int, set<int>>, fin: seq<int>, s: int)
    requires Finished(deps, fin) && forall d :: d in Dependents(deps, s) ==> d in fin
    ensures Finished(deps, fin + [s])
  {
    var r := fin + [s];
    forall i | 0 <= i < |r| ensures forall d :: d in Dependents(deps, r[i]) ==> d in r[..i] {
      assert r[..i] == fin[..i];
      assert fin[..|fin|] == fin;
    }
  }

  // ---- the whole check

  /** Only defined symbols depend on anything. */
  ghost predicate DefinedOnly(deps: map<int, set<int>>, defined: seq<int>)
  {
    forall s, d :: d in Dependents(deps, s) ==> d in defined
  }

  function Position(l: seq<int>, x: int): (i: nat)
    requires x in l
    ensures i < |l| && l[i] == x && x !in l[..i]
    decreases |l|
  {
    if l[0] == x then 0
    else
      var i := Position(l[1..], x);
      assert l[..i + 1] == [l[0]] + l[1..][..i];
      i + 1
  }

  /** The rank that a clean search gives: symbols finish after their dependents. */
  function Rank(fin: seq<int>, s: int): nat
  {
    if s in fin then |fin| - Position(fin, s) else 0
  }

  /** Every symbol ranks above all that it depends on. */
  ghost predicate Ranked(deps: map<int, set<int>>, fin: seq<int>)
  {
    forall s, d :: d in Dependents(deps, s) ==> Rank(fin, s) < Rank(fin, d)
  }

  lemma {:induction false} PrefixPosition(l: seq<int>, k: nat, x: int)
    requires k <= |l| && x in l[..k]
    ensures x in l && Position(l, x) < k
    decreases |l|
  {
    if l[0] != x {
      assert l[..k] == [l[0]] + l[1..][..k - 1];
      PrefixPosition(l[1..], k - 1, x);
    }
  }

  lemma FinishedIsRanked(deps: map<int, set<int>>, fin: seq<int>, defined: seq<int>)
    requires Finished(deps, fin) && DefinedOnly(deps, defined) && forall s :: s in defined ==> s in fin
    ensures Ranked(deps, fin)
  {
    forall s, d | d in Dependents(deps, s) ensures Rank(fin, s) < Rank(fin, d) {
      if s in fin { PrefixPosition(fin, Position(fin, s), d); }
    }
  }

  /** A rank falls along every walk, so there is no cycle. */
  lemma {:induction false} RankFalls(deps: map<int, set<int>>, fin: seq<int>, l: seq<int>, k: nat)
    requires Ranked(deps, fin) && Walk(deps, l) && k < |l|
    ensures Rank(fin, l[0]) >= Rank(fin, l[k]) && (k > 0 ==> Rank(fin, l[0]) > Rank(fin, l[k]))
    decreases k
  {
    if k > 0 {
      assert l[k - 1] in Dependents(deps, l[k]);
      RankFalls(deps, fin, l, k - 1);
    }
  }

  lemma RankedHasNoCycle(deps: map<int, set<int>>, fin: seq<int>, l: seq<int>)
    requires Ranked(deps, fin)
    ensures !Cycle(deps, l)
  {
    if Cycle(deps, l) { RankFalls(deps, fin, l, |l| - 1); }
  }

  lemma DefinedIsWithin(deps: map<int, set<int>>, defined: seq<int>, known: set<int>)
    requires DefinedOnly(deps, defined) && known == set s | s in defined
    ensures Within(deps, known)
  {
    forall s | s in known ensures Dependents(deps, s) <= known {
      forall d | d in Dependents(deps, s) ensures d in known { assert d in defined; }
    }
  }

  /** The check over all defined symbols: it raises an error exactly when some symbols depend on each other in
      a cycle, the loop it reports is such a cycle, without repetition, and a clean pass orders the symbols. */
  method CheckDependencies(deps: map<int, set<int>>, defined: seq<int>) returns (raised: bool, loop: seq<int>, ghost order: seq<int>)
    requires DefinedOnly(deps, defined)
    ensures raised <==> exists l :: Cycle(deps, l)
    ensures raised ==> Cycle(deps, loop) && Distinct(loop)
    ensures !raised ==> Ranked(deps, order)
  {
    ghost var known := set s | s in defined;
    DefinedIsWithin(deps, defined, known);
    var f := new LoopFinder(deps, known);
    for i := 0 to |defined|
      invariant f.Valid() && f.stack == [] && f.deps == deps && f.known == known
      invariant forall j :: 0 <= j < i ==> defined[j] in f.fin
    {
      ghost var fin := f.fin;
      var r := f.Check(defined[i]);
      if r.Raised? {
        return true, r.l, [];
      }
      assert fin <= f.fin;
    }
    FinishedIsRanked(deps, f.fin, defined);
    forall l ensures !Cycle(deps, l) { RankedHasNoCycle(deps, f.fin, l); }
    return false, [], f.fin;
  }
}
