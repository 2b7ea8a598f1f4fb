/** The mutex as a state machine: recursive takes, priority inheritance and direct hand-off. */
module MutexModel {
  import opened Basics
  import opened Ring
  import opened WaitList

  const MAXHOLD := 255
  const NOPRIORITY := 0xff

  datatype Owner = Nobody | By(t: Tid)

  datatype Outcome = Pending | Failed(error: int) | Done

  /** prio holds every thread's current priority and base the one it runs at outside the mutex.
      pending are the takes that have suspended. waited lists who suspended since the present owner
      acquired the mutex, and net counts successful takes minus releases of each thread. */
  datatype Mutex = Mutex(
    value: int, owner: Owner, original: int, hold: int, waiters: seq<Tid>,
    prio: map<Tid, int>, error: map<Tid, int>, timed: set<Tid>, pending: set<Tid>,
    base: map<Tid, int>, waited: seq<Tid>, net: map<Tid, int>)

  function Net(net: map<Tid, int>, t: Tid): int
  {
    if t in net then net[t] else 0
  }

  function Count(net: map<Tid, int>, t: Tid, d: int): map<Tid, int>
  {
    net[t := Net(net, t) + d]
  }

  // ---- the steps

  /** The mutex was free. */
  function Acquire(m: Mutex, t: Tid): Mutex
    requires t in m.prio
  {
    m.(value := m.value - 1, owner := By(t), original := m.prio[t], hold := m.hold + 1, waited := [], net := Count(m.net, t, 1))
  }

  /** The owner inherits a more urgent priority. */
  function Boost(m: Mutex, p: int): Mutex
  {
    if m.owner.By? && m.owner.t in m.prio && p < m.prio[m.owner.t] then m.(prio := m.prio[m.owner.t := p]) else m
  }

  ghost function Block(m: Mutex, t: Tid, timeout: int, flag: Flag): Mutex
    requires Ranked(m.waiters, m.prio) && t in m.prio
  {
    var b := Boost(m, m.prio[t]);
    b.(waiters := Enlisted(b.waiters, t, flag, b.prio), pending := m.pending + {t}, waited := m.waited + [t],
       timed := if timeout > 0 then m.timed + {t} else m.timed - {t})
  }

  /** rt_mutex_take up to its return or suspension. */
  ghost function TakeStep(m: Mutex, t: Tid, timeout: int, flag: Flag): (Mutex, Outcome)
    requires Ranked(m.waiters, m.prio) && t in m.prio
  {
    var c := m.(error := m.error[t := EOK]);
    if m.owner == By(t) then (c.(hold := m.hold + 1, net := Count(m.net, t, 1)), Done)
    else if m.value > 0 then (Acquire(c, t), Done)
    else if timeout == 0 then (c.(error := m.error[t := ETIMEOUT]), Failed(ETIMEOUT))
    else (Block(c, t, timeout, flag), Pending)
  }

  function Restore(m: Mutex, t: Tid): Mutex
  {
    m.(prio := m.prio[t := m.original])
  }

  /** The first waiter becomes the owner. */
  function HandOver(m: Mutex): Mutex
    requires m.waiters != [] && m.waiters[0] in m.prio
  {
    var t := m.waiters[0];
    m.(owner := By(t), original := m.prio[t], hold := m.hold + 1, waiters := m.waiters[1..], waited := [],
       net := Count(m.net, t, 1))
  }

  function SetFree(m: Mutex): Mutex
  {
    m.(value := m.value + 1, owner := Nobody, original := NOPRIORITY, waited := [])
  }

  /** rt_mutex_release. */
  function ReleaseStep(m: Mutex, t: Tid): (Mutex, Outcome)
    requires m.waiters != [] ==> m.waiters[0] in m.prio
  {
    if m.owner != By(t) then (m.(error := m.error[t := ERROR]), Failed(ERROR))
    else
      var c := m.(hold := m.hold - 1, net := Count(m.net, t, -1));
      if c.hold != 0 then (c, Done)
      else
        var r := Restore(c, t);
        (if r.waiters != [] then HandOver(r) else SetFree(r), Done)
  }

  /** A resumed thread runs to the end of its take. */
  function RunStep(m: Mutex, t: Tid): (Mutex, Outcome)
    requires t in m.error
  {
    (m.(pending := m.pending - {t}), if m.error[t] != EOK then Failed(m.error[t]) else Done)
  }

  function ExpireStep(m: Mutex, t: Tid): Mutex
  {
    m.(error := m.error[t := ETIMEOUT], waiters := Dropped(m.waiters, t))
  }

  datatype Step = Take(t: Tid, timeout: int) | Release(t: Tid) | Run(t: Tid) | Expire(t: Tid)

  /** Only known threads use the mutex, none of them inside a pending take, and holds stay countable. */
  ghost predicate Enabled(m: Mutex, s: Step)
  {
    match s
    case Take(t, _) => t in m.base && t !in m.pending && (m.owner == By(t) ==> m.hold < MAXHOLD)
    case Release(t) => t in m.base && t !in m.pending
    case Run(t) => t in m.pending && t !in m.waiters
    case Expire(t) => t in m.waiters && t in m.timed
  }

  ghost function Next(m: Mutex, s: Step, flag: Flag): (Mutex, Outcome)
    requires Inv(m, flag) && Enabled(m, s)
  {
    RankedWaiters(m, flag);
    match s
    case Take(t, timeout) => TakeStep(m, t, timeout, flag)
    case Release(t) => ReleaseStep(m, t)
    case Run(t) => RunStep(m, t)
    case Expire(t) => (ExpireStep(m, t), Pending)
  }

  // ---- what every step keeps

  /** value = 1 iff nobody owns it iff hold = 0, and then nobody waits; hold is the owner's net takes. */
  ghost predicate OwnInv(m: Mutex)
  {
    && (m.value == 1 || m.value == 0)
    && (m.value == 1 <==> m.owner.Nobody?)
    && (m.value == 1 <==> m.hold == 0)
    && 0 <= m.hold <= MAXHOLD
    && (m.owner.Nobody? ==> m.waiters == [])
    && (m.owner.By? ==> m.owner.t in m.base && Net(m.net, m.owner.t) == m.hold)
    && (forall t :: t in m.net && m.owner != By(t) ==> m.net[t] == 0)
  }

  ghost predicate WaitInv(m: Mutex)
  {
    && Distinct(m.waiters)
    && (forall t :: t in m.waiters ==> t in m.pending)
    && (forall t :: t in m.waiters ==> m.owner != By(t))
    && (forall t :: t in m.pending ==> t in m.base)
    && (forall t :: t in m.pending ==> t in m.error)
    && (forall t :: t in m.pending ==> (m.error[t] == EOK <==> t in m.waiters || m.owner == By(t)))
  }

  function Lowest(p: int, l: seq<Tid>, base: map<Tid, int>): int
    requires forall i :: 0 <= i < |l| ==> l[i] in base
    decreases |l|
  {
    if l == [] then p
    else
      var q := Lowest(p, l[..|l| - 1], base);
      var t := l[|l| - 1];
      if base[t] < q then base[t] else q
  }

  /** Everybody but the owner runs at its base priority; the owner runs at the most urgent of its own
      base priority and the base priorities of all who suspended on it since it acquired the mutex. */
  ghost predicate PrioInv(m: Mutex)
  {
    && m.prio.Keys == m.base.Keys
    && (forall t :: t in m.base && m.owner != By(t) ==> m.prio[t] == m.base[t])
    && (forall i :: 0 <= i < |m.waited| ==> m.waited[i] in m.base)
    && (m.owner.By? ==> m.owner.t in m.base && m.original == m.base[m.owner.t])
    && (m.owner.By? ==> m.prio[m.owner.t] == Lowest(m.base[m.owner.t], m.waited, m.base))
  }

  ghost predicate InOrder(l: seq<Tid>, base: map<Tid, int>)
  {
    Ranked(l, base) && ByPriority(l, base)
  }

  /** With the priority-ordered list, the owner is at least as urgent as every waiter. */
  ghost predicate UrgentInv(m: Mutex)
  {
    && InOrder(m.waiters, m.base)
    && (m.owner.By? && m.owner.t in m.prio ==> forall t :: t in m.waiters && t in m.base ==> m.prio[m.owner.t] <= m.base[t])
  }

  ghost predicate Inv(m: Mutex, flag: Flag)
  {
    OwnInv(m) && WaitInv(m) && PrioInv(m) && (flag.Prio? ==> UrgentInv(m))
  }

  function Initial(base: map<Tid, int>): Mutex
  {
    Mutex(1, Nobody, NOPRIORITY, 0, [], base, map[], {}, {}, base, [], map[])
  }

  lemma RankedWaiters(m: Mutex, flag: Flag)
    requires Inv(m, flag)
    ensures Ranked(m.waiters, m.prio) && Ranked(m.waiters, m.base)
    ensures Agree(m.waiters, m.prio, m.base)
    ensures forall t :: t in m.waiters ==> m.prio[t] == m.base[t]
    ensures forall t :: t in m.base <==> t in m.prio
  {
    forall i | 0 <= i < |m.waiters|
      ensures m.waiters[i] in m.base && m.waiters[i] in m.prio && m.prio[m.waiters[i]] == m.base[m.waiters[i]]
    {
      var t := m.waiters[i];
      assert t in m.waiters;
      assert t in m.pending;
    }
  }

  lemma {:induction false} LowestBelow(p: int, l: seq<Tid>, base: map<Tid, int>)
    requires forall i :: 0 <= i < |l| ==> l[i] in base
    ensures Lowest(p, l, base) <= p
    ensures forall i :: 0 <= i < |l| ==> Lowest(p, l, base) <= base[l[i]]
    decreases |l|
  {
    if l != [] { LowestBelow(p, l[..|l| - 1], base); }
  }

  lemma AcquireKeeps(m: Mutex, t: Tid, flag: Flag)
    requires Inv(m, flag) && m.value == 1 && t in m.base && t !in m.pending
    ensures Inv(Acquire(m.(error := m.error[t := EOK]), t), flag)
  {
  }

  lemma BlockKeepsPrio(m: Mutex, t: Tid, timeout: int, flag: Flag)
    requires PrioInv(m) && m.owner.By? && m.owner != By(t) && t in m.base
    requires Ranked(m.waiters, m.prio) && t in m.prio
    ensures PrioInv(Block(m, t, timeout, flag))
  {
    assert (m.waited + [t])[..|m.waited|] == m.waited;
  }

  lemma BoostAgrees(m: Mutex, p: int)
    requires Agree(m.waiters, m.prio, m.base) && forall t :: t in m.waiters ==> m.owner != By(t)
    ensures Agree(m.waiters, Boost(m, p).prio, m.base)
  {
    forall i | 0 <= i < |m.waiters| ensures m.waiters[i] in Boost(m, p).prio && Boost(m, p).prio[m.waiters[i]] == m.prio[m.waiters[i]] {
      assert m.waiters[i] in m.waiters;
    }
  }

  lemma BlockKeepsUrgent(m: Mutex, t: Tid, timeout: int)
    requires UrgentInv(m) && Agree(m.waiters, m.prio, m.base) && m.owner.By? && m.owner != By(t)
    requires t in m.base && t in m.prio && m.prio[t] == m.base[t] && m.owner.t in m.prio
    requires forall u :: u in m.waiters ==> m.owner != By(u)
    ensures UrgentInv(Block(m, t, timeout, Prio))
  {
    BoostAgrees(m, m.prio[t]);
    SamePlace(m.waiters, t, Boost(m, m.prio[t]).prio, m.base);
    EnlistedInOrder(m.waiters, t, m.base);
    var l := Enlisted(m.waiters, t, Prio, m.base);
    forall i | 0 <= i < |l| ensures l[i] in m.base {
      if l[i] != t {
        assert l[i] in m.waiters;
        var j :| 0 <= j < |m.waiters| && m.waiters[j] == l[i];
      }
    }
  }

  lemma BlockKeepsWait(m: Mutex, t: Tid, timeout: int, flag: Flag)
    requires OwnInv(m) && m.value == 0 && m.owner != By(t) && t in m.base && t !in m.pending && t in m.error && m.error[t] == EOK
    requires WaitInv(m) && Ranked(m.waiters, m.prio) && t in m.prio
    ensures OwnInv(Block(m, t, timeout, flag)) && WaitInv(Block(m, t, timeout, flag))
  {
    EnlistedDistinct(m.waiters, t, flag, Boost(m, m.prio[t]).prio);
  }

  lemma BlockKeeps(m: Mutex, t: Tid, timeout: int, flag: Flag)
    requires Inv(m, flag) && m.value == 0 && m.owner != By(t) && t in m.base && t !in m.pending
    requires Ranked(m.waiters, m.prio) && t in m.prio
    ensures Inv(Block(m.(error := m.error[t := EOK]), t, timeout, flag), flag)
  {
    RankedWaiters(m, flag);
    var c := m.(error := m.error[t := EOK]);
    BlockKeepsPrio(c, t, timeout, flag);
    BlockKeepsWait(c, t, timeout, flag);
    if flag.Prio? { BlockKeepsUrgent(c, t, timeout); }
  }

  ghost predicate Agree(l: seq<Tid>, prio: map<Tid, int>, base: map<Tid, int>)
  {
    forall i :: 0 <= i < |l| ==> l[i] in prio && l[i] in base && prio[l[i]] == base[l[i]]
  }

  /** Where a newcomer goes depends only on the priorities of the threads in the list and its own. */
  lemma {:induction false} SamePlaceFor(l: seq<Tid>, p: int, prio: map<Tid, int>, base: map<Tid, int>)
    requires Agree(l, prio, base)
    ensures Ranked(l, prio) && Ranked(l, base) && Place(l, p, prio) == Place(l, p, base)
    decreases |l|
  {
    if l != [] {
      SamePlaceFor(l[1..], p, prio, base);
    }
  }

  lemma SamePlace(l: seq<Tid>, t: Tid, prio: map<Tid, int>, base: map<Tid, int>)
    requires Agree(l, prio, base) && t in prio && t in base && prio[t] == base[t]
    ensures Ranked(l, prio) && Ranked(l, base) && Enlisted(l, t, Prio, prio) == Enlisted(l, t, Prio, base)
  {
    SamePlaceFor(l, prio[t], prio, base);
  }

  lemma TakeKeepsInv(m: Mutex, t: Tid, timeout: int, flag: Flag)
    requires Inv(m, flag) && Enabled(m, Take(t, timeout))
    ensures Ranked(m.waiters, m.prio) && t in m.prio && Inv(TakeStep(m, t, timeout, flag).0, flag)
  {
    RankedWaiters(m, flag);
    if m.owner != By(t) {
      if m.value > 0 {
        AcquireKeeps(m, t, flag);
      } else if timeout != 0 {
        BlockKeeps(m, t, timeout, flag);
      }
    }
  }

  lemma HandOverKeeps(m: Mutex, t: Tid, flag: Flag)
    requires Inv(m, flag) && m.owner == By(t) && m.hold == 1 && t !in m.pending && m.waiters != []
    requires m.waiters[0] in m.prio
    ensures Inv(ReleaseStep(m, t).0, flag)
  {
    RankedWaiters(m, flag);
    PopDistinct(m.waiters);
    var u := m.waiters[0];
    assert u in m.waiters;
    if flag.Prio? {
      forall v | v in m.waiters[1..] ensures m.base[u] <= m.base[v] {
        var i :| 0 <= i < |m.waiters[1..]| && m.waiters[1..][i] == v;
        assert m.waiters[i + 1] == v;
      }
    }
  }

  lemma ReleaseKeepsInv(m: Mutex, t: Tid, flag: Flag)
    requires Inv(m, flag) && Enabled(m, Release(t))
    ensures (m.waiters != [] ==> m.waiters[0] in m.prio) && Inv(ReleaseStep(m, t).0, flag)
  {
    RankedWaiters(m, flag);
    if m.owner == By(t) && m.hold == 1 && m.waiters != [] {
      HandOverKeeps(m, t, flag);
    }
  }

  lemma DroppedOrder(l: seq<Tid>, t: Tid, base: map<Tid, int>)
    requires InOrder(l, base) && Distinct(l)
    ensures InOrder(Dropped(l, t), base)
    decreases |l|
  {
    if l != [] && l[0] != t {
      PopDistinct(l);
      DroppedOrder(l[1..], t, base);
      DroppedMembers(l[1..], t);
      var d := Dropped(l[1..], t);
      forall i | 0 <= i < |d| ensures d[i] in base && base[l[0]] <= base[d[i]] {
        assert d[i] in d;
        var j :| 0 <= j < |l[1..]| && l[1..][j] == d[i];
        assert l[j + 1] == d[i];
      }
    }
  }

  lemma ExpireKeepsInv(m: Mutex, t: Tid, flag: Flag)
    requires Inv(m, flag) && Enabled(m, Expire(t))
    ensures Inv(ExpireStep(m, t), flag)
  {
    DroppedMembers(m.waiters, t);
    if flag.Prio? { DroppedOrder(m.waiters, t, m.base); }
  }

  lemma NextKeepsInv(m: Mutex, s: Step, flag: Flag)
    requires Inv(m, flag) && Enabled(m, s)
    ensures Inv(Next(m, s, flag).0, flag)
  {
    match s
    case Take(t, timeout) => TakeKeepsInv(m, t, timeout, flag);
    case Release(t) => ReleaseKeepsInv(m, t, flag);
    case Run(t) =>
    case Expire(t) => ExpireKeepsInv(m, t, flag);
  }

  // ---- whole runs

  lemma InitialInv(base: map<Tid, int>, flag: Flag)
    ensures Inv(Initial(base), flag)
  {
  }

  ghost predicate Runs(m: Mutex, steps: seq<Step>, flag: Flag)
    requires Inv(m, flag)
    decreases |steps|
  {
    steps == [] ||
    (Enabled(m, steps[0]) && (NextKeepsInv(m, steps[0], flag); Runs(Next(m, steps[0], flag).0, steps[1..], flag)))
  }

  ghost function After(m: Mutex, steps: seq<Step>, flag: Flag): Mutex
    requires Inv(m, flag) && Runs(m, steps, flag)
    decreases |steps|
  {
    if steps == [] then m
    else (NextKeepsInv(m, steps[0], flag); After(Next(m, steps[0], flag).0, steps[1..], flag))
  }

  lemma {:induction false} EveryRunKeepsInv(m: Mutex, steps: seq<Step>, flag: Flag)
    requires Inv(m, flag) && Runs(m, steps, flag)
    ensures Inv(After(m, steps, flag), flag) && After(m, steps, flag).base == m.base
    decreases |steps|
  {
    if steps != [] {
      NextKeepsInv(m, steps[0], flag);
      EveryRunKeepsInv(Next(m, steps[0], flag).0, steps[1..], flag);
    }
  }

  /** In every reachable state of a priority-ordered mutex the owner runs at least as urgently as every
      waiter and as its own base priority, and everybody else is back at the base priority. */
  lemma NoInversion(base: map<Tid, int>, steps: seq<Step>)
    requires (InitialInv(base, Prio); Runs(Initial(base), steps, Prio))
    ensures var m := (InitialInv(base, Prio); After(Initial(base), steps, Prio));
      && m.prio.Keys == base.Keys
      && (forall t :: t in base && m.owner != By(t) ==> m.prio[t] == base[t])
      && (m.owner.By? ==> m.owner.t in base && m.prio[m.owner.t] <= base[m.owner.t])
      && (m.owner.By? ==> forall t :: t in m.waiters ==> t in base && m.prio[m.owner.t] <= m.prio[t])
  {
    InitialInv(base, Prio);
    EveryRunKeepsInv(Initial(base), steps, Prio);
    var m := After(Initial(base), steps, Prio);
    RankedWaiters(m, Prio);
    if m.owner.By? { LowestBelow(m.base[m.owner.t], m.waited, m.base); }
  }

  /** The release that lets go gives the releasing thread its base priority back, whatever it was boosted to. */
  lemma FinalReleaseRestores(m: Mutex, t: Tid, flag: Flag)
    requires Inv(m, flag) && Enabled(m, Release(t)) && m.owner == By(t) && m.hold == 1
    ensures var r := Next(m, Release(t), flag).0;
      && r.owner != By(t) && t in r.prio && r.prio[t] == m.base[t]
      && (m.waiters == [] ==> r.owner == Nobody && r.value == 1)
      && (m.waiters != [] ==> r.owner == By(m.waiters[0]) && r.hold == 1 && r.waiters == m.waiters[1..])
  {
    RankedWaiters(m, flag);
    assert m.waiters != [] ==> m.waiters[0] in m.waiters;
  }

  /** A take that reports success after waiting owns the mutex. */
  lemma SuccessMeansOwnership(m: Mutex, t: Tid, flag: Flag)
    requires Inv(m, flag) && Enabled(m, Run(t))
    ensures RunStep(m, t).1.Done? <==> m.owner == By(t)
  {
  }

  // ---- priority inversion, whatever the order of the list

  /** No waiter is more urgent than the owner. */
  ghost predicate NoneOutranks(m: Mutex)
  {
    m.owner.By? ==> m.owner.t in m.prio && forall v :: v in m.waiters ==> v in m.prio && m.prio[m.owner.t] <= m.prio[v]
  }

  /** The first waiter is a most urgent one. */
  ghost predicate BestFirst(m: Mutex)
  {
    m.waiters != [] ==>
      m.waiters[0] in m.base && forall v :: v in m.waiters[1..] ==> v in m.base && m.base[m.waiters[0]] <= m.base[v]
  }

  ghost predicate LetsGo(m: Mutex, s: Step)
  {
    s.Release? && m.owner == By(s.t) && m.hold == 1
  }

  /** A hand-over leaves no more urgent waiter behind exactly if the first waiter was a most urgent one. */
  lemma HandOverIff(m: Mutex, t: Tid, flag: Flag)
    requires Inv(m, flag) && Enabled(m, Release(t)) && LetsGo(m, Release(t))
    ensures NoneOutranks(Next(m, Release(t), flag).0) <==> BestFirst(m)
  {
    RankedWaiters(m, flag);
    if m.waiters != [] {
      PopDistinct(m.waiters);
      assert m.waiters[0] in m.waiters;
      var r := ReleaseStep(m, t).0;
      assert r.prio == m.prio[t := m.original] && r.waiters == m.waiters[1..];
      forall v | v in m.waiters[1..] ensures v in m.waiters && v in r.prio && r.prio[v] == m.base[v] { }
    }
  }

  /** No other step lets a waiter outrank the owner. */
  lemma OthersKeepOrder(m: Mutex, s: Step, flag: Flag)
    requires Inv(m, flag) && Enabled(m, s) && NoneOutranks(m) && !LetsGo(m, s)
    ensures NoneOutranks(Next(m, s, flag).0)
  {
    RankedWaiters(m, flag);
    match s
    case Take(t, timeout) =>
      if m.owner != By(t) && m.value == 0 && timeout != 0 { BlockKeepsOrder(m.(error := m.error[t := EOK]), t, timeout, flag); }
    case Release(t) =>
    case Run(t) =>
    case Expire(t) => DroppedMembers(m.waiters, t);
  }

  lemma BlockKeepsOrder(m: Mutex, t: Tid, timeout: int, flag: Flag)
    requires NoneOutranks(m) && m.owner.By? && m.owner != By(t) && t in m.prio && Ranked(m.waiters, m.prio)
    requires Distinct(m.waiters) && t !in m.waiters && forall v :: v in m.waiters ==> m.owner != By(v)
    ensures NoneOutranks(Block(m, t, timeout, flag))
  {
    EnlistedDistinct(m.waiters, t, flag, Boost(m, m.prio[t]).prio);
  }

  /** No state of the run has a waiter that outranks the owner. */
  ghost predicate NeverInverted(m: Mutex, steps: seq<Step>, flag: Flag)
    requires Inv(m, flag) && Runs(m, steps, flag)
    decreases |steps|
  {
    NoneOutranks(m) &&
    (steps == [] || (NextKeepsInv(m, steps[0], flag); NeverInverted(Next(m, steps[0], flag).0, steps[1..], flag)))
  }

  /** Whenever the mutex is let go in the run, the first waiter is a most urgent one. */
  ghost predicate HandsToBest(m: Mutex, steps: seq<Step>, flag: Flag)
    requires Inv(m, flag) && Runs(m, steps, flag)
    decreases |steps|
  {
    steps == [] ||
    ((LetsGo(m, steps[0]) ==> BestFirst(m))
     && (NextKeepsInv(m, steps[0], flag); HandsToBest(Next(m, steps[0], flag).0, steps[1..], flag)))
  }

  lemma {:induction false} NeverInvertedFrom(m: Mutex, steps: seq<Step>, flag: Flag)
    requires Inv(m, flag) && Runs(m, steps, flag) && NoneOutranks(m)
    ensures NeverInverted(m, steps, flag) <==> HandsToBest(m, steps, flag)
    decreases |steps|
  {
    if steps != [] {
      NextKeepsInv(m, steps[0], flag);
      var r := Next(m, steps[0], flag).0;
      if LetsGo(m, steps[0]) { HandOverIff(m, steps[0].t, flag); } else { OthersKeepOrder(m, steps[0], flag); }
      if NoneOutranks(r) {
        NeverInvertedFrom(r, steps[1..], flag);
      } else {
        NotAtFirst(r, steps[1..], flag);
      }
    }
  }

  lemma NotAtFirst(m: Mutex, steps: seq<Step>, flag: Flag)
    requires Inv(m, flag) && Runs(m, steps, flag) && !NoneOutranks(m)
    ensures !NeverInverted(m, steps, flag)
  {
  }

  /** In either order of the list, a run is free of priority inversion exactly if every hand-over found a most urgent
      waiter in front. */
  lemma NeverInvertedIff(base: map<Tid, int>, steps: seq<Step>, flag: Flag)
    requires (InitialInv(base, flag); Runs(Initial(base), steps, flag))
    ensures (InitialInv(base, flag); NeverInverted(Initial(base), steps, flag) <==> HandsToBest(Initial(base), steps, flag))
  {
    InitialInv(base, flag);
    NeverInvertedFrom(Initial(base), steps, flag);
  }

  /** With the arrival-ordered list inversion happens: o takes the mutex, t and then the more urgent u wait for it,
      and when o releases it, u waits for the less urgent t. */
  lemma FifoInverts(base: map<Tid, int>, o: Tid, t: Tid, u: Tid)
    requires o in base && t in base && u in base && base[u] < base[t] < base[o]
    ensures var steps := [Take(o, -1), Take(t, -1), Take(u, -1), Release(o)];
      && (InitialInv(base, Fifo); Runs(Initial(base), steps, Fifo))
      && var m := (InitialInv(base, Fifo); After(Initial(base), steps, Fifo));
         && m.owner == By(t) && m.waiters == [u] && t in m.prio && u in m.prio && m.prio[u] < m.prio[t]
         && !NoneOutranks(m)
  {
    InitialInv(base, Fifo);
    var m := Initial(base);
    var rest := [Take(t, -1), Take(u, -1), Release(o)];
    var r := Acquire(m.(error := m.error[o := EOK]), o);
    assert Next(m, Take(o, -1), Fifo).0 == r;
    FifoStep(m, Take(o, -1), r, rest);
    assert [Take(o, -1)] + rest == [Take(o, -1), Take(t, -1), Take(u, -1), Release(o)];
    FifoRun(r, o, t, u);
    HandedOn(r, o, t, u);
    assert u in After(r, rest, Fifo).waiters;
  }

  lemma FifoRun(m: Mutex, o: Tid, t: Tid, u: Tid)
    requires Inv(m, Fifo) && m.owner == By(o) && m.hold == 1 && m.waiters == [] && m.timed == {}
    requires o !in m.pending && t !in m.pending && u !in m.pending && t in m.prio && u in m.prio && o in m.prio
    requires m.prio[u] < m.prio[t] < m.prio[o]
    ensures var steps, m3 := [Take(t, -1), Take(u, -1), Release(o)], Inherited(Inherited(m, o, t), o, u);
      m3.waiters == [t, u] && Runs(m, steps, Fifo) && After(m, steps, Fifo) == ReleaseStep(m3, o).0
  {
    var m2 := Inherited(m, o, t);
    FifoBlock(m, o, t, [Take(u, -1), Release(o)]);
    FifoLast(m2, o, t, u);
  }

  lemma FifoLast(m: Mutex, o: Tid, t: Tid, u: Tid)
    requires Inv(m, Fifo) && m.owner == By(o) && m.hold == 1 && m.waiters == [t] && m.timed == {} && u != o && t in m.prio
    requires o !in m.pending && u !in m.pending && u in m.prio && o in m.prio && m.prio[u] < m.prio[o]
    ensures var steps, m3 := [Take(u, -1), Release(o)], Inherited(m, o, u);
      m3.waiters == [t, u] && Runs(m, steps, Fifo) && After(m, steps, Fifo) == ReleaseStep(m3, o).0
  {
    var m3 := Inherited(m, o, u);
    assert [Take(u, -1)] + [Release(o)] == [Take(u, -1), Release(o)];
    FifoBlock(m, o, u, [Release(o)]);
    FifoRelease(m3, o);
  }

  lemma FifoRelease(m: Mutex, o: Tid)
    requires Inv(m, Fifo) && Enabled(m, Release(o)) && (m.waiters != [] ==> m.waiters[0] in m.prio)
    ensures Runs(m, [Release(o)], Fifo) && After(m, [Release(o)], Fifo) == ReleaseStep(m, o).0
  {
    FifoStep(m, Release(o), ReleaseStep(m, o).0, []);
  }

  lemma HandedOn(m: Mutex, o: Tid, t: Tid, u: Tid)
    requires m.owner == By(o) && m.hold == 1 && m.waiters == []
    requires t in m.prio && u in m.prio && t != o && u != o && t != u && m.prio[u] < m.prio[t]
    ensures var m3 := Inherited(Inherited(m, o, t), o, u);
      && m3.waiters == [t, u]
      && var r := ReleaseStep(m3, o).0;
         r.owner == By(t) && r.waiters == [u] && t in r.prio && u in r.prio && r.prio[u] < r.prio[t]
  {
    var m3 := Inherited(Inherited(m, o, t), o, u);
    assert m3.waiters == [t, u] && m3.waiters[1..] == [u];
  }

  function Inherited(m: Mutex, o: Tid, t: Tid): Mutex
    requires t in m.prio
  {
    m.(prio := m.prio[o := m.prio[t]], waiters := m.waiters + [t], pending := m.pending + {t},
       waited := m.waited + [t], error := m.error[t := EOK])
  }

  lemma FifoBlock(m: Mutex, o: Tid, t: Tid, rest: seq<Step>)
    requires Inv(m, Fifo) && t in m.base && t !in m.pending && m.value == 0 && m.owner == By(o) && o != t
    requires t in m.prio && o in m.prio && m.prio[t] < m.prio[o] && m.timed == {}
    ensures var r := Inherited(m, o, t);
      && Inv(r, Fifo)
      && (Runs(m, [Take(t, -1)] + rest, Fifo) <==> Runs(r, rest, Fifo))
      && (Runs(r, rest, Fifo) ==> After(m, [Take(t, -1)] + rest, Fifo) == After(r, rest, Fifo))
  {
    RankedWaiters(m, Fifo);
    var c := m.(error := m.error[t := EOK]);
    assert Enlisted(m.waiters, t, Fifo, Boost(c, m.prio[t]).prio) == m.waiters + [t];
    assert Block(c, t, -1, Fifo) == Inherited(m, o, t);
    FifoStep(m, Take(t, -1), Inherited(m, o, t), rest);
  }

  lemma FifoStep(m: Mutex, s: Step, r: Mutex, rest: seq<Step>)
    requires Inv(m, Fifo) && Enabled(m, s) && Next(m, s, Fifo).0 == r
    ensures Inv(r, Fifo)
    ensures Runs(m, [s] + rest, Fifo) <==> Runs(r, rest, Fifo)
    ensures Runs(r, rest, Fifo) ==> After(m, [s] + rest, Fifo) == After(r, rest, Fifo)
  {
    NextKeepsInv(m, s, Fifo);
    assert ([s] + rest)[1..] == rest;
  }
}
