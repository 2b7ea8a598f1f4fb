/** Time slicing: with nothing else happening, when does each ready thread of the top priority get its turn? */
module RoundRobin {
  import opened Basics
  import opened SchedModel
  import opened SchedRuns

  /** The current thread runs unlocked at priority p, and nothing more urgent is ready. */
  ghost predicate Turn(s: Sched, p: nat)
  {
    && Inv(s) && s.lock == 0 && s.current in s.stat && s.stat[s.current] == Running && Known(s, s.current) && s.prio[s.current] == p
    && s.current in s.left && s.current in s.slice
    && forall q :: 0 <= q < p && q < |s.lists| ==> s.lists[q] == []
  }

  /** The time slices left to the threads of l together. */
  function TimeLeft(left: map<int, int>, l: seq<int>): int
    decreases |l|
  {
    if l == [] then 0 else (if l[0] in left then left[l[0]] else 0) + TimeLeft(left, l[1..])
  }

  ghost function Ticks(s: Sched, n: nat): (r: Sched)
    requires Inv(s) && s.current in s.stat
    ensures Inv(r) && r.current in r.stat
    decreases n
  {
    if n == 0 then s else Ticks(TickStep(s), n - 1)
  }

  lemma {:induction false} TimeLeftSame(left: map<int, int>, l: seq<int>, t: int, v: int)
    requires t !in l
    ensures TimeLeft(left[t := v], l) == TimeLeft(left, l)
    decreases |l|
  {
    if l != [] { TimeLeftSame(left, l[1..], t, v); }
  }

  lemma {:induction false} TimeLeftPositive(s: Sched, l: seq<int>)
    requires Inv(s) && forall t :: t in l ==> t in s.stat
    ensures TimeLeft(s.left, l) >= 0
    decreases |l|
  {
    if l != [] {
      assert ThreadOk(s, l[0]);
      TimeLeftPositive(s, l[1..]);
    }
  }

  lemma LeastIs(lists: seq<seq<int>>, p: nat)
    requires p < |lists| && forall q :: 0 <= q < p ==> lists[q] == []
    ensures Least(lists, 0) >= p && (lists[p] != [] ==> Least(lists, 0) == p)
  {
  }

  /** A tick that does not end the slice only counts down. */
  lemma TickCounts(s: Sched, p: nat)
    requires Turn(s, p) && s.left[s.current] > 1
    ensures TickStep(s) == s.(left := s.left[s.current := s.left[s.current] - 1]) && Turn(TickStep(s), p)
  {
  }

  /** The tick that ends the slice hands over to the head of the list; the thread goes to its end, with a new slice. */
  lemma TickRotates(s: Sched, p: nat)
    requires Turn(s, p) && s.left[s.current] == 1 && s.lists[p] != []
    ensures var r := TickStep(s);
      && Turn(r, p) && r.current == s.lists[p][0] && r.lists[p] == s.lists[p][1..] + [s.current]
      && r.left == s.left[s.current := s.slice[s.current]]
  {
    var s1 := s.(left := s.left[s.current := s.slice[s.current]]);
    assert ThreadOk(s, s.current);
    TickKeeps(s, s.slice[s.current]);
    LeastIs(s.lists, p);
    HeadIsReady(s1, p);
    SwitchParts(s1, p);
    SwitchLists(s1, p);
    var r := Switch(s1, p);
    ScheduleKeeps(s1);
    assert ThreadOk(s, r.current);
  }

  lemma SwitchLists(s: Sched, p: nat)
    requires Inv(s) && p < |s.lists| && s.lists[p] != []
    requires s.current in s.stat && s.stat[s.current] == Running && Known(s, s.current) && s.prio[s.current] == p
    ensures Known(s, s.lists[p][0]) && Switch(s, p).lists == s.lists[p := s.lists[p][1..] + [s.current]]
  {
    HeadIsReady(s, p);
    PushThenPull(s.lists[p], s.current, s.lists[p][0]);
  }

  /** With nobody else at its priority, the thread just starts a new slice. */
  lemma TickAlone(s: Sched, p: nat)
    requires Turn(s, p) && s.left[s.current] == 1 && s.lists[p] == []
    ensures TickStep(s) == s.(left := s.left[s.current := s.slice[s.current]]) && Turn(TickStep(s), p)
  {
    var s1 := s.(left := s.left[s.current := s.slice[s.current]]);
    assert ThreadOk(s, s.current);
    TickKeeps(s, s.slice[s.current]);
    LeastIs(s.lists, p);
  }

  /** While nobody else is ready at its priority or above, the thread keeps running, slice after slice. */
  lemma {:induction false} AloneKeepsRunning(s: Sched, p: nat, n: nat)
    requires Turn(s, p) && s.lists[p] == []
    ensures Turn(Ticks(s, n), p) && Ticks(s, n).current == s.current && Ticks(s, n).lists == s.lists
    decreases n
  {
    if n > 0 {
      assert ThreadOk(s, s.current);
      if s.left[s.current] > 1 { TickCounts(s, p); } else { TickAlone(s, p); }
      AloneKeepsRunning(TickStep(s), p, n - 1);
    }
  }

  /** How long the j-th ready thread of the top priority waits. */
  function Wait(s: Sched, p: nat, j: nat): int
    requires p < |s.lists| && j < |s.lists[p]| && s.current in s.left
  {
    s.left[s.current] + TimeLeft(s.left, s.lists[p][..j])
  }

  lemma ListFacts(s: Sched, p: nat, j: nat)
    requires Turn(s, p) && j < |s.lists[p]|
    ensures Distinct(s.lists[p]) && s.current !in s.lists[p] && s.left[s.current] > 0
    ensures TimeLeft(s.left, s.lists[p][..j]) >= 0
  {
    assert ListOk(s.lists[p], s.stat, s.prio, p);
    assert ThreadOk(s, s.current);
    TimeLeftPositive(s, s.lists[p][..j]);
  }

  /** One tick brings the turn of the j-th thread nearer by exactly one tick. */
  lemma WaitFalls(s: Sched, p: nat, j: nat)
    requires Turn(s, p) && j < |s.lists[p]| && Wait(s, p, j) > 1
    ensures var r := TickStep(s);
      && Turn(r, p) && r.current != s.lists[p][j]
      && exists i: nat :: i < |r.lists[p]| && r.lists[p][i] == s.lists[p][j] && Wait(r, p, i) == Wait(s, p, j) - 1
  {
    var l, r := s.lists[p], TickStep(s);
    ListFacts(s, p, j);
    if s.left[s.current] > 1 {
      TickCounts(s, p);
      TimeLeftSame(s.left, l[..j], s.current, s.left[s.current] - 1);
      assert Wait(r, p, j) == Wait(s, p, j) - 1;
    } else {
      TickRotates(s, p);
      assert j > 0;
      assert l[..j] == [l[0]] + l[1..j] && r.lists[p][..j - 1] == l[1..j] && r.lists[p][j - 1] == l[j];
      assert ThreadOk(s, l[0]);
      TimeLeftSame(s.left, l[1..j], s.current, s.slice[s.current]);
      assert Wait(r, p, j - 1) == Wait(s, p, j) - 1;
    }
  }

  lemma TurnComes(s: Sched, p: nat, j: nat)
    requires Turn(s, p) && j < |s.lists[p]| && Wait(s, p, j) == 1
    ensures TickStep(s).current == s.lists[p][j]
  {
    var l := s.lists[p];
    ListFacts(s, p, j);
    if j > 0 {
      ListFacts(s, p, 0);
      assert l[..j] == [l[0]] + l[1..j];
      assert ThreadOk(s, l[0]) by { assert ListOk(l, s.stat, s.prio, p); assert l[0] in l; }
      TimeLeftPositive(s, l[1..j]) by { assert ListOk(l, s.stat, s.prio, p); }
    }
    TickRotates(s, p);
  }

  lemma LaterTicks(s: Sched, n: nat, t: int, d: nat)
    requires Inv(s) && s.current in s.stat && s.current != t && n < d
    requires forall k: nat :: k < d - 1 ==> Ticks(TickStep(s), k).current != t
    ensures Ticks(s, n).current != t
  {
    if n > 0 { assert Ticks(s, n) == Ticks(TickStep(s), n - 1); }
  }

  /** Round robin: the j-th ready thread of the top priority starts after exactly the time left to the running
      thread and to those in front of it, and not a tick sooner. */
  lemma {:induction false} StartsExactly(s: Sched, p: nat, j: nat)
    requires Turn(s, p) && j < |s.lists[p]|
    ensures Wait(s, p, j) > 0 && Ticks(s, Wait(s, p, j)).current == s.lists[p][j]
    ensures forall n: nat :: n < Wait(s, p, j) ==> Ticks(s, n).current != s.lists[p][j]
    decreases Wait(s, p, j)
  {
    var d, t := Wait(s, p, j), s.lists[p][j];
    ListFacts(s, p, j);
    if d == 1 {
      TurnComes(s, p, j);
      assert Ticks(s, 1) == Ticks(TickStep(s), 0);
    } else {
      WaitFalls(s, p, j);
      var r := TickStep(s);
      var i: nat :| i < |r.lists[p]| && r.lists[p][i] == t && Wait(r, p, i) == d - 1;
      StartsExactly(r, p, i);
      forall n: nat | n < d ensures Ticks(s, n).current != t { LaterTicks(s, n, t, d); }
    }
  }
}
