/** What each thread operation does to thread states and ready lists. */
module SchedOutcomes {
  import opened Basics
  import opened Ring
  import opened SchedModel
  import opened SchedRuns

  /** Nothing but the states, lists and priorities of threads changed. */
  ghost predicate OnlyThreads(s: Sched, r: Sched)
  {
    r == s.(stat := r.stat, lists := r.lists, prio := r.prio)
  }

  /** t stood in list p and left it; the others kept their order. */
  ghost predicate Leaves(lists: seq<seq<int>>, lists': seq<seq<int>>, p: nat, t: int)
  {
    && p < |lists| == |lists'| && lists' == lists[p := lists'[p]]
    && exists k: nat :: k < |lists[p]| && lists[p][k] == t && lists'[p] == lists[p][..k] + lists[p][k + 1..]
  }

  /** t went to the end of list p. */
  ghost predicate Joins(lists: seq<seq<int>>, lists': seq<seq<int>>, p: nat, t: int)
  {
    p < |lists| && lists' == lists[p := lists[p] + [t]]
  }

  lemma PulledLeaves(s: Sched, t: int)
    requires Inv(s) && t in s.stat
    ensures Known(s, t)
    ensures s.stat[t] == Ready ==> Leaves(s.lists, Pulled(s.lists, s.prio[t], t), s.prio[t], t)
    ensures s.stat[t] != Ready ==> Pulled(s.lists, s.prio[t], t) == s.lists
  {
    Placed(s, t);
    var p := s.prio[t];
    if s.stat[t] == Ready {
      var k := PlaceIn(s.lists[p], t);
      DroppedAt(s.lists[p], k);
    } else {
      NotDropped(s.lists[p], t);
      assert s.lists[p := s.lists[p]] == s.lists;
    }
  }

  lemma PlaceIn(l: seq<int>, t: int) returns (k: nat)
    requires t in l && Distinct(l)
    ensures k < |l| && l[k] == t && t !in l[..k]
  {
    k :| 0 <= k < |l| && l[k] == t;
  }

  lemma {:induction false} NotDropped(l: seq<int>, t: int)
    requires t !in l
    ensures Dropped(l, t) == l
    decreases |l|
  {
    if l != [] { NotDropped(l[1..], t); }
  }

  /** A resumed thread is ready and stands last in the list of its priority; the current thread goes on running. A thread
      that is not suspended is not resumed. */
  lemma ResumeOutcome(s: Sched, t: int)
    requires Inv(s) && t in s.stat
    ensures var r := Apply(s, Resume(t));
      && OnlyThreads(s, r) && r.prio == s.prio
      && (s.stat[t] != Suspended ==> r == s)
      && (s.stat[t] == Suspended ==> Runnable(r, t))
      && (s.stat[t] == Suspended && t != s.current ==> r.stat == s.stat[t := Ready] && t in s.prio && Joins(s.lists, r.lists, s.prio[t], t))
      && (s.stat[t] == Suspended && t == s.current ==> r.stat == s.stat[t := Running] && r.lists == s.lists)
  {
    InsertWf(s, t);
  }

  lemma InsertWf(s: Sched, t: int)
    requires Inv(s) && t in s.stat
    ensures Known(s, t)
  {
    assert ThreadOk(s, t);
  }

  /** A suspended thread is in no list and not runnable; a thread that is neither ready nor running is left alone. */
  lemma SuspendOutcome(s: Sched, t: int)
    requires Inv(s) && t in s.stat
    ensures var r := Apply(s, Suspend(t));
      && OnlyThreads(s, r) && r.prio == s.prio
      && (!Runnable(s, t) ==> r == s)
      && (Runnable(s, t) ==> r.stat == s.stat[t := Suspended])
      && (s.stat[t] == Ready ==> t in s.prio && Leaves(s.lists, r.lists, s.prio[t], t))
      && (s.stat[t] == Running ==> r.lists == s.lists)
  {
    PulledLeaves(s, t);
  }

  /** A change of priority: a ready thread leaves its list and stands last in the list of its new priority. */
  lemma PriorityOutcome(s: Sched, t: int, p: nat) returns (mid: seq<seq<int>>)
    requires Inv(s) && t in s.stat && p < |s.lists|
    ensures var r := Apply(s, ChangePriority(t, p));
      && OnlyThreads(s, r) && r.prio == s.prio[t := p] && r.stat == s.stat
      && (s.stat[t] == Ready ==> t in s.prio && Leaves(s.lists, mid, s.prio[t], t) && Joins(mid, r.lists, p, t))
      && (s.stat[t] != Ready ==> r.lists == s.lists)
  {
    PulledLeaves(s, t);
    PriorityOk(s, t, p);
    mid := Pulled(s.lists, s.prio[t], t);
  }

  /** c is s but for t being ready at the end of list p. */
  ghost predicate Readied(s: Sched, c: Sched, t: int, p: nat)
  {
    OnlyThreads(s, c) && c.stat == s.stat[t := Ready] && Joins(s.lists, c.lists, p, t)
  }

  /** A started thread gets its first priority and becomes ready, and the scheduler is called once it runs. */
  lemma StartupOutcome(s: Sched, t: int) returns (c: Sched)
    requires Inv(s) && Allowed(s, Startup(t))
    ensures t in s.base && Readied(s, c, t, s.base[t]) && c.prio == s.prio[t := s.base[t]] && Inv(c)
    ensures Apply(s, Startup(t)) == if s.current == 0 then c else Schedule(c)
  {
    StartupKeeps(s, t);
    var s1 := s.(prio := s.prio[t := s.base[t]], stat := s.stat[t := Suspended]);
    InsertKeeps(s1, t);
    c := Insert(s1, t);
    assert s.stat[t := Suspended][t := Ready] == s.stat[t := Ready];
  }

  /** When its waiting time is over a thread becomes ready, and the scheduler is called. */
  lemma TimeoutOutcome(s: Sched, t: int) returns (c: Sched)
    requires Inv(s) && Allowed(s, Timeout(t))
    ensures t in s.prio && c.prio == s.prio && Inv(c)
    ensures if t == s.current then c == s.(stat := s.stat[t := Running]) else Readied(s, c, t, s.prio[t])
    ensures Apply(s, Timeout(t)) == if s.current == 0 then c else Schedule(c)
  {
    InsertKeeps(s, t);
    c := Insert(s, t);
  }

  /** A thread that exits is closed and in no list, and the scheduler is called. */
  lemma ExitOutcome(s: Sched) returns (c: Sched)
    requires Inv(s) && Allowed(s, Exit)
    ensures OnlyThreads(s, c) && c.prio == s.prio && c.stat == s.stat[s.current := Closed] && c.lists == s.lists && Inv(c)
    ensures Apply(s, Exit) == Schedule(c)
  {
    PulledLeaves(s, s.current);
    RemoveKeeps(s, s.current, Closed);
    c := Remove(s, s.current, Closed);
    assert s.current != 0 by { assert ThreadOk(s, s.current); }
  }

  /** A detached thread is closed and in no list. */
  lemma DetachOutcome(s: Sched, t: int)
    requires Inv(s) && Allowed(s, Detach(t))
    ensures var r := Apply(s, Detach(t));
      && OnlyThreads(s, r) && r.prio == s.prio && r.stat == s.stat[t := Closed]
      && (s.stat[t] == Ready ==> t in s.prio && Leaves(s.lists, r.lists, s.prio[t], t))
      && (s.stat[t] != Ready ==> r.lists == s.lists)
  {
    PulledLeaves(s, t);
  }

  /** A tick counts down the slice of the current thread; at its end the slice is renewed and the scheduler called. */
  lemma TickOutcome(s: Sched)
    requires Inv(s) && Allowed(s, Tick)
    ensures var r, t := Apply(s, Tick), s.current;
      && t in s.left && t in s.slice
      && (s.left[t] > 1 ==> r == s.(left := s.left[t := s.left[t] - 1]))
      && (s.left[t] == 1 ==> Inv(s.(left := s.left[t := s.slice[t]])) && r == Schedule(s.(left := s.left[t := s.slice[t]])))
  {
    assert ThreadOk(s, s.current);
    TickKeeps(s, if s.left[s.current] == 1 then s.slice[s.current] else s.left[s.current] - 1);
  }

  /** Critical sections nest; leaving the outermost one calls the scheduler. */
  lemma LockOutcome(s: Sched)
    requires Inv(s)
    ensures Apply(s, Enter) == s.(lock := s.lock + 1)
    ensures s.lock > 1 ==> Apply(s, Leave) == s.(lock := s.lock - 1)
    ensures s.lock <= 1 ==> Inv(s.(lock := 0)) && Apply(s, Leave) == if s.current == 0 then s.(lock := 0) else Schedule(s.(lock := 0))
  {
  }

  /** The most urgent list that is not empty. */
  ghost predicate Top(lists: seq<seq<int>>, h: nat)
  {
    h < |lists| && lists[h] != [] && forall p :: 0 <= p < h ==> lists[p] == []
  }

  /** Whether the scheduler leaves everything as it is: it is locked, nobody is ready, or the running thread is more urgent
      than everybody ready. */
  ghost predicate Stays(s: Sched)
  {
    || s.lock != 0 || (forall p :: 0 <= p < |s.lists| ==> s.lists[p] == [])
    || (s.current in s.stat && s.stat[s.current] == Running && s.current in s.prio
        && forall p :: 0 <= p < |s.lists| && p <= s.prio[s.current] ==> s.lists[p] == [])
  }

  /** The scheduler switches to the first thread of the most urgent list; a thread that was running goes to the end of the
      list of its priority, so behind the equally urgent ones. */
  lemma ScheduleOutcome(s: Sched) returns (h: nat, mid: seq<seq<int>>)
    requires Inv(s)
    ensures Stays(s) ==> Schedule(s) == s
    ensures !Stays(s) ==>
      var r := Schedule(s);
      && Top(s.lists, h) && r.current == s.lists[h][0] && r == s.(current := r.current, stat := r.stat, lists := r.lists)
      && (if s.current in s.stat && s.stat[s.current] == Running then
            && s.current in s.prio && Joins(s.lists, mid, s.prio[s.current], s.current)
            && r.stat == s.stat[s.current := Ready][r.current := Running]
          else mid == s.lists && r.stat == s.stat[r.current := Running])
      && h < |mid| && mid[h] != [] && r.lists == mid[h := mid[h][1..]]
  {
    h, mid := Least(s.lists, 0), s.lists;
    if s.current in s.stat { InsertWf(s, s.current); }
    if !Stays(s) {
      SwitchParts(s, h);
      HeadIsReady(s, h);
      if s.current in s.stat && s.stat[s.current] == Running { mid := Pushed(s.lists, s.prio[s.current], s.current); }
    }
  }

  /** The first switch goes to the head of the most urgent list. */
  lemma StartOutcome(s: Sched) returns (h: nat)
    requires Inv(s) && exists p :: 0 <= p < |s.lists| && s.lists[p] != []
    ensures Top(s.lists, h) && Least(s.lists, 0) < |s.lists|
    ensures var t := s.lists[h][0]; Start(s) == s.(current := t, stat := s.stat[t := Running], lists := s.lists[h := s.lists[h][1..]])
  {
    h := Least(s.lists, 0);
    HeadIsReady(s, h);
  }
}
