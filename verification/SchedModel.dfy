/** The uniprocessor scheduler as a value: ready lists by priority, thread states, the running thread and the lock. */
module SchedModel {
  import opened Basics
  import opened Ring

  datatype Stat = Init | Ready | Running | Suspended | Closed

  /** Threads are named by numbers above 0; current is 0 until the scheduler is started. left is remaining_tick,
      slice is init_tick, base is init_priority. */
  datatype Sched = Sched(lists: seq<seq<int>>, stat: map<int, Stat>, prio: map<int, nat>, current: int, lock: int,
                         left: map<int, int>, slice: map<int, int>, base: map<int, nat>)

  /** The most urgent priority from p on whose list is not empty; |lists| when there is none. */
  function Least(lists: seq<seq<int>>, p: nat): (h: nat)
    requires p <= |lists|
    ensures p <= h <= |lists| && (h < |lists| ==> lists[h] != [])
    ensures forall q :: p <= q < h ==> lists[q] == []
    decreases |lists| - p
  {
    if p == |lists| || lists[p] != [] then p else Least(lists, p + 1)
  }

  function Pushed(lists: seq<seq<int>>, p: nat, t: int): seq<seq<int>>
    requires p < |lists|
  {
    lists[p := lists[p] + [t]]
  }

  function Pulled(lists: seq<seq<int>>, p: nat, t: int): seq<seq<int>>
    requires p < |lists|
  {
    lists[p := Dropped(lists[p], t)]
  }

  predicate Known(s: Sched, t: int)
  {
    t in s.stat && t in s.prio && s.prio[t] < |s.lists|
  }

  /** rt_schedule_insert_thread. */
  function Insert(s: Sched, t: int): Sched
    requires Known(s, t)
  {
    if t == s.current then s.(stat := s.stat[t := Running])
    else s.(stat := s.stat[t := Ready], lists := Pushed(s.lists, s.prio[t], t))
  }

  /** rt_schedule_remove_thread, and a new state for the thread. */
  function Remove(s: Sched, t: int, x: Stat): Sched
    requires Known(s, t)
  {
    s.(lists := Pulled(s.lists, s.prio[t], t), stat := s.stat[t := x])
  }

  /** A ready thread goes to the end of list p. */
  function Moved(s: Sched, t: int, p: nat): Sched
    requires Known(s, t) && p < |s.lists|
  {
    s.(lists := Pushed(Pulled(s.lists, s.prio[t], t), p, t), prio := s.prio[t := p])
  }

  /** The switch to the head of list h; a thread that was running goes to the end of its own list. */
  function Switch(s: Sched, h: nat): Sched
    requires h < |s.lists| && s.lists[h] != [] && Known(s, s.lists[h][0])
    requires s.current in s.stat && s.stat[s.current] == Running ==> Known(s, s.current)
  {
    var to := s.lists[h][0];
    var s1 := s.(current := to);
    var s2 := if s.current in s.stat && s.stat[s.current] == Running && s.current != to then Insert(s1, s.current) else s1;
    Remove(s2, to, Running)
  }

  /** rt_schedule. */
  function Schedule(s: Sched): Sched
    requires Inv(s)
  {
    var h := Least(s.lists, 0);
    if s.lock != 0 || h == |s.lists| then s
    else if s.current in s.stat && s.stat[s.current] == Running && s.prio[s.current] < h then s
    else HeadIsReady(s, h); Switch(s, h)
  }

  /** rt_system_scheduler_start. */
  function Start(s: Sched): Sched
    requires Inv(s) && Least(s.lists, 0) < |s.lists|
  {
    HeadIsReady(s, Least(s.lists, 0));
    var to := s.lists[Least(s.lists, 0)][0];
    Remove(s.(current := to), to, Running)
  }

  // ---- what every operation keeps

  ghost predicate ListOk(l: seq<int>, stat: map<int, Stat>, prio: map<int, nat>, p: nat)
  {
    Distinct(l) && forall t :: t in l <==> t in stat && t in prio && stat[t] == Ready && prio[t] == p
  }

  /** The list of each priority holds exactly the ready threads of that priority, each once. */
  ghost predicate ListsOk(lists: seq<seq<int>>, stat: map<int, Stat>, prio: map<int, nat>)
  {
    forall p :: 0 <= p < |lists| ==> ListOk(lists[p], stat, prio, p)
  }

  ghost predicate ThreadOk(s: Sched, t: int)
    requires t in s.stat
  {
    t > 0 && Known(s, t) && t in s.left && t in s.slice && t in s.base && s.left[t] > 0 && s.slice[t] > 0 && s.base[t] < |s.lists|
  }

  /** Only the current thread is running, and it is never marked ready. */
  ghost predicate CurrentOk(stat: map<int, Stat>, current: int)
  {
    && (forall t :: t in stat && stat[t] == Running ==> t == current)
    && (current == 0 || (current in stat && (stat[current] == Running || stat[current] == Suspended || stat[current] == Closed)))
  }

  ghost predicate Inv(s: Sched)
  {
    && (forall t :: t in s.stat ==> ThreadOk(s, t))
    && ListsOk(s.lists, s.stat, s.prio) && CurrentOk(s.stat, s.current) && s.lock >= 0
  }

  lemma HeadIsReady(s: Sched, h: nat)
    requires Inv(s) && h < |s.lists| && s.lists[h] != []
    ensures var t := s.lists[h][0]; Known(s, t) && s.stat[t] == Ready && s.prio[t] == h && t != s.current
    ensures s.current in s.stat ==> Known(s, s.current)
  {
    assert ListOk(s.lists[h], s.stat, s.prio, h);
    assert s.lists[h][0] in s.lists[h];
    assert forall t :: t in s.stat ==> ThreadOk(s, t);
    if s.current in s.stat { assert ThreadOk(s, s.current); }
    assert ThreadOk(s, s.lists[h][0]);
  }

  lemma PushKeeps(lists: seq<seq<int>>, stat: map<int, Stat>, prio: map<int, nat>, t: int)
    requires ListsOk(lists, stat, prio) && t in stat && t in prio && prio[t] < |lists| && stat[t] != Ready
    ensures ListsOk(Pushed(lists, prio[t], t), stat[t := Ready], prio)
  {
    var r := Pushed(lists, prio[t], t);
    forall p | 0 <= p < |r| ensures ListOk(r[p], stat[t := Ready], prio, p) {
      assert ListOk(lists[p], stat, prio, p);
    }
  }

  lemma PullKeeps(lists: seq<seq<int>>, stat: map<int, Stat>, prio: map<int, nat>, t: int, x: Stat)
    requires ListsOk(lists, stat, prio) && t in stat && t in prio && prio[t] < |lists| && x != Ready
    ensures ListsOk(Pulled(lists, prio[t], t), stat[t := x], prio)
  {
    var r := Pulled(lists, prio[t], t);
    forall p | 0 <= p < |r| ensures ListOk(r[p], stat[t := x], prio, p) {
      assert ListOk(lists[p], stat, prio, p);
      DroppedMembers(lists[p], t);
    }
  }

  /** Marking a thread that is not ready changes no list. */
  lemma MarkKeeps(lists: seq<seq<int>>, stat: map<int, Stat>, prio: map<int, nat>, t: int, x: Stat)
    requires ListsOk(lists, stat, prio) && t in stat && stat[t] != Ready && x != Ready
    ensures ListsOk(lists, stat[t := x], prio)
  {
    forall p | 0 <= p < |lists| ensures ListOk(lists[p], stat[t := x], prio, p) {
      assert ListOk(lists[p], stat, prio, p);
    }
  }

  lemma PriorityKeeps(lists: seq<seq<int>>, stat: map<int, Stat>, prio: map<int, nat>, t: int, q: nat)
    requires ListsOk(lists, stat, prio) && t in stat && stat[t] != Ready
    ensures ListsOk(lists, stat, prio[t := q])
  {
    forall p | 0 <= p < |lists| ensures ListOk(lists[p], stat, prio[t := q], p) {
      assert ListOk(lists[p], stat, prio, p);
    }
  }

  lemma ThreadsKept(s: Sched, r: Sched)
    requires forall t :: t in s.stat ==> ThreadOk(s, t)
    requires r.stat.Keys == s.stat.Keys && r.prio == s.prio && |r.lists| == |s.lists|
    requires r.left == s.left && r.slice == s.slice && r.base == s.base
    ensures forall t :: t in r.stat ==> ThreadOk(r, t)
  {
    forall t | t in r.stat ensures ThreadOk(r, t) { assert t in s.stat && ThreadOk(s, t); }
  }

  lemma InsertKeeps(s: Sched, t: int)
    requires Inv(s) && t in s.stat && (s.stat[t] == Suspended || s.stat[t] == Running)
    ensures Known(s, t) && Inv(Insert(s, t))
  {
    assert ThreadOk(s, t);
    ThreadsKept(s, Insert(s, t));
    if t == s.current {
      MarkKeeps(s.lists, s.stat, s.prio, t, Running);
    } else {
      PushKeeps(s.lists, s.stat, s.prio, t);
    }
  }

  lemma RemoveKeeps(s: Sched, t: int, x: Stat)
    requires Inv(s) && t in s.stat && (x == Suspended || x == Closed)
    ensures Known(s, t) && Inv(Remove(s, t, x))
  {
    assert ThreadOk(s, t);
    ThreadsKept(s, Remove(s, t, x));
    PullKeeps(s.lists, s.stat, s.prio, t, x);
  }

  lemma {:induction false} PushThenPull(l: seq<int>, t: int, u: int)
    requires u in l
    ensures Dropped(l + [t], u) == Dropped(l, u) + [t]
    decreases |l|
  {
    assert (l + [t])[1..] == l[1..] + [t];
    if l[0] != u { PushThenPull(l[1..], t, u); }
  }

  /** The state after a switch: the head of list h runs, a thread that was running is ready behind its peers. */
  lemma SwitchParts(s: Sched, h: nat)
    requires Inv(s) && h < |s.lists| && s.lists[h] != []
    ensures Known(s, s.lists[h][0]) && (s.current in s.stat ==> Known(s, s.current))
    ensures var to, r := s.lists[h][0], Switch(s, h);
      && r.current == to && to != s.current && s.stat[to] == Ready
      && Switch(s, h) == s.(current := to, lists := r.lists, stat := r.stat)
      && r.stat == (if s.current in s.stat && s.stat[s.current] == Running then s.stat[s.current := Ready][to := Running] else s.stat[to := Running])
      && |r.lists| == |s.lists| && ListsOk(r.lists, r.stat, s.prio)
  {
    HeadIsReady(s, h);
    var to := s.lists[h][0];
    if s.current in s.stat && s.stat[s.current] == Running {
      PushKeeps(s.lists, s.stat, s.prio, s.current);
      PullKeeps(Pushed(s.lists, s.prio[s.current], s.current), s.stat[s.current := Ready], s.prio, to, Running);
    } else {
      PullKeeps(s.lists, s.stat, s.prio, to, Running);
    }
  }

  lemma SwitchKeeps(s: Sched, h: nat)
    requires Inv(s) && h < |s.lists| && s.lists[h] != []
    ensures Known(s, s.lists[h][0]) && (s.current in s.stat ==> Known(s, s.current)) && Inv(Switch(s, h))
  {
    SwitchParts(s, h);
    ThreadsKept(s, Switch(s, h));
  }

  lemma ScheduleKeeps(s: Sched)
    requires Inv(s)
    ensures Inv(Schedule(s))
  {
    var h := Least(s.lists, 0);
    if h < |s.lists| { SwitchKeeps(s, h); }
  }

  lemma RunningIsAlone(s: Sched)
    requires Inv(s) && s.current in s.stat && s.stat[s.current] == Running
    ensures Known(s, s.current) && s.current !in s.lists[s.prio[s.current]] && Distinct(s.lists[s.prio[s.current]])
  {
    assert ThreadOk(s, s.current);
    assert ListOk(s.lists[s.prio[s.current]], s.stat, s.prio, s.prio[s.current]);
  }

  /** A ready thread is in the list of its priority, and no other thread is. */
  lemma Placed(s: Sched, t: int)
    requires Inv(s) && t in s.stat
    ensures Known(s, t) && Distinct(s.lists[s.prio[t]]) && (t in s.lists[s.prio[t]] <==> s.stat[t] == Ready)
  {
    assert ThreadOk(s, t);
    assert ListOk(s.lists[s.prio[t]], s.stat, s.prio, s.prio[t]);
  }

  lemma StartKeeps(s: Sched)
    requires Inv(s) && Least(s.lists, 0) < |s.lists| && s.current == 0
    ensures Inv(Start(s))
  {
    var h := Least(s.lists, 0);
    HeadIsReady(s, h);
    var to := s.lists[h][0];
    PullKeeps(s.lists, s.stat, s.prio, to, Running);
    ThreadsKept(s, Start(s));
  }

  // ---- what scheduling achieves

  ghost predicate Runnable(s: Sched, t: int)
  {
    t in s.stat && (s.stat[t] == Ready || s.stat[t] == Running)
  }

  /** A ready thread is in the list of its priority. */
  lemma ReadyIsListed(s: Sched, t: int)
    requires Inv(s) && t in s.stat && s.stat[t] == Ready
    ensures t in s.prio && s.prio[t] < |s.lists| && t in s.lists[s.prio[t]] && Least(s.lists, 0) <= s.prio[t]
  {
    assert ThreadOk(s, t);
    assert ListOk(s.lists[s.prio[t]], s.stat, s.prio, s.prio[t]);
  }

  /** After an unlocked rt_schedule, when anything can run, a runnable thread is running, it is in no ready
      list, and no ready thread is more urgent. */
  lemma ScheduleIsUrgent(s: Sched, u: int)
    requires Inv(s) && s.lock == 0 && Runnable(s, u)
    ensures var r := Schedule(s);
      && r.current in r.stat && r.stat[r.current] == Running && r.current in r.prio
      && (forall p :: 0 <= p < |r.lists| ==> r.current !in r.lists[p])
      && (forall t :: t in r.stat && r.stat[t] == Ready ==> t in r.prio && r.prio[r.current] <= r.prio[t])
  {
    var r, h := Schedule(s), Least(s.lists, 0);
    ScheduleKeeps(s);
    if s.stat[u] == Ready { ReadyIsListed(s, u); }
    if h < |s.lists| { SwitchParts(s, h); HeadIsReady(s, h); }
    assert ThreadOk(r, r.current);
    forall p | 0 <= p < |r.lists| ensures r.current !in r.lists[p] { assert ListOk(r.lists[p], r.stat, r.prio, p); }
    forall t | t in r.stat && r.stat[t] == Ready ensures t in r.prio && r.prio[r.current] <= r.prio[t] {
      assert ThreadOk(r, t);
      if s.stat[t] == Ready { ReadyIsListed(s, t); }
    }
  }

  /** Scheduling loses nobody and invents nobody. */
  lemma ScheduleKeepsRunnable(s: Sched, t: int)
    requires Inv(s)
    ensures Runnable(Schedule(s), t) <==> Runnable(s, t)
    ensures t in s.stat && !Runnable(s, t) ==> t in Schedule(s).stat && Schedule(s).stat[t] == s.stat[t]
    ensures Schedule(s).prio == s.prio && Schedule(s).lock == s.lock
  {
    var h := Least(s.lists, 0);
    if h < |s.lists| { SwitchParts(s, h); }
  }
}
