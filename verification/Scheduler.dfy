/** The scheduler with its ready lists as linked nodes and its ready bitmap, changed in place. */
module Scheduler {
  import opened Basics
  import opened Ring
  import opened ReadyMap
  import M = SchedModel
  import R = SchedRuns

  /** The node of the head of list p; thread nodes are named by their threads, which are above 0. */
  function Head(p: int): int
  {
    -1 - p
  }

  ghost predicate RingAt(next: map<int, int>, prev: map<int, int>, lists: seq<seq<int>>, p: nat)
    requires p < |lists|
  {
    Chained(next, prev, [Head(p)] + lists[p])
  }

  /** Each list is one ring through its head, and each node in lone is a ring of its own. */
  ghost predicate Rings(next: map<int, int>, prev: map<int, int>, lists: seq<seq<int>>, lone: set<int>)
  {
    && (forall p :: 0 <= p < |lists| ==> RingAt(next, prev, lists, p))
    && (forall t :: t in lone ==> Chained(next, prev, [t]))
  }

  ghost predicate HousedAt(l: seq<int>, lone: set<int>, prio: map<int, nat>, p: nat)
  {
    forall t :: t in l ==> t > 0 && t !in lone && t in prio && prio[t] == p
  }

  /** The lists and the lone nodes share no thread: each listed thread belongs to the list of its priority. */
  ghost predicate Housed(lists: seq<seq<int>>, lone: set<int>, prio: map<int, nat>)
  {
    (forall p :: 0 <= p < |lists| ==> HousedAt(lists[p], lone, prio, p)) && (forall t :: t in lone ==> t > 0)
  }

  /** The links of the nodes outside r and t are as they were. */
  ghost predicate FrameOf(next: map<int, int>, prev: map<int, int>, next': map<int, int>, prev': map<int, int>, r: seq<int>, t: int)
  {
    forall a :: a !in r && a != t && a in next && a in prev ==> a in next' && a in prev' && next'[a] == next[a] && prev'[a] == prev[a]
  }

  /** Every node of a ring has both links. */
  lemma RingNodes(next: map<int, int>, prev: map<int, int>, r: seq<int>, a: int)
    requires Chained(next, prev, r) && a in r
    ensures a in next && a in prev
  {
    var i :| 0 <= i < |r| && r[i] == a;
    assert LinkAt(next, prev, r, i);
    assert LinkAt(next, prev, r, if i == 0 then |r| - 1 else i - 1);
  }

  lemma RingFramed(next: map<int, int>, prev: map<int, int>, next': map<int, int>, prev': map<int, int>, r: seq<int>, t: int, o: seq<int>)
    requires FrameOf(next, prev, next', prev', r, t) && Chained(next, prev, o) && t !in o && forall a :: a in o ==> a !in r
    ensures Chained(next', prev', o)
  {
    forall a | a in o
      ensures (a in next ==> a in next' && next'[a] == next[a]) && (a in prev ==> a in prev' && prev'[a] == prev[a])
    {
      RingNodes(next, prev, o, a);
    }
    ChainFrame(next, prev, next', prev', o);
  }

  /** Only the ring of list p and the node t were touched. */
  lemma RingsFramed(next: map<int, int>, prev: map<int, int>, next': map<int, int>, prev': map<int, int>,
                    lists: seq<seq<int>>, lone: set<int>, prio: map<int, nat>, p: nat, t: int, q: nat)
    requires Rings(next, prev, lists, lone) && Housed(lists, lone, prio) && p < |lists| && q < |lists| && q != p
    requires t in lone || t in lists[p]
    requires FrameOf(next, prev, next', prev', [Head(p)] + lists[p], t)
    ensures RingAt(next', prev', lists, q)
  {
    assert RingAt(next, prev, lists, q) && HousedAt(lists[q], lone, prio, q) && HousedAt(lists[p], lone, prio, p);
    RingFramed(next, prev, next', prev', [Head(p)] + lists[p], t, [Head(q)] + lists[q]);
  }

  lemma PushHoused(lists: seq<seq<int>>, lone: set<int>, prio: map<int, nat>, t: int)
    requires Housed(lists, lone, prio) && t in lone && t in prio && prio[t] < |lists|
    ensures Housed(M.Pushed(lists, prio[t], t), lone - {t}, prio)
  {
    var r := M.Pushed(lists, prio[t], t);
    forall p | 0 <= p < |r| ensures HousedAt(r[p], lone - {t}, prio, p) { assert HousedAt(lists[p], lone, prio, p); }
  }

  lemma PullHoused(lists: seq<seq<int>>, lone: set<int>, prio: map<int, nat>, t: int)
    requires Housed(lists, lone, prio) && t in prio && prio[t] < |lists| && t in lists[prio[t]] && Distinct(lists[prio[t]])
    ensures Housed(M.Pulled(lists, prio[t], t), lone + {t}, prio)
  {
    var r := M.Pulled(lists, prio[t], t);
    DroppedMembers(lists[prio[t]], t);
    forall p | 0 <= p < |r| ensures HousedAt(r[p], lone + {t}, prio, p) { assert HousedAt(lists[p], lone, prio, p); }
    assert HousedAt(lists[prio[t]], lone, prio, prio[t]);
  }

  lemma PushRings(next: map<int, int>, prev: map<int, int>, next': map<int, int>, prev': map<int, int>,
                  lists: seq<seq<int>>, lone: set<int>, prio: map<int, nat>, t: int)
    requires Rings(next, prev, lists, lone) && Housed(lists, lone, prio) && t in prio && prio[t] < |lists| && t in lone
    requires Chained(next', prev', [Head(prio[t])] + lists[prio[t]] + [t])
    requires FrameOf(next, prev, next', prev', [Head(prio[t])] + lists[prio[t]], t)
    ensures Rings(next', prev', M.Pushed(lists, prio[t], t), lone - {t})
  {
    var p, r := prio[t], M.Pushed(lists, prio[t], t);
    assert HousedAt(lists[p], lone, prio, p);
    forall q | 0 <= q < |r| ensures RingAt(next', prev', r, q) {
      if q == p {
        assert [Head(p)] + r[p] == [Head(p)] + lists[p] + [t];
      } else {
        RingsFramed(next, prev, next', prev', lists, lone, prio, p, t, q);
      }
    }
    forall u | u in lone - {t} ensures Chained(next', prev', [u]) {
      RingFramed(next, prev, next', prev', [Head(p)] + lists[p], t, [u]);
    }
  }

  lemma PullRings(next: map<int, int>, prev: map<int, int>, next': map<int, int>, prev': map<int, int>,
                  lists: seq<seq<int>>, lone: set<int>, prio: map<int, nat>, t: int)
    requires Rings(next, prev, lists, lone) && Housed(lists, lone, prio) && t in prio && prio[t] < |lists|
    requires t in lists[prio[t]] && Distinct(lists[prio[t]])
    requires Chained(next', prev', [Head(prio[t])] + Dropped(lists[prio[t]], t)) && Chained(next', prev', [t])
    requires FrameOf(next, prev, next', prev', [Head(prio[t])] + lists[prio[t]], t)
    ensures Rings(next', prev', M.Pulled(lists, prio[t], t), lone + {t})
  {
    var p, r := prio[t], M.Pulled(lists, prio[t], t);
    assert HousedAt(lists[p], lone, prio, p);
    forall q | 0 <= q < |r| ensures RingAt(next', prev', r, q) {
      if q != p { RingsFramed(next, prev, next', prev', lists, lone, prio, p, t, q); }
    }
    forall u | u in lone ensures Chained(next', prev', [u]) {
      RingFramed(next, prev, next', prev', [Head(p)] + lists[p], t, [u]);
    }
  }

  lemma LoneRings(next: map<int, int>, prev: map<int, int>, next': map<int, int>, prev': map<int, int>, lists: seq<seq<int>>,
                  lone: set<int>, prio: map<int, nat>, t: int)
    requires Rings(next, prev, lists, lone) && Housed(lists, lone, prio) && t in lone
    requires Chained(next', prev', [t]) && FrameOf(next, prev, next', prev', [t], t)
    ensures Rings(next', prev', lists, lone)
  {
    forall q | 0 <= q < |lists| ensures RingAt(next', prev', lists, q) {
      assert RingAt(next, prev, lists, q) && HousedAt(lists[q], lone, prio, q);
      RingFramed(next, prev, next', prev', [t], t, [Head(q)] + lists[q]);
    }
    forall u | u in lone ensures Chained(next', prev', [u]) {
      if u != t { RingFramed(next, prev, next', prev', [t], t, [u]); }
    }
  }

  ghost function Filled(lists: seq<seq<int>>): set<nat>
  {
    set p: nat | p < |lists| && lists[p] != []
  }

  lemma PushFills(lists: seq<seq<int>>, p: nat, t: int)
    requires p < |lists|
    ensures Filled(M.Pushed(lists, p, t)) == Filled(lists) + {p}
  {
  }

  lemma PullFills(lists: seq<seq<int>>, p: nat, t: int)
    requires p < |lists|
    ensures Filled(M.Pulled(lists, p, t)) == if Dropped(lists[p], t) == [] then Filled(lists) - {p} else Filled(lists) + {p}
  {
  }

  lemma HighestFilled(m: Map, lists: seq<seq<int>>)
    requires Marks(m, Filled(lists))
    ensures m.group == 0 <==> M.Least(lists, 0) == |lists|
    ensures m.group != 0 ==> Highest(m) == M.Least(lists, 0)
  {
    GroupEmpty(m, Filled(lists));
    var h := M.Least(lists, 0);
    if h < |lists| {
      assert h in Filled(lists);
      HighestIsLeast(m, Filled(lists));
    }
  }

  /** The three attributes that thread code keeps beside the priority. */
  datatype Attributes = Attributes(number: nat, numberMask: bv32, highMask: bv8)

  function AttributesOf(wide: bool, p: nat): Attributes
  {
    if wide then Attributes(p / 8, Bit(p / 8), HighMask(p)) else Attributes(0, Bit(p), 0)
  }

  class Scheduler {
    const wide: bool                  // RT_THREAD_PRIORITY_MAX > 32
    const links: Links                // the nodes of rt_thread_priority_table and of the threads
    const base: map<int, nat>         // init_priority of each thread
    const slice: map<int, int>        // init_tick of each thread
    var group: bv32                   // rt_thread_ready_priority_group
    var table: seq<bv8>               // rt_thread_ready_table
    var stat: map<int, M.Stat>
    var prio: map<int, nat>           // current_priority
    var attr: map<int, Attributes>
    var left: map<int, int>           // remaining_tick
    var current: int                  // rt_current_thread, 0 for null
    var lock: int                     // rt_scheduler_lock_nest

    ghost var lists: seq<seq<int>>
    ghost var lone: set<int>

    ghost function State(): M.Sched
      reads this
    {
      M.Sched(lists, stat, prio, current, lock, left, slice, base)
    }

    function Ready(): Map
      reads this
    {
      if wide then TwoLevel(group, table) else Flat(group)
    }

    /** Links, bitmap and list contents agree. */
    ghost predicate Linked()
      reads this, links
    {
      && Rings(links.next, links.prev, lists, lone) && Housed(lists, lone, prio)
      && |lists| <= (if wide then 256 else 32) && Marks(Ready(), Filled(lists))
    }

    /** A live thread that was started has the attributes of its priority. */
    ghost predicate Attributed()
      reads this
    {
      forall t :: t in stat && t in prio && stat[t] != M.Init && stat[t] != M.Closed ==> t in attr && attr[t] == AttributesOf(wide, prio[t])
    }

    ghost predicate Valid()
      reads this, links
    {
      M.Inv(State()) && Linked() && Attributed() && lone == NotReady(stat)
    }

    /** rt_system_scheduler_init, with every thread initialized and none started. */
    constructor (wide: bool, n: nat, base: map<int, nat>, slice: map<int, int>)
      requires n <= (if wide then 256 else 32) && ThreadsFit(n, base, slice)
      ensures Valid() && fresh(links) && State() == Initial(n, base, slice)
    {
      this.wide, this.base, this.slice := wide, base, slice;
      links := new Links();
      group, table := 0, seq(WORDS, i => 0);
      stat := map t | t in base :: M.Init;
      prio, attr, left := base, map[], map t | t in base :: slice[t];
      current, lock := 0, 0;
      lists, lone := Initial(n, base, slice).lists, base.Keys;
      new;
      InitLists(n);
      InitNodes(base.Keys, n);
      InitialRings(links.next, links.prev, n, base.Keys, base);
      InitialInv(n, base, slice);
      NoneMarked(Ready());
      assert Filled(lists) == {};
    }

    method InitLists(n: nat)
      modifies links
      ensures forall p :: 0 <= p < n ==> Alone(links.next, links.prev, Head(p))
    {
      var p := 0;
      while p < n
        invariant 0 <= p <= n && forall q :: 0 <= q < p ==> Alone(links.next, links.prev, Head(q))
      {
        links.Init(Head(p));
        p := p + 1;
      }
    }

    /** The nodes of the threads, and the heads stay as they were. */
    method InitNodes(threads: set<int>, n: nat)
      requires forall t :: t in threads ==> t > 0
      requires forall p :: 0 <= p < n ==> Alone(links.next, links.prev, Head(p))
      modifies links
      ensures forall t :: t in threads ==> Alone(links.next, links.prev, t)
      ensures forall p :: 0 <= p < n ==> Alone(links.next, links.prev, Head(p))
    {
      var todo := threads;
      while todo != {}
        invariant todo <= threads && forall t :: t in threads - todo ==> Alone(links.next, links.prev, t)
        invariant forall p :: 0 <= p < n ==> Alone(links.next, links.prev, Head(p))
        decreases todo
      {
        var t := Pick(todo);
        ghost var rest := threads - todo;
        links.Init(t);
        todo := todo - {t};
        assert threads - todo == rest + {t};
      }
    }

    /** Sets the bit of the priority of t. */
    method SetMask(t: int)
      requires t in prio && t in attr && attr[t] == AttributesOf(wide, prio[t])
      requires if wide then |table| == WORDS && prio[t] < 256 else prio[t] < 32
      modifies `group, `table
      ensures Ready() == Mark(old(Ready()), prio[t])
    {
      if wide {
        table := table[attr[t].number := table[attr[t].number] | attr[t].highMask];
      }
      group := group | attr[t].numberMask;
    }

    /** Clears the bit of the priority of t. */
    method ClearMask(t: int)
      requires t in prio && t in attr && attr[t] == AttributesOf(wide, prio[t])
      requires if wide then |table| == WORDS && prio[t] < 256 else prio[t] < 32
      modifies `group, `table
      ensures Ready() == Unmark(old(Ready()), prio[t])
    {
      if wide {
        var b := ClearByte(table[attr[t].number], attr[t].highMask);
        table := table[attr[t].number := b];
        if b == 0 {
          group := ClearWord(group, attr[t].numberMask);
        }
      } else {
        group := ClearWord(group, attr[t].numberMask);
      }
    }

    /** rt_schedule_insert_thread. */
    method InsertThread(t: int)
      requires Linked() && M.Known(State(), t) && t in lone && t in attr && attr[t] == AttributesOf(wide, prio[t])
      modifies `stat, `group, `table, `lists, `lone, links
      ensures Linked() && State() == M.Insert(old(State()), t) && lone == if t == current then old(lone) else old(lone) - {t}
    {
      if t == current {
        stat := stat[t := M.Running];
        return;
      }
      stat := stat[t := M.Ready];
      Enqueue(t);
    }

    /** The node of t goes to the end of the list of its priority. */
    method Enqueue(t: int)
      requires Linked() && M.Known(State(), t) && t in lone && t in attr && attr[t] == AttributesOf(wide, prio[t])
      modifies `group, `table, `lists, `lone, links
      ensures Linked() && lists == M.Pushed(old(lists), prio[t], t) && lone == old(lone) - {t}
    {
      ghost var p, next, prev, l, m := prio[t], links.next, links.prev, lists, Ready();
      assert RingAt(next, prev, l, p) && HousedAt(l[p], lone, prio, p);
      links.InsertBefore(Head(prio[t]), t, [Head(p)] + l[p], 0);
      PushRings(next, prev, links.next, links.prev, l, lone, prio, t);
      PushHoused(l, lone, prio, t);
      SetMask(t);
      MarkAdds(m, Filled(l), p);
      PushFills(l, p, t);
      lists, lone := M.Pushed(l, p, t), lone - {t};
    }

    /** The node of t leaves its list, if it is in one. */
    method Unlink(t: int)
      requires Linked() && M.Known(State(), t) && (t in lone || t in lists[prio[t]]) && Distinct(lists[prio[t]])
      modifies `lists, `lone, links
      ensures lists == M.Pulled(old(lists), prio[t], t) && lone == old(lone) + {t}
      ensures Rings(links.next, links.prev, lists, lone) && Housed(lists, lone, prio)
    {
      ghost var p, next, prev, l := prio[t], links.next, links.prev, lists;
      assert RingAt(next, prev, l, p) && HousedAt(l[p], lone, prio, p);
      ghost var r, k := [t], 0;
      if t !in lone {
        k := PlaceOf(l[p], t);
        RemovedFromRing(Head(p), l[p], k);
        r, k := [Head(p)] + l[p], k + 1;
      }
      links.Remove(t, r, k);
      if t in lone {
        LoneRings(next, prev, links.next, links.prev, l, lone, prio, t);
        DroppedAbsent(l[p], t);
        assert l[p := l[p]] == l;
      } else {
        PullRings(next, prev, links.next, links.prev, l, lone, prio, t);
        PullHoused(l, lone, prio, t);
      }
      lists, lone := M.Pulled(l, p, t), lone + {t};
    }

    /** rt_schedule_remove_thread. */
    method RemoveThread(t: int)
      requires Linked() && M.Known(State(), t) && (t in lone || t in lists[prio[t]]) && Distinct(lists[prio[t]])
      requires t in attr && attr[t] == AttributesOf(wide, prio[t])
      modifies `group, `table, `lists, `lone, links
      ensures Linked() && lists == M.Pulled(old(lists), prio[t], t) && lone == old(lone) + {t}
    {
      ghost var p, l, m := prio[t], lists, Ready();
      Unlink(t);
      assert RingAt(links.next, links.prev, lists, p);
      var empty := links.IsEmpty(Head(prio[t]), [Head(p)] + lists[p]);
      PullFills(l, p, t);
      if empty {
        ClearMask(t);
        UnmarkDrops(m, Filled(l), p);
      } else {
        StillFilled(l[p], t);
        assert Filled(l) + {p} == Filled(l);
      }
    }

    /** rt_schedule_remove_thread and the new state that its callers give the thread. */
    method TakeOff(t: int, x: M.Stat)
      requires Linked() && Attributed() && lone == NotReady(stat) && M.Known(State(), t) && x != M.Ready
      requires Distinct(lists[prio[t]]) && (t in lists[prio[t]] <==> stat[t] == M.Ready)
      requires t in attr && attr[t] == AttributesOf(wide, prio[t])
      modifies `stat, `group, `table, `lists, `lone, links
      ensures Linked() && Attributed() && lone == NotReady(stat) && State() == M.Remove(old(State()), t, x)
    {
      RemoveThread(t);
      stat := stat[t := x];
    }

    /** A ready thread moves to the end of another list. */
    method Requeue(t: int, p: nat)
      requires Linked() && Attributed() && lone == NotReady(stat) && M.Known(State(), t) && p < |lists|
      requires Distinct(lists[prio[t]]) && t in lists[prio[t]] && stat[t] == M.Ready && t != current
      requires t in attr && attr[t] == AttributesOf(wide, prio[t])
      modifies `stat, `prio, `attr, `group, `table, `lists, `lone, links
      ensures Linked() && Attributed() && lone == NotReady(stat) && State() == M.Moved(old(State()), t, p)
    {
      RemoveThread(t);
      SetPriority(t, p);
      Rehoused(lists, lone, old(prio), prio, t);
      InsertThread(t);
    }

    /** _get_highest_priority_thread. */
    method GetHighest() returns (to: int, h: nat)
      requires Linked() && group != 0
      ensures h == M.Least(lists, 0) < |lists| && to == lists[h][0]
    {
      HighestFilled(Ready(), lists);
      h := Highest(Ready());
      ghost var r := [Head(h)] + lists[h];
      assert RingAt(links.next, links.prev, lists, h) && LinkAt(links.next, links.prev, r, 0);
      to := links.next[Head(h)];
    }

    /** The context switch of rt_schedule to the head of the most urgent list. */
    method SwitchTo(to: int, insertFrom: bool, ghost h: nat)
      requires Valid() && h < |lists| && lists[h] != [] && to == lists[h][0]
      requires insertFrom == (current in stat && stat[current] == M.Running)
      modifies `stat, `group, `table, `current, `lists, `lone, links
      ensures M.Known(old(State()), to) && (old(current) in old(stat) ==> M.Known(old(State()), old(current)))
      ensures Linked() && Attributed() && lone == NotReady(stat) && State() == M.Switch(old(State()), h)
    {
      M.HeadIsReady(State(), h);
      M.Placed(State(), to);
      if insertFrom { M.RunningIsAlone(State()); }
      SwitchNodes(to, insertFrom, h);
    }

    method SwitchNodes(to: int, insertFrom: bool, ghost h: nat)
      requires Linked() && Attributed() && lone == NotReady(stat) && h < |lists| && lists[h] != [] && to == lists[h][0]
      requires M.Known(State(), to) && stat[to] == M.Ready && prio[to] == h && to != current && Distinct(lists[h])
      requires insertFrom == (current in stat && stat[current] == M.Running)
      requires insertFrom ==> M.Known(State(), current) && current !in lists[prio[current]]
      modifies `stat, `group, `table, `current, `lists, `lone, links
      ensures Linked() && Attributed() && lone == NotReady(stat) && State() == M.Switch(old(State()), h)
    {
      var from := current;
      current := to;
      if insertFrom {
        InsertThread(from);
      }
      ghost var l := lists;
      assert to in l[prio[to]];
      TakeOff(to, M.Running);
    }

    /** The running thread stays: it is in no list, so taking it out changes nothing. */
    method Stay()
      requires Valid() && current in stat && stat[current] == M.Running
      modifies `stat, `group, `table, `lists, `lone, links
      ensures Valid() && State() == old(State())
    {
      M.RunningIsAlone(State());
      DroppedAbsent(lists[prio[current]], current);
      ghost var l := lists;
      RemoveThread(current);
      assert lists == l && lone == NotReady(stat);
      stat := stat[current := M.Running];
    }

    /** rt_schedule. */
    method Schedule()
      requires Valid() && current in stat
      modifies `stat, `group, `table, `current, `lists, `lone, links
      ensures Valid() && State() == M.Schedule(old(State())) && current in stat
    {
      M.ScheduleKeeps(State());
      R.ScheduleFrame(State());
      if lock == 0 {
        HighestFilled(Ready(), lists);
        if group != 0 {
          var to, h := GetHighest();
          var needInsert := false;
          M.HeadIsReady(State(), h);
          if stat[current] == M.Running {
            if prio[current] < h {
              to := current;
            } else {
              needInsert := true;
            }
          }
          if to != current {
            SwitchTo(to, needInsert, h);
          } else {
            Stay();
          }
        }
      }
    }

    /** rt_system_scheduler_start. */
    method Start()
      requires Valid() && group != 0 && current == 0
      modifies `stat, `group, `table, `current, `lists, `lone, links
      ensures M.Least(old(lists), 0) < |old(lists)| && Valid() && State() == M.Start(old(State()))
    {
      HighestFilled(Ready(), lists);
      M.StartKeeps(State());
      var to, h := GetHighest();
      M.HeadIsReady(State(), h);
      M.Placed(State(), to);
      current := to;
      TakeOff(to, M.Running);
    }

    /** The priority of t and the attributes that go with it. */
    method SetPriority(t: int, p: nat)
      requires t in stat
      modifies `prio, `attr
      ensures prio == old(prio)[t := p] && attr == old(attr)[t := AttributesOf(wide, p)]
    {
      prio := prio[t := p];
      attr := attr[t := if wide then Attributes(p / 8, Bit(p / 8), HighMask(p)) else Attributes(0, Bit(p), 0)];
    }

    /** rt_thread_suspend: true means EOK. */
    method Suspend(t: int) returns (ok: bool)
      requires Valid() && t in stat
      modifies `stat, `group, `table, `lists, `lone, links
      ensures Valid() && State() == R.SuspendStep(old(State()), t)
      ensures ok == (old(stat)[t] == M.Ready || old(stat)[t] == M.Running)
    {
      if stat[t] != M.Ready && stat[t] != M.Running {
        return false;
      }
      M.RemoveKeeps(State(), t, M.Suspended);
      M.Placed(State(), t);
      TakeOff(t, M.Suspended);
      return true;
    }

    /** rt_thread_resume: true means EOK. */
    method Resume(t: int) returns (ok: bool)
      requires Valid() && t in stat
      modifies `stat, `group, `table, `lists, `lone, links
      ensures Valid() && State() == R.ResumeStep(old(State()), t) && ok == (old(stat)[t] == M.Suspended)
    {
      if stat[t] != M.Suspended {
        return false;
      }
      M.InsertKeeps(State(), t);
      InsertThread(t);
      return true;
    }

    /** rt_thread_timeout, for a thread whose wait ends by the clock. */
    method Timeout(t: int)
      requires Valid() && t in stat && stat[t] == M.Suspended && current in stat
      modifies `stat, `group, `table, `current, `lists, `lone, links
      ensures Valid() && State() == R.TimeoutStep(old(State()), t)
    {
      M.InsertKeeps(State(), t);
      InsertThread(t);
      Schedule();
    }

    /** A started thread gets its priority and is suspended before it is resumed. */
    method Begin(t: int)
      requires Linked() && Attributed() && t in lone && lone == NotReady(stat) && t in base && base[t] < |lists|
      modifies `stat, `prio, `attr
      ensures Linked() && Attributed() && lone == NotReady(stat) && t in prio && t in attr && attr[t] == AttributesOf(wide, prio[t])
      ensures State() == old(State()).(prio := old(prio)[t := base[t]], stat := old(stat)[t := M.Suspended])
    {
      SetPriority(t, base[t]);
      stat := stat[t := M.Suspended];
      Rehoused(lists, lone, old(prio), prio, t);
    }

    /** rt_thread_startup. */
    method Startup(t: int)
      requires Valid() && t in stat && stat[t] == M.Init && (current == 0 || current in stat)
      modifies `stat, `prio, `attr, `group, `table, `current, `lists, `lone, links
      ensures Valid() && State() == R.StartupStep(old(State()), t)
    {
      R.StartupKeeps(State(), t);
      Begin(t);
      M.InsertKeeps(State(), t);
      InsertThread(t);
      if current != 0 {
        Schedule();
      }
    }

    /** RT_THREAD_CTRL_CHANGE_PRIORITY. */
    method ChangePriority(t: int, p: nat)
      requires Valid() && t in stat && p < |lists|
      modifies `stat, `prio, `attr, `group, `table, `lists, `lone, links
      ensures Valid() && State() == R.PriorityStep(old(State()), t, p)
    {
      R.PriorityOk(State(), t, p);
      M.Placed(State(), t);
      if stat[t] == M.Ready {
        Requeue(t, p);
      } else {
        SetPriority(t, p);
        Rehoused(lists, lone, old(prio), prio, t);
      }
    }

    /** rt_thread_exit. */
    method Exit()
      requires Valid() && current in stat && stat[current] != M.Closed
      modifies `stat, `group, `table, `current, `lists, `lone, links
      ensures Valid() && State() == R.ExitStep(old(State()))
    {
      M.RemoveKeeps(State(), current, M.Closed);
      M.Placed(State(), current);
      TakeOff(current, M.Closed);
      Schedule();
    }

    /** The scheduling part of rt_thread_detach and rt_thread_delete. */
    method Detach(t: int)
      requires Valid() && t in stat && stat[t] != M.Closed
      modifies `stat, `group, `table, `lists, `lone, links
      ensures Valid() && State() == R.DetachStep(old(State()), t)
    {
      M.Placed(State(), t);
      M.RemoveKeeps(State(), t, M.Closed);
      R.DetachInit(State(), t);
      if stat[t] != M.Init {
        TakeOff(t, M.Closed);
      } else {
        stat := stat[t := M.Closed];
      }
    }

    /** rt_enter_critical. */
    method EnterCritical()
      requires Valid()
      modifies `lock
      ensures Valid() && State() == R.Apply(old(State()), R.Enter)
    {
      lock := lock + 1;
    }

    /** rt_exit_critical. */
    method ExitCritical()
      requires Valid() && (current == 0 || current in stat)
      modifies `lock, `stat, `group, `table, `current, `lists, `lone, links
      ensures Valid() && State() == R.LeaveStep(old(State()))
    {
      lock := lock - 1;
      if lock <= 0 {
        lock := 0;
        if current != 0 {
          Schedule();
        }
      }
    }

    /** rt_tick_increase, up to the timers. */
    method TickIncrease()
      requires Valid() && current in stat
      modifies `left, `stat, `group, `table, `current, `lists, `lone, links
      ensures Valid() && State() == R.TickStep(old(State()))
    {
      assert M.ThreadOk(State(), current);
      R.TickKeeps(State(), if left[current] == 1 then slice[current] else left[current] - 1);
      left := left[current := left[current] - 1];
      if left[current] == 0 {
        left := left[current := slice[current]];
        assert left == old(left)[current := slice[current]];
        Schedule();
      }
    }
  }

  /** A thread in no list may change its priority. */
  lemma Rehoused(lists: seq<seq<int>>, lone: set<int>, prio: map<int, nat>, prio': map<int, nat>, t: int)
    requires Housed(lists, lone, prio) && t in lone && t in prio' && prio' == prio[t := prio'[t]]
    ensures Housed(lists, lone, prio')
  {
    forall p | 0 <= p < |lists| ensures HousedAt(lists[p], lone, prio', p) { assert HousedAt(lists[p], lone, prio, p); }
  }

  lemma StillFilled(l: seq<int>, t: int)
    requires Dropped(l, t) != []
    ensures l != []
  {
  }

  ghost predicate Alone(next: map<int, int>, prev: map<int, int>, a: int)
  {
    a in next && a in prev && next[a] == a && prev[a] == a
  }

  lemma AloneChained(next: map<int, int>, prev: map<int, int>, a: int)
    requires Alone(next, prev, a)
    ensures Chained(next, prev, [a])
  {
    assert LinkAt(next, prev, [a], 0);
  }

  ghost predicate ThreadsFit(n: nat, base: map<int, nat>, slice: map<int, int>)
  {
    forall t :: t in base ==> t > 0 && base[t] < n && t in slice && slice[t] > 0
  }

  function Initial(n: nat, base: map<int, nat>, slice: map<int, int>): M.Sched
    requires ThreadsFit(n, base, slice)
  {
    M.Sched(seq(n, i => []), map t | t in base :: M.Init, base, 0, 0, map t | t in base :: slice[t], slice, base)
  }

  lemma InitialInv(n: nat, base: map<int, nat>, slice: map<int, int>)
    requires ThreadsFit(n, base, slice)
    ensures M.Inv(Initial(n, base, slice))
  {
  }

  lemma InitialRings(next: map<int, int>, prev: map<int, int>, n: nat, lone: set<int>, prio: map<int, nat>)
    requires forall t :: t in lone ==> t > 0 && Alone(next, prev, t)
    requires forall p :: 0 <= p < n ==> Alone(next, prev, Head(p))
    ensures Rings(next, prev, seq(n, i => []), lone) && Housed(seq(n, i => []), lone, prio)
  {
    var l: seq<seq<int>> := seq(n, i => []);
    forall p | 0 <= p < n ensures RingAt(next, prev, l, p) {
      AloneChained(next, prev, Head(p));
      assert [Head(p)] + l[p] == [Head(p)];
    }
    forall t | t in lone ensures Chained(next, prev, [t]) { AloneChained(next, prev, t); }
  }

  ghost function NotReady(stat: map<int, M.Stat>): set<int>
  {
    set t | t in stat && stat[t] != M.Ready
  }

  lemma {:induction false} DroppedAbsent(l: seq<int>, t: int)
    requires t !in l
    ensures Dropped(l, t) == l
    decreases |l|
  {
    if l != [] { DroppedAbsent(l[1..], t); }
  }

  lemma PlaceOf(l: seq<int>, t: int) returns (k: nat)
    requires t in l
    ensures k < |l| && l[k] == t && t !in l[..k]
    decreases |l|
  {
    if l[0] == t {
      k := 0;
    } else {
      k := PlaceOf(l[1..], t);
      k := k + 1;
      assert l[..k] == [l[0]] + l[1..][..k - 1];
    }
  }

  lemma RemovedFromRing(h: int, l: seq<int>, k: nat)
    requires k < |l| && l[k] !in l[..k]
    ensures RemovedAt([h] + l, k + 1) == [h] + Dropped(l, l[k]) && ([h] + l)[k + 1] == l[k]
  {
    RemovedBehind(h, l, k);
    DroppedAt(l, k);
  }

  lemma RemovedBehind(h: int, l: seq<int>, k: nat)
    requires k < |l|
    ensures RemovedAt([h] + l, k + 1) == [h] + RemovedAt(l, k) && ([h] + l)[k + 1] == l[k]
  {
  }
}
