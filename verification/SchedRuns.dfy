/** Thread operations over the scheduler, and what whole runs of them keep. */
module SchedRuns {
  import opened SchedModel

  datatype Op = Startup(t: int) | Suspend(t: int) | Resume(t: int) | Timeout(t: int) | ChangePriority(t: int, p: nat)
              | Exit | Detach(t: int) | Yield | Enter | Leave | Tick

  /** What the kernel asserts of its callers. */
  ghost predicate Allowed(s: Sched, op: Op)
  {
    match op
    case Startup(t) => t in s.stat && s.stat[t] == Init
    case Timeout(t) => t in s.stat && s.stat[t] == Suspended
    case Suspend(t) => t in s.stat
    case Resume(t) => t in s.stat
    case Detach(t) => t in s.stat && s.stat[t] != Closed
    case ChangePriority(t, p) => t in s.stat && p < |s.lists|
    case Exit => s.current in s.stat && s.stat[s.current] != Closed
    case Yield => s.current in s.stat
    case Tick => s.current in s.stat
    case Enter => true
    case Leave => true
  }

  ghost function Apply(s: Sched, op: Op): Sched
    requires Inv(s) && Allowed(s, op)
    ensures Inv(Apply(s, op)) && (s.current in s.stat ==> Apply(s, op).current in Apply(s, op).stat)
    ensures |Apply(s, op).lists| == |s.lists| && Apply(s, op).stat.Keys == s.stat.Keys
  {
    match op
    case Startup(t) => StartupStep(s, t)
    case Suspend(t) => SuspendStep(s, t)
    case Resume(t) => ResumeStep(s, t)
    case Timeout(t) => TimeoutStep(s, t)
    case ChangePriority(t, p) => PriorityStep(s, t, p)
    case Exit => ExitStep(s)
    case Detach(t) => DetachStep(s, t)
    case Yield => Rescheduled(s)
    case Enter => s.(lock := s.lock + 1)
    case Leave => LeaveStep(s)
    case Tick => TickStep(s)
  }

  /** rt_schedule, once the scheduler is started. */
  ghost function Rescheduled(s: Sched): (r: Sched)
    requires Inv(s)
    ensures Inv(r) && (s.current in s.stat ==> r.current in r.stat) && |r.lists| == |s.lists| && r.stat.Keys == s.stat.Keys
  {
    if s.current == 0 then s
    else
      ScheduleKeeps(s);
      ScheduleFrame(s);
      Schedule(s)
  }

  lemma ScheduleFrame(s: Sched)
    requires Inv(s)
    ensures var r := Schedule(s);
      && (s.current in s.stat ==> r.current in r.stat) && |r.lists| == |s.lists| && r.stat.Keys == s.stat.Keys
      && r.left == s.left && r.slice == s.slice && r.prio == s.prio && r.lock == s.lock && r.base == s.base
  {
    var h := Least(s.lists, 0);
    if h < |s.lists| { SwitchParts(s, h); }
  }

  ghost function StartupStep(s: Sched, t: int): (r: Sched)
    requires Inv(s) && t in s.stat && s.stat[t] == Init
    ensures Inv(r) && (s.current in s.stat ==> r.current in r.stat) && |r.lists| == |s.lists| && r.stat.Keys == s.stat.Keys
  {
    StartupKeeps(s, t);
    var s1 := s.(prio := s.prio[t := s.base[t]], stat := s.stat[t := Suspended]);
    InsertKeeps(s1, t);
    Rescheduled(Insert(s1, t))
  }

  lemma StartupKeeps(s: Sched, t: int)
    requires Inv(s) && t in s.stat && s.stat[t] == Init
    ensures t in s.base && Inv(s.(prio := s.prio[t := s.base[t]], stat := s.stat[t := Suspended]))
  {
    assert ThreadOk(s, t);
    var r := s.(prio := s.prio[t := s.base[t]], stat := s.stat[t := Suspended]);
    PriorityKeeps(s.lists, s.stat, s.prio, t, s.base[t]);
    MarkKeeps(s.lists, s.stat, r.prio, t, Suspended);
    forall u | u in r.stat ensures ThreadOk(r, u) { assert ThreadOk(s, u); }
  }

  /** rt_thread_suspend: only ready and running threads are suspended. */
  ghost function SuspendStep(s: Sched, t: int): (r: Sched)
    requires Inv(s) && t in s.stat
    ensures Inv(r) && r.current == s.current && |r.lists| == |s.lists| && r.stat.Keys == s.stat.Keys
  {
    if s.stat[t] != Ready && s.stat[t] != Running then s
    else
      RemoveKeeps(s, t, Suspended);
      Remove(s, t, Suspended)
  }

  /** rt_thread_resume: only suspended threads are resumed; nothing is scheduled yet. */
  ghost function ResumeStep(s: Sched, t: int): (r: Sched)
    requires Inv(s) && t in s.stat
    ensures Inv(r) && r.current == s.current && |r.lists| == |s.lists| && r.stat.Keys == s.stat.Keys
  {
    if s.stat[t] != Suspended then s
    else
      InsertKeeps(s, t);
      Insert(s, t)
  }

  /** rt_thread_timeout. */
  ghost function TimeoutStep(s: Sched, t: int): (r: Sched)
    requires Inv(s) && t in s.stat && s.stat[t] == Suspended
    ensures Inv(r) && (s.current in s.stat ==> r.current in r.stat) && |r.lists| == |s.lists| && r.stat.Keys == s.stat.Keys
  {
    InsertKeeps(s, t);
    Rescheduled(Insert(s, t))
  }

  /** rt_thread_exit. */
  ghost function ExitStep(s: Sched): (r: Sched)
    requires Inv(s) && s.current in s.stat
    ensures Inv(r) && r.current in r.stat && |r.lists| == |s.lists| && r.stat.Keys == s.stat.Keys
  {
    RemoveKeeps(s, s.current, Closed);
    Rescheduled(Remove(s, s.current, Closed))
  }

  /** RT_THREAD_CTRL_CHANGE_PRIORITY: a ready thread moves to the end of its new list. */
  ghost function PriorityStep(s: Sched, t: int, p: nat): (r: Sched)
    requires Inv(s) && t in s.stat && p < |s.lists|
    ensures Inv(r) && r.current == s.current && |r.lists| == |s.lists| && r.stat.Keys == s.stat.Keys
  {
    PriorityOk(s, t, p);
    if s.stat[t] == Ready then Moved(s, t, p)
    else s.(prio := s.prio[t := p])
  }

  lemma PriorityOk(s: Sched, t: int, p: nat)
    requires Inv(s) && t in s.stat && p < |s.lists|
    ensures Known(s, t)
    ensures s.stat[t] == Ready ==> Inv(Moved(s, t, p)) && t != s.current
    ensures s.stat[t] != Ready ==> Inv(s.(prio := s.prio[t := p]))
  {
    assert ThreadOk(s, t);
    if s.stat[t] == Ready {
      RemoveKeeps(s, t, Suspended);
      var s1 := Remove(s, t, Suspended);
      PriorityOnly(s1, t, p);
      InsertKeeps(s1.(prio := s1.prio[t := p]), t);
      assert s.stat[t := Suspended][t := Ready] == s.stat;
      assert Insert(s1.(prio := s1.prio[t := p]), t) == Moved(s, t, p);
    } else {
      PriorityOnly(s, t, p);
    }
  }

  lemma PriorityOnly(s: Sched, t: int, p: nat)
    requires Inv(s) && t in s.stat && s.stat[t] != Ready && p < |s.lists|
    ensures Inv(s.(prio := s.prio[t := p]))
  {
    var r := s.(prio := s.prio[t := p]);
    PriorityKeeps(s.lists, s.stat, s.prio, t, p);
    forall u | u in r.stat ensures ThreadOk(r, u) { assert ThreadOk(s, u); }
  }

  ghost function DetachStep(s: Sched, t: int): (r: Sched)
    requires Inv(s) && t in s.stat
    ensures Inv(r) && r.current == s.current && |r.lists| == |s.lists| && r.stat.Keys == s.stat.Keys
  {
    RemoveKeeps(s, t, Closed);
    DetachInit(s, t);
    if s.stat[t] == Init then s.(stat := s.stat[t := Closed]) else Remove(s, t, Closed)
  }

  lemma DetachInit(s: Sched, t: int)
    requires Inv(s) && t in s.stat
    ensures s.stat[t] == Init ==> Inv(s.(stat := s.stat[t := Closed]))
  {
    if s.stat[t] == Init {
      MarkKeeps(s.lists, s.stat, s.prio, t, Closed);
      ThreadsKept(s, s.(stat := s.stat[t := Closed]));
    }
  }

  /** rt_exit_critical. */
  ghost function LeaveStep(s: Sched): (r: Sched)
    requires Inv(s)
    ensures Inv(r) && (s.current in s.stat ==> r.current in r.stat) && |r.lists| == |s.lists| && r.stat.Keys == s.stat.Keys
  {
    if s.lock - 1 <= 0 then Rescheduled(s.(lock := 0)) else s.(lock := s.lock - 1)
  }

  /** rt_tick_increase, without the timers. */
  ghost function TickStep(s: Sched): (r: Sched)
    requires Inv(s) && s.current in s.stat
    ensures Inv(r) && r.current in r.stat && |r.lists| == |s.lists| && r.stat.Keys == s.stat.Keys
  {
    assert ThreadOk(s, s.current);
    var n := s.left[s.current] - 1;
    TickKeeps(s, if n == 0 then s.slice[s.current] else n);
    if n == 0 then Rescheduled(s.(left := s.left[s.current := s.slice[s.current]])) else s.(left := s.left[s.current := n])
  }

  lemma TickKeeps(s: Sched, n: int)
    requires Inv(s) && s.current in s.stat && n > 0
    ensures Inv(s.(left := s.left[s.current := n]))
  {
    var r := s.(left := s.left[s.current := n]);
    forall u | u in r.stat ensures ThreadOk(r, u) { assert ThreadOk(s, u); }
  }

  // ---- runs

  ghost predicate AllowedRun(s: Sched, ops: seq<Op>)
    requires Inv(s)
    decreases |ops|
  {
    ops == [] || (Allowed(s, ops[0]) && AllowedRun(Apply(s, ops[0]), ops[1..]))
  }

  ghost function Run(s: Sched, ops: seq<Op>): Sched
    requires Inv(s) && AllowedRun(s, ops)
    decreases |ops|
  {
    if ops == [] then s else Run(Apply(s, ops[0]), ops[1..])
  }

  /** Every run keeps the lists exact: no ready thread is lost, doubled, or listed under a wrong priority. */
  lemma {:induction false} EveryRunKeepsInv(s: Sched, ops: seq<Op>)
    requires Inv(s) && AllowedRun(s, ops)
    ensures Inv(Run(s, ops)) && Run(s, ops).stat.Keys == s.stat.Keys && |Run(s, ops).lists| == |s.lists|
    decreases |ops|
  {
    if ops != [] { EveryRunKeepsInv(Apply(s, ops[0]), ops[1..]); }
  }

  /** The lock stays up through the whole run. */
  ghost predicate StaysLocked(s: Sched, ops: seq<Op>)
    requires Inv(s) && AllowedRun(s, ops)
    decreases |ops|
  {
    s.lock > 0 && (ops == [] || StaysLocked(Apply(s, ops[0]), ops[1..]))
  }

  lemma LockedStepStays(s: Sched, op: Op)
    requires Inv(s) && Allowed(s, op) && s.lock > 0 && Apply(s, op).lock > 0
    ensures Apply(s, op).current == s.current
  {
  }

  /** While the lock is up, whatever happens, the same thread goes on running. */
  lemma {:induction false} LockedRunStays(s: Sched, ops: seq<Op>)
    requires Inv(s) && AllowedRun(s, ops) && StaysLocked(s, ops)
    ensures Run(s, ops).current == s.current
    decreases |ops|
  {
    if ops != [] {
      LockedStepStays(s, ops[0]);
      LockedRunStays(Apply(s, ops[0]), ops[1..]);
    }
  }

  /** n nested critical sections, entered and left. */
  function Entries(n: nat): (r: seq<Op>)
    decreases n
  {
    if n == 0 then [] else [Enter] + Entries(n - 1) + [Leave]
  }

  /** Only leaving the outermost critical section schedules; the sections inside change nothing. */
  lemma {:induction false} NestingBalances(s: Sched, n: nat)
    requires Inv(s)
    ensures AllowedRun(s, Entries(n))
    ensures Run(s, Entries(n)) == if n == 0 || s.lock > 0 then s else Rescheduled(s)
    decreases n
  {
    if n > 0 {
      var s1 := Apply(s, Enter);
      NestingBalances(s1, n - 1);
      assert Entries(n)[1..] == Entries(n - 1) + [Leave];
      LeaveRuns(s1, Entries(n - 1), s1);
      assert s1.(lock := s.lock) == s && (s.lock == 0 ==> s1.(lock := 0) == s);
    }
  }

  lemma {:induction false} LeaveRuns(s: Sched, ops: seq<Op>, r: Sched)
    requires Inv(s) && AllowedRun(s, ops) && Run(s, ops) == r
    ensures Inv(r) && AllowedRun(s, ops + [Leave]) && Run(s, ops + [Leave]) == LeaveStep(r)
    decreases |ops|
  {
    if ops == [] {
      assert ops + [Leave] == [Leave];
      assert [Leave][1..] == [];
    } else {
      LeaveRuns(Apply(s, ops[0]), ops[1..], r);
      assert (ops + [Leave])[1..] == ops[1..] + [Leave];
    }
  }
}
