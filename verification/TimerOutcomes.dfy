/** Periodic and stopped timers over whole runs, and which rows of the skip list a timer enters. */
module TimerOutcomes {
  import opened Basics
  import opened Ring
  import opened TimerOrder
  import opened TimerModel
  import opened TimerRuns

  // ---- timers that are not queued

  lemma {:induction false} AbsentStays(s: Timers, t: Id)
    requires s.rows != [] && Inv(s) && Checkable(Queue(s), s.due, s.init, s.periodic, s.now) && t !in Queue(s)
    ensures CheckStep(s).rows != [] && t !in Queue(CheckStep(s))
    decreases (HeadExpiredIsDue(s); CountDue(Queue(s), s.due, s.now))
  {
    HeadExpiredIsDue(s);
    if HeadExpired(s) {
      FireKeepsCheckable(s);
      FireCounts(s);
      FireKeepsInv(s);
      FireIs(s);
      AbsentFires(s, FireStep(s), t);
      AbsentStays(FireStep(s), t);
    }
  }

  lemma AbsentFires(s: Timers, r: Timers, t: Id)
    requires Fired(s, r) && t !in Queue(s)
    ensures t !in Queue(r)
  {
    assert Queue(s) == [Queue(s)[0]] + Queue(s)[1..];
  }

  /** A timer that is not queued stays so and does not fire until it is started. */
  lemma StaysQuiet(s: Timers, e: Event, t: Id)
    requires RunInv(s) && Enabled(s, e) && e != Start(t) && t !in Queue(s)
    ensures Next(s, e).rows != [] && t !in Queue(Next(s, e)) && FiredAt(Next(s, e).fired, t) == FiredAt(s.fired, t)
  {
    match e
    case Start(u) =>
      NextStart(s, u);
      DroppedElsewhere(s, u);
    case Stop(u) =>
      StopKeepsInv(s, u);
      DroppedElsewhere(s, u);
    case SetTime(u, n) =>
    case Tick =>
      AdvanceIsCheckable(s);
      AbsentStays(Advance(s), t);
      TickFiresOnTime(s, t);
  }

  lemma DroppedElsewhere(s: Timers, u: Id)
    requires RunInv(s)
    ensures forall t :: t in Dropped(Queue(s), u) <==> t in Queue(s) && t != u
  {
    assert RowAt(s.rows, |s.rows| - 1, s.due);
    DroppedMembers(Queue(s), u);
  }

  /** A stopped timer does not fire in any run that does not start it. */
  lemma {:induction false} StoppedStaysQuiet(s: Timers, events: seq<Event>, t: Id)
    requires RunInv(s) && Runs(s, events) && Start(t) !in events && t !in Queue(s)
    ensures After(s, events).rows != [] && t !in Queue(After(s, events)) && FiredAt(After(s, events).fired, t) == FiredAt(s.fired, t)
    decreases |events|
  {
    if events != [] {
      assert events[0] in events && forall e :: e in events[1..] ==> e in events;
      NextKeepsRun(s, events[0]);
      StaysQuiet(s, events[0], t);
      StoppedStaysQuiet(Next(s, events[0]), events[1..], t);
    }
  }

  /** Stopping takes the timer off the queue, whether it runs or not. */
  lemma StopIsQuiet(s: Timers, t: Id)
    requires RunInv(s)
    ensures Next(s, Stop(t)).rows != [] && t !in Queue(Next(s, Stop(t))) && Next(s, Stop(t)).fired == s.fired
  {
    StopKeepsInv(s, t);
    DroppedElsewhere(s, t);
  }

  // ---- periodic timers

  /** A timer that is due leaves the queue, and is back with the next deadline if it is periodic. */
  lemma {:induction false} DueTimerMoves(s: Timers, t: Id, d: int)
    requires s.rows != [] && Inv(s) && Checkable(Queue(s), s.due, s.init, s.periodic, s.now)
    requires Waits(s, t, d) && d <= s.now && t in s.init
    ensures if t in s.periodic then Waits(CheckStep(s), t, s.now + s.init[t]) else CheckStep(s).rows != [] && t !in Queue(CheckStep(s))
    decreases (HeadExpiredIsDue(s); CountDue(Queue(s), s.due, s.now))
  {
    HeadExpiredIsDue(s);
    HeadIsEarliest(s, t);
    FireKeepsCheckable(s);
    FireCounts(s);
    FireKeepsInv(s);
    FireIs(s);
    if t != Queue(s)[0] {
      LateTimerFires(s, t, d);
      DueTimerMoves(FireStep(s), t, d);
    } else {
      HeadFires(s, FireStep(s));
      if t in s.periodic { LateTimerStays(FireStep(s), t, s.now + s.init[t]); } else { AbsentStays(FireStep(s), t); }
    }
  }

  lemma HeadIsEarliest(s: Timers, t: Id)
    requires s.rows != [] && Inv(s) && t in Queue(s)
    ensures Covers(s.due, Queue(s)) && s.due[Queue(s)[0]] <= s.due[t]
  {
    QueueIsSorted(s);
    var i :| 0 <= i < |Queue(s)| && Queue(s)[i] == t;
  }

  lemma HeadFires(s: Timers, r: Timers)
    requires Fired(s, r)
    ensures var t := Queue(s)[0];
      if t in s.periodic then Waits(r, t, s.now + s.init[t]) else t !in Queue(r)
  {
  }

  lemma TickMoves(s: Timers, t: Id)
    requires RunInv(s) && Waits(s, t, s.now + 1)
    ensures t in s.init
    ensures var r := Next(s, Tick);
      if t in s.periodic then Waits(r, t, s.now + 1 + s.init[t]) else r.rows != [] && t !in Queue(r)
  {
    AdvanceIsCheckable(s);
    assert t in s.active;
    DueTimerMoves(Advance(s), t, s.now + 1);
  }

  /** The settings of t stay as they are. */
  predicate LeavesAlone(e: Event, t: Id)
  {
    !Touches(e, t) && !(e.SetTime? && e.t == t)
  }

  lemma SettingsStay(s: Timers, e: Event, t: Id)
    requires RunInv(s) && Enabled(s, e) && LeavesAlone(e, t) && t in s.init
    ensures var r := Next(s, e);
      && t in r.init && r.init[t] == s.init[t] && r.periodic == s.periodic && r.now == s.now + if e.Tick? then 1 else 0
  {
    match e
    case Start(u) => StartFields(s, u);
    case Stop(u) =>
    case SetTime(u, n) =>
    case Tick =>
      AdvanceIsCheckable(s);
      CheckKeepsInv(Advance(s));
  }

  /** The deadlines d, d + p, d + 2p and so on up to the tick end. */
  function Deadlines(d: int, p: int, end: int): seq<int>
    requires p > 0
    decreases end - d
  {
    if end < d then [] else [d] + Deadlines(d + p, p, end)
  }

  /** A periodic timer that is left alone fires exactly at its deadlines, one period apart, for as long as the run goes on,
      across wrap-around of the tick. */
  lemma {:induction false} FiresPeriodically(s: Timers, events: seq<Event>, t: Id, d: int)
    requires RunInv(s) && Runs(s, events) && (forall i :: 0 <= i < |events| ==> LeavesAlone(events[i], t))
    requires Waits(s, t, d) && d > s.now && t in s.init && t in s.periodic
    ensures s.init[t] > 0
    ensures FiredAt(After(s, events).fired, t) == FiredAt(s.fired, t) + Deadlines(d, s.init[t], s.now + Ticks(events))
    decreases |events|
  {
    if events != [] {
      var e, r := events[0], Next(s, events[0]);
      NextKeepsRun(s, e);
      SettingsStay(s, e, t);
      if e.Tick? && d == s.now + 1 {
        TickMoves(s, t);
        TickFiresOnTime(s, t);
        FiresPeriodically(r, events[1..], t, d + s.init[t]);
        TicksAhead(events[1..]);
        Appended(FiredAt(s.fired, t), d, Deadlines(d + s.init[t], s.init[t], s.now + Ticks(events)));
      } else {
        StillWaits(s, e, t, d);
        FiresPeriodically(r, events[1..], t, d);
      }
    }
  }

  lemma TicksAhead(events: seq<Event>)
    ensures Ticks(events) >= 0
  {
  }

  lemma Appended(a: seq<int>, d: int, l: seq<int>)
    ensures a + [d] + l == a + ([d] + l)
  {
  }

  // ---- the rows of the skip list

  function Pow4(j: nat): (p: nat)
    ensures p > 0
  {
    if j == 0 then 1 else 4 * Pow4(j - 1)
  }

  lemma MultipleOf4(c: nat, p: nat)
    requires p > 0
    ensures c % (4 * p) == 0 <==> c % 4 == 0 && (c / 4) % p == 0
  {
    if c % (4 * p) == 0 {
      var q := c / (4 * p);
      assert c == 4 * (q * p);
      assert c / 4 == q * p;
      MultipleOf(q, p);
    }
    if c % 4 == 0 && (c / 4) % p == 0 {
      var q := c / 4 / p;
      assert c == q * (4 * p);
      MultipleOf(q, 4 * p);
    }
  }

  lemma {:induction false} HeightIff(counter: nat, k: nat, j: nat)
    requires j <= k
    ensures Extra(counter, k) >= j <==> counter % Pow4(j) == 0
    decreases j
  {
    if j > 0 {
      MultipleOf4(counter, Pow4(j - 1));
      if counter % 4 == 0 { HeightIff(counter / 4, k - 1, j - 1); }
    }
  }

  /** A started timer enters the row j above the bottom exactly if the counter, which every start moves on by one, is a
      multiple of 4 to the power of j: one start in four enters the first row above the bottom, one in sixteen the next. */
  lemma RowsOfStart(s: Timers, t: Id, j: nat)
    requires RunInv(s) && t in s.init && j < |s.rows|
    ensures var r := Next(s, Start(t));
      && r.counter == (s.counter + 1) % MODULUS >= 0 && |r.rows| == |s.rows|
      && (t in r.rows[|r.rows| - 1 - j] <==> r.counter % Pow4(j) == 0)
  {
    StartKeepsInv(s, t);
    StartFields(s, t);
    RemoveKeepsRows(s.rows, t, s.due);
    var rows, h, i := RemoveAll(s.rows, t), Extra(Counted(s.counter), |s.rows| - 1), |s.rows| - 1 - j;
    InsertAllAt(rows, h, t, s.now + s.init[t], s.due, i);
    assert AbsentAt(rows, i, t);
    HeightIff(Counted(s.counter), |s.rows| - 1, j);
  }
}
