/** Whole runs of a timer list that is checked at every tick. */
module TimerRuns {
  import opened Basics
  import opened Ring
  import opened TimerOrder
  import opened TimerModel

  datatype Event = Start(t: Id) | Stop(t: Id) | SetTime(t: Id, n: int) | Tick

  /** Delays stay below RT_TICK_MAX / 2, as the code asserts, and periodic timers have a period. */
  ghost predicate Enabled(s: Timers, e: Event)
  {
    match e
    case Start(t) => t in s.init
    case Stop(t) => true
    case SetTime(t, n) => 0 <= n < HALF && (t in s.periodic ==> n >= 1)
    case Tick => true
  }

  ghost predicate RunInv(s: Timers)
  {
    && s.rows != [] && Inv(s)
    && (forall t :: t in Queue(s) ==> t in s.due && s.now <= s.due[t] < s.now + HALF)
    && (forall t :: t in s.periodic && t in s.init ==> s.init[t] >= 1)
  }

  function Advance(s: Timers): Timers
  {
    s.(now := s.now + 1, tick := Wrap(s.tick + 1))
  }

  lemma AdvanceIsCheckable(s: Timers)
    requires RunInv(s)
    ensures Inv(Advance(s))
    ensures Checkable(Queue(Advance(s)), s.due, s.init, s.periodic, s.now + 1)
  {
    WrapAdd(s.now, 1);
    forall t | t in Queue(s) ensures t in s.init && t in s.due { assert t in s.active; }
  }

  ghost function Next(s: Timers, e: Event): Timers
    requires RunInv(s) && Enabled(s, e)
  {
    match e
    case Start(t) => StartKeepsInv(s, t); StartStep(s, t)
    case Stop(t) => StopStep(s, t)
    case SetTime(t, n) => s.(init := s.init[t := n])
    case Tick => AdvanceIsCheckable(s); CheckStep(Advance(s))
  }

  lemma StartKeepsRun(s: Timers, t: Id)
    requires RunInv(s) && t in s.init
    ensures RowsCovered(RemoveAll(s.rows, t), s.due) && RunInv(StartStep(s, t))
  {
    StartKeepsInv(s, t);
    StartFields(s, t);
    StartReady(s, t);
    assert RowAt(s.rows, |s.rows| - 1, s.due);
    DroppedMembers(Queue(s), t);
  }

  lemma TickKeepsRun(s: Timers)
    requires RunInv(s)
    ensures RunInv(Next(s, Tick))
  {
    AdvanceIsCheckable(s);
    CheckKeepsInv(Advance(s));
    NothingDueIsLeft(Advance(s));
  }

  lemma NextKeepsRun(s: Timers, e: Event)
    requires RunInv(s) && Enabled(s, e)
    ensures RunInv(Next(s, e))
  {
    match e
    case Start(t) => StartKeepsRun(s, t);
    case Stop(t) =>
      StopKeepsInv(s, t);
      assert RowAt(s.rows, |s.rows| - 1, s.due);
      DroppedMembers(Queue(s), t);
    case SetTime(t, n) =>
    case Tick => TickKeepsRun(s);
  }

  /** What a start does in a run. */
  lemma NextStart(s: Timers, t: Id)
    requires RunInv(s) && t in s.init
    ensures var r := Next(s, Start(t));
      && RunInv(r) && Covers(s.due, Dropped(Queue(s), t))
      && Queue(r) == Stable(Dropped(Queue(s), t), t, s.now + s.init[t], s.due)
      && r.due == s.due[t := s.now + s.init[t]] && r.now == s.now && r.fired == s.fired
  {
    StartKeepsRun(s, t);
    StartKeepsInv(s, t);
    StartFields(s, t);
  }

  ghost predicate Runs(s: Timers, events: seq<Event>)
    requires RunInv(s)
    decreases |events|
  {
    events == [] ||
    (Enabled(s, events[0]) && (NextKeepsRun(s, events[0]); Runs(Next(s, events[0]), events[1..])))
  }

  ghost function After(s: Timers, events: seq<Event>): Timers
    requires RunInv(s) && Runs(s, events)
    decreases |events|
  {
    if events == [] then s else (NextKeepsRun(s, events[0]); After(Next(s, events[0]), events[1..]))
  }

  /** In every run the rows stay sorted and nested and every deadline lies ahead, across wrap-around. */
  lemma {:induction false} EveryRunKeepsInv(s: Timers, events: seq<Event>)
    requires RunInv(s) && Runs(s, events)
    ensures RunInv(After(s, events))
    decreases |events|
  {
    if events != [] {
      NextKeepsRun(s, events[0]);
      EveryRunKeepsInv(Next(s, events[0]), events[1..]);
    }
  }

  // ---- when a timer fires

  /** The ticks at which t fired, in order. */
  function FiredAt(fired: seq<(Id, int)>, t: Id): seq<int>
    decreases |fired|
  {
    if fired == [] then []
    else if fired[0].0 == t then [fired[0].1] + FiredAt(fired[1..], t)
    else FiredAt(fired[1..], t)
  }

  lemma {:induction false} FiredAtJoin(a: seq<(Id, int)>, b: seq<(Id, int)>, t: Id)
    ensures FiredAt(a + b, t) == FiredAt(a, t) + FiredAt(b, t)
    decreases |a|
  {
    if a == [] {
      assert a + b == b;
    } else {
      assert (a + b)[1..] == a[1..] + b && (a + b)[0] == a[0];
      FiredAtJoin(a[1..], b, t);
      assert [a[0].1] + (FiredAt(a[1..], t) + FiredAt(b, t)) == [a[0].1] + FiredAt(a[1..], t) + FiredAt(b, t);
    }
  }

  lemma {:induction false} FiresOnce(l: seq<Id>, now: int, t: Id)
    requires Distinct(l)
    ensures FiredAt(Fires(l, now), t) == if t in l then [now] else []
    decreases |l|
  {
    if l != [] {
      PopDistinct(l);
      FiresOnce(l[1..], now, t);
      assert l == [l[0]] + l[1..];
    }
  }

  /** The timers that fire at the next tick, in the order of the queue. */
  ghost function DueNext(s: Timers): seq<Id>
    requires RunInv(s)
  {
    QueueIsSorted(s);
    Queue(s)[..CountDue(Queue(s), s.due, s.now + 1)]
  }

  /** The due timers are the front of a sorted queue. */
  lemma DueFront(q: seq<Id>, due: map<Id, int>, now: int, t: Id)
    requires Sorted(q, due) && Distinct(q)
    ensures var l := q[..CountDue(q, due, now)];
      Distinct(l) && (t in l <==> t in q && t in due && due[t] <= now)
  {
    var l := q[..CountDue(q, due, now)];
    if t in q {
      var i :| 0 <= i < |q| && q[i] == t;
      DueAreFirst(q, due, now, i);
      if t in l { var j :| 0 <= j < |l| && l[j] == t; }
      if i < |l| { assert l[i] == t; }
    }
  }

  lemma DueNextMembers(s: Timers, t: Id)
    requires RunInv(s)
    ensures t in DueNext(s) <==> t in Queue(s) && t in s.due && s.due[t] <= s.now + 1
    ensures Distinct(DueNext(s))
  {
    QueueIsSorted(s);
    DueFront(Queue(s), s.due, s.now + 1, t);
  }

  lemma DueNextFire(s: Timers)
    requires RunInv(s)
    ensures Next(s, Tick).fired == s.fired + Fires(DueNext(s), s.now + 1)
  {
    AdvanceIsCheckable(s);
    CheckIsExact(Advance(s));
  }

  /** A tick fires exactly the running timers whose deadline has come, each once: those due now, and those that
      were started without delay since the last tick. */
  lemma TickFiresOnTime(s: Timers, t: Id)
    requires RunInv(s)
    ensures var fires := t in Queue(s) && t in s.due && s.due[t] <= s.now + 1;
      FiredAt(Next(s, Tick).fired, t) == FiredAt(s.fired, t) + if fires then [s.now + 1] else []
  {
    DueNextMembers(s, t);
    DueNextFire(s);
    FiredAtJoin(s.fired, Fires(DueNext(s), s.now + 1), t);
    FiresOnce(DueNext(s), s.now + 1, t);
  }

  ghost predicate Waits(s: Timers, t: Id, d: int)
  {
    s.rows != [] && t in Queue(s) && t in s.due && s.due[t] == d
  }

  lemma LateTimerFires(s: Timers, t: Id, d: int)
    requires s.rows != [] && Inv(s) && Queue(s) != [] && Waits(s, t, d) && t != Queue(s)[0]
    ensures Waits(FireStep(s), t, d)
  {
    FireIs(s);
    FiredLeaves(s, FireStep(s), t, d);
  }

  lemma FiredLeaves(s: Timers, r: Timers, t: Id, d: int)
    requires Fired(s, r) && Waits(s, t, d) && t != Queue(s)[0]
    ensures Waits(r, t, d)
  {
    assert Queue(s) == [Queue(s)[0]] + Queue(s)[1..];
  }

  /** A check leaves a timer that is not due where it is. */
  lemma {:induction false} LateTimerStays(s: Timers, t: Id, d: int)
    requires s.rows != [] && Inv(s) && Checkable(Queue(s), s.due, s.init, s.periodic, s.now)
    requires Waits(s, t, d) && d > s.now
    ensures Waits(CheckStep(s), t, d)
    decreases (HeadExpiredIsDue(s); CountDue(Queue(s), s.due, s.now))
  {
    HeadExpiredIsDue(s);
    if HeadExpired(s) {
      FireKeepsCheckable(s);
      FireCounts(s);
      FireKeepsInv(s);
      LateTimerFires(s, t, d);
      LateTimerStays(FireStep(s), t, d);
    }
  }

  predicate Touches(e: Event, t: Id)
  {
    (e.Start? && e.t == t) || (e.Stop? && e.t == t)
  }

  /** Until its deadline a timer that nobody starts or stops just waits. */
  lemma StillWaits(s: Timers, e: Event, t: Id, d: int)
    requires RunInv(s) && Enabled(s, e) && !Touches(e, t) && Waits(s, t, d) && (e.Tick? ==> d > s.now + 1)
    ensures Waits(Next(s, e), t, d) && FiredAt(Next(s, e).fired, t) == FiredAt(s.fired, t)
    ensures Next(s, e).now == if e.Tick? then s.now + 1 else s.now
  {
    match e
    case Start(u) =>
      StartKeepsInv(s, u);
      StartFields(s, u);
      assert RowAt(s.rows, |s.rows| - 1, s.due);
      DroppedMembers(Queue(s), u);
    case Stop(u) =>
      StopKeepsInv(s, u);
      assert RowAt(s.rows, |s.rows| - 1, s.due);
      DroppedMembers(Queue(s), u);
    case SetTime(u, n) =>
    case Tick =>
      AdvanceIsCheckable(s);
      LateTimerStays(Advance(s), t, d);
      TickFiresOnTime(s, t);
      CheckKeepsInv(Advance(s));
  }

  function Ticks(events: seq<Event>): nat
    decreases |events|
  {
    if events == [] then 0 else (if events[0].Tick? then 1 else 0) + Ticks(events[1..])
  }

  ghost predicate Untouched(events: seq<Event>, t: Id)
  {
    forall i :: 0 <= i < |events| ==> !Touches(events[i], t)
  }

  /** A timer that nobody touches does not fire before its deadline, whatever else happens. */
  lemma {:induction false} NeverEarly(s: Timers, events: seq<Event>, t: Id, d: int)
    requires RunInv(s) && Runs(s, events) && Untouched(events, t) && Waits(s, t, d)
    requires Ticks(events) == 0 || s.now + Ticks(events) < d
    ensures Waits(After(s, events), t, d) && FiredAt(After(s, events).fired, t) == FiredAt(s.fired, t)
    ensures After(s, events).now == s.now + Ticks(events)
    decreases |events|
  {
    if events != [] {
      NextKeepsRun(s, events[0]);
      StillWaits(s, events[0], t, d);
      NeverEarly(Next(s, events[0]), events[1..], t, d);
    }
  }

  /** And it fires once at the tick that reaches the deadline, or at the very next tick when it was started
      without delay, and at no tick before. */
  lemma FiresOnTime(s: Timers, events: seq<Event>, t: Id, d: int) returns (a: Timers)
    requires RunInv(s) && Runs(s, events) && Untouched(events, t) && Waits(s, t, d)
    requires Ticks(events) + 1 == if d > s.now then d - s.now else 1
    ensures a == After(s, events) && RunInv(a)
    ensures FiredAt(Next(a, Tick).fired, t) == FiredAt(s.fired, t) + [s.now + Ticks(events) + 1]
  {
    ReachesDeadline(s, events, t, d);
    a := After(s, events);
    FiresWhenReached(a, s.fired, t, d, s.now + Ticks(events) + 1);
  }

  lemma FiresWhenReached(s: Timers, before: seq<(Id, int)>, t: Id, d: int, x: int)
    requires RunInv(s) && Waits(s, t, d) && d <= s.now + 1 == x && FiredAt(s.fired, t) == FiredAt(before, t)
    ensures FiredAt(Next(s, Tick).fired, t) == FiredAt(before, t) + [x]
  {
    TickFiresOnTime(s, t);
  }

  lemma ReachesDeadline(s: Timers, events: seq<Event>, t: Id, d: int)
    requires RunInv(s) && Runs(s, events) && Untouched(events, t) && Waits(s, t, d)
    requires Ticks(events) + 1 == if d > s.now then d - s.now else 1
    ensures RunInv(After(s, events)) && Waits(After(s, events), t, d)
    ensures FiredAt(After(s, events).fired, t) == FiredAt(s.fired, t)
    ensures After(s, events).now == s.now + Ticks(events) && d <= After(s, events).now + 1
  {
    NeverEarly(s, events, t, d);
    EveryRunKeepsInv(s, events);
  }

  /** Starting t puts it on the queue with its deadline init_tick ahead. */
  lemma StartedTimerWaits(s: Timers, t: Id)
    requires RunInv(s) && t in s.init
    ensures Waits(Next(s, Start(t)), t, s.now + s.init[t]) && Next(s, Start(t)).now == s.now
  {
    StartKeepsInv(s, t);
    StartFields(s, t);
  }
}
